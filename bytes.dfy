/**
 * Fixed-width unsigned integers and their big-endian byte layout, as the
 * `byteorder` crate's `read_u16/u32/u64::<BigEndian>` and
 * `write_u16/u32/u64::<BigEndian>` produce and consume them.
 */
module Bytes {

  type u8 = x: int | 0 <= x < 0x100
  type u16 = x: int | 0 <= x < 0x1_0000
  type u32 = x: int | 0 <= x < 0x1_0000_0000
  type u64 = x: int | 0 <= x < 0x1_0000_0000_0000_0000

  /** 256 to the power n: one more than the largest value n bytes hold. */
  function Pow256(n: nat): (r: nat)
    ensures r >= 1
  {
    if n == 0 then 1 else 256 * Pow256(n - 1)
  }

  lemma {:induction false} Pow256Widths()
    ensures Pow256(1) == 0x100
    ensures Pow256(2) == 0x1_0000
    ensures Pow256(4) == 0x1_0000_0000
    ensures Pow256(8) == 0x1_0000_0000_0000_0000
  {
    assert Pow256(1) == 256 * Pow256(0);
    assert Pow256(2) == 256 * Pow256(1);
    assert Pow256(3) == 256 * Pow256(2);
    assert Pow256(4) == 256 * Pow256(3);
    assert Pow256(5) == 256 * Pow256(4);
    assert Pow256(6) == 256 * Pow256(5);
    assert Pow256(7) == 256 * Pow256(6);
    assert Pow256(8) == 256 * Pow256(7);
  }

  /** The `width` bytes of `x`, most significant first. */
  function BigEndian(x: nat, width: nat): (r: seq<u8>)
    requires x < Pow256(width)
    ensures |r| == width
    ensures width > 0 ==> r[width - 1] == x % 256
  {
    if width == 0 then []
    else
      DivBelow(x, width);
      BigEndian(x / 256, width - 1) + [x % 256]
  }

  /** The number a big-endian byte string denotes. */
  function FromBigEndian(s: seq<u8>): (r: nat)
    ensures r < Pow256(|s|)
  {
    if s == [] then 0
    else FromBigEndian(s[..|s| - 1]) * 256 + s[|s| - 1]
  }

  lemma {:induction false} DivBelow(x: nat, width: nat)
    requires width > 0 && x < Pow256(width)
    ensures x / 256 < Pow256(width - 1)
  {
  }

  /** Reading back what `BigEndian` wrote gives the number. */
  lemma {:induction false} FromBigEndianOfBigEndian(x: nat, width: nat)
    requires x < Pow256(width)
    ensures FromBigEndian(BigEndian(x, width)) == x
  {
    if width > 0 {
      var s := BigEndian(x, width);
      DivBelow(x, width);
      assert s[..width - 1] == BigEndian(x / 256, width - 1);
      FromBigEndianOfBigEndian(x / 256, width - 1);
    }
  }

  /** Writing the number a byte string denotes gives back the bytes. */
  lemma {:induction false} BigEndianOfFromBigEndian(s: seq<u8>)
    ensures BigEndian(FromBigEndian(s), |s|) == s
  {
    if s != [] {
      var p := s[..|s| - 1];
      var x := FromBigEndian(s);
      assert x / 256 == FromBigEndian(p);
      assert x % 256 == s[|s| - 1];
      BigEndianOfFromBigEndian(p);
      assert s == p + [s[|s| - 1]];
    }
  }

  /** The low bit of a big-endian number is the low bit of its last byte. */
  lemma {:induction false} LowBitIsLastByte(s: seq<u8>)
    requires s != []
    ensures FromBigEndian(s) % 2 == s[|s| - 1] % 2
  {
  }

  /**
   * Clearing the low bit of the last byte (`route[7] &= 0b11111110`)
   * clears the low bit of the number.
   */
  lemma {:induction false} ClearLastBit(s: seq<u8>)
    requires s != []
    ensures FromBigEndian(s[..|s| - 1] + [ClearLowBit(s[|s| - 1])]) == FromBigEndian(s) - FromBigEndian(s) % 2
    ensures FromBigEndian(s[..|s| - 1] + [ClearLowBit(s[|s| - 1])]) % 2 == 0
  {
    var p, b := s[..|s| - 1], s[|s| - 1];
    var t := p + [ClearLowBit(b)];
    assert t[..|t| - 1] == p;
    var x := FromBigEndian(p);
    assert FromBigEndian(t) == x * 256 + ClearLowBit(b);
    assert FromBigEndian(s) == x * 256 + b;
    assert FromBigEndian(s) % 2 == b % 2 by { LowBitIsLastByte(s); }
    assert x * 256 + ClearLowBit(b) == 2 * (x * 128 + b / 2);
  }

  /** One more byte of width puts a zero byte in front. */
  lemma {:induction false} ZeroExtend(x: nat, width: nat)
    requires x < Pow256(width)
    ensures x < Pow256(width + 1)
    ensures BigEndian(x, width + 1) == [0] + BigEndian(x, width)
  {
    DivBelow(x, width + 1);
    if width > 0 {
      DivBelow(x, width);
      ZeroExtend(x / 256, width - 1);
    }
  }

  /** A slice that ends inside the first part of a concatenation lies entirely in it. */
  lemma {:induction false} SlicePrefix<X>(a: seq<X>, b: seq<X>, i: nat, j: nat)
    requires i <= j <= |a|
    ensures (a + b)[i..j] == a[i..j]
  {
  }

  /** The middle part of a three-way concatenation, sliced back out. */
  lemma {:induction false} SliceMiddle<X>(a: seq<X>, b: seq<X>, c: seq<X>)
    ensures (a + b) + c == a + (b + c)
    ensures (a + (b + c))[|a|..|a| + |b|] == b
  {
  }

  /** `b & 0b11111110`. */
  function ClearLowBit(b: u8): (r: u8)
    ensures r % 2 == 0 && r / 2 == b / 2
  {
    b - b % 2
  }

  /** `b | 0b00000001`. */
  function SetLowBit(b: u8): (r: u8)
    ensures r % 2 == 1 && r / 2 == b / 2
  {
    b - b % 2 + 1
  }
}
