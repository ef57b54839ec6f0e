/**
 * The inner frame format carried in a decrypted packet payload: tagged frames
 * packed back to back, with 0x00 bytes as padding between them.
 */
module Frames {
  import opened Bytes
  import opened Wrappers

  datatype Frame =
    | Header(stream: u32, payload: seq<u8>)
    | Stream(stream: u32, order: u64, payload: seq<u8>)
    | Ack(delay: u64, acked: seq<u64>)
    | Ping
    | Disconnect
    | Close(stream: u32, order: u64)
    | Config(timeout: Option<u16>, sleeping: bool)

  /**
   * `Truncated` is the I/O error of a read past the end of the input;
   * `InvalidFrameType` rejects a type byte the decoder does not know.
   */
  datatype FrameError = Truncated | InvalidFrameType(typ: u8)

  /** `Frame::len`: the size in bytes of the frame on the wire. */
  function Len(f: Frame): (r: nat)
    ensures r >= 1
    ensures r == 1 <==> f.Ping? || f.Disconnect?
  {
    match f
    case Header(_, payload) => 1 + 4 + 2 + |payload|
    case Stream(_, _, payload) => 1 + 4 + 8 + 2 + |payload|
    case Ack(_, acked) => 1 + 2 + 2 + 8 * |acked|
    case Ping => 1
    case Disconnect => 1
    case Close(_, _) => 1 + 4 + 8
    case Config(timeout, _) => 1 + 1 + 2 + if timeout.Some? then 2 else 0
  }

  /** `Frame::is_ping`. */
  predicate IsPing(f: Frame)
    ensures IsPing(f) ==> Len(f) == 1 && !IsAck(f)
  {
    f.Ping?
  }

  /** `Frame::is_ack`. */
  predicate IsAck(f: Frame)
    ensures IsAck(f) ==> f.Ack? && Len(f) == 5 + 8 * |f.acked|
  {
    f.Ack?
  }

  /** The frames that `Frame::order` accepts; it panics on every other kind. */
  predicate Ordered(f: Frame)
  {
    f.Header? || f.Stream? || f.Close?
  }

  /** `Frame::order`: a header is always the first frame of its stream. */
  function Order(f: Frame): (r: u64)
    requires Ordered(f)
    ensures f.Header? ==> r == 1
  {
    match f
    case Header(_, _) => 1
    case Stream(_, order, _) => order
    case Close(_, order) => order
  }

  /**
   * What `Frame::encode` demands of its frame: its `assert!`s bound the
   * payload of Header and Stream frames and the number of acknowledgements.
   */
  predicate Encodable(f: Frame)
  {
    match f
    case Header(_, payload) => |payload| + 12 < 0xffff
    case Stream(_, _, payload) => |payload| + 12 < 0xffff
    case Ack(_, acked) => |acked| < 0xffff / 8
    case _ => true
  }

  predicate SortedAsc(s: seq<u64>)
  {
    forall i, j :: 0 <= i < j < |s| ==> s[i] <= s[j]
  }

  /** Inserts `x` before the first element not smaller than it. */
  function Insert(x: u64, s: seq<u64>): (r: seq<u64>)
    ensures |r| == |s| + 1
    ensures r[0] == if s == [] || x <= s[0] then x else s[0]
  {
    if s == [] then [x]
    else if x <= s[0] then [x] + s
    else [s[0]] + Insert(x, s[1..])
  }

  /** Inserting into a sorted sequence keeps it sorted. */
  lemma {:induction false} InsertSorted(x: u64, s: seq<u64>)
    requires SortedAsc(s)
    ensures SortedAsc(Insert(x, s))
  {
    if s == [] {
    } else if x <= s[0] {
      SortedCons(x, s);
    } else {
      var t := Insert(x, s[1..]);
      InsertSorted(x, s[1..]);
      assert s[0] <= t[0] by { if s[1..] != [] { assert s[0] <= s[1]; } }
      SortedCons(s[0], t);
    }
  }

  /** A sorted sequence stays sorted with a head no larger than its first element. */
  lemma {:induction false} SortedCons(x: u64, t: seq<u64>)
    requires SortedAsc(t) && (t != [] ==> x <= t[0])
    ensures SortedAsc([x] + t)
  {
    var r := [x] + t;
    forall i, j | 0 <= i < j < |r|
      ensures r[i] <= r[j]
    {
      if i == 0 { assert r[j] == t[j - 1] && t[0] <= t[j - 1]; }
      else { assert r[i] == t[i - 1] && r[j] == t[j - 1]; }
    }
  }

  /** `Insert` adds exactly one copy of `x`. */
  lemma {:induction false} InsertPermutes(x: u64, s: seq<u64>)
    ensures multiset(Insert(x, s)) == multiset(s) + multiset{x}
  {
    if s != [] && x > s[0] {
      InsertPermutes(x, s[1..]);
      assert s == [s[0]] + s[1..];
    }
  }

  /** The acknowledgements sorted ascending, as `acked.sort_unstable()` leaves them. */
  function SortAsc(s: seq<u64>): (r: seq<u64>)
    ensures |r| == |s|
  {
    if s == [] then [] else Insert(s[0], SortAsc(s[1..]))
  }

  /** `SortAsc` leaves its result in ascending order. */
  lemma {:induction false} SortAscSorted(s: seq<u64>)
    ensures SortedAsc(SortAsc(s))
  {
    if s != [] {
      SortAscSorted(s[1..]);
      InsertSorted(s[0], SortAsc(s[1..]));
    }
  }

  /** `SortAsc` reorders its input and neither drops nor invents an element. */
  lemma {:induction false} SortAscPermutes(s: seq<u64>)
    ensures multiset(SortAsc(s)) == multiset(s)
  {
    if s != [] {
      SortAscPermutes(s[1..]);
      InsertPermutes(s[0], SortAsc(s[1..]));
      assert s == [s[0]] + s[1..];
    }
  }

  /** The acknowledgements written one after another, eight big-endian bytes each. */
  function U64sBytes(s: seq<u64>): (r: seq<u8>)
    ensures |r| == 8 * |s|
  {
    Pow256Widths();
    if s == [] then [] else U64sBytes(s[..|s| - 1]) + BigEndian(s[|s| - 1], 8)
  }

  /** The `count` big-endian 64-bit numbers at the start of `s`. */
  function ReadU64s(s: seq<u8>, count: nat): (r: seq<u64>)
    requires |s| >= 8 * count
    ensures |r| == count
  {
    Pow256Widths();
    if count == 0 then [] else ReadU64s(s, count - 1) + [FromBigEndian(s[8 * (count - 1) .. 8 * count])]
  }

  /** `flags & 0b10000000 > 0`: a timeout follows. */
  predicate TimeoutFlag(flags: u8)
  {
    flags / 0x80 % 2 == 1
  }

  /** `flags & 0b01000000 > 0`: the peer is sleeping. */
  predicate SleepingFlag(flags: u8)
  {
    flags / 0x40 % 2 == 1
  }

  function ConfigFlags(timeout: Option<u16>, sleeping: bool): u8
  {
    (if timeout.Some? then 0x80 else 0) + (if sleeping then 0x40 else 0)
  }

  /** The bytes `Frame::encode` writes for `f`. */
  function FrameBytes(f: Frame): (r: seq<u8>)
    requires Encodable(f)
    ensures |r| == Len(f)
  {
    Pow256Widths();
    match f
    case Header(stream, payload) =>
      [0x04] + BigEndian(stream, 4) + BigEndian(|payload|, 2) + payload
    case Stream(stream, order, payload) =>
      [0x05] + BigEndian(stream, 4) + BigEndian(order, 8) + BigEndian(|payload|, 2) + payload
    case Ack(delay, acked) =>
      [0x01] + BigEndian(delay % 0x1_0000, 2) + BigEndian(|acked|, 2) + U64sBytes(SortAsc(acked))
    case Ping => [0x02]
    case Disconnect => [0x03]
    case Close(stream, order) =>
      [0x06] + BigEndian(stream, 4) + BigEndian(order, 8)
    case Config(timeout, sleeping) =>
      [0x07, ConfigFlags(timeout, sleeping)] + BigEndian(if timeout.Some? then 2 else 0, 2)
        + (if timeout.Some? then BigEndian(timeout.value, 2) else [])
  }

  /** `Frame::encode`: writes the frame field by field and returns how many bytes it wrote. */
  method Encode(f: Frame) returns (w: seq<u8>, written: nat)
    requires Encodable(f)
    ensures w == FrameBytes(f)
    ensures written == |w| && written == Len(f)
  {
    Pow256Widths();
    var len := Len(f);
    w := [];
    match f {
      case Header(stream, payload) =>
        w := w + [0x04];
        assert w == [0x04];
        w := w + BigEndian(stream, 4);
        w := w + BigEndian(|payload|, 2);
        w := w + payload;
      case Stream(stream, order, payload) =>
        w := w + [0x05];
        assert w == [0x05];
        w := w + BigEndian(stream, 4);
        w := w + BigEndian(order, 8);
        w := w + BigEndian(|payload|, 2);
        w := w + payload;
      case Ack(delay, acked) =>
        w := w + [0x01];
        assert w == [0x01];
        w := w + BigEndian(delay % 0x1_0000, 2);
        w := w + BigEndian(|acked|, 2);
        var sorted := SortAsc(acked);
        w := WriteAcks(w, sorted);
      case Ping =>
        w := w + [0x02];
        assert w == [0x02];
      case Disconnect =>
        w := w + [0x03];
        assert w == [0x03];
      case Close(stream, order) =>
        w := w + [0x06];
        assert w == [0x06];
        w := w + BigEndian(stream, 4);
        w := w + BigEndian(order, 8);
      case Config(timeout, sleeping) =>
        w := w + [0x07];
        assert w == [0x07];
        var flags: u8 := 0x00;
        var datalen: u16 := 0;
        if timeout.Some? {
          flags := flags + 0x80;
          datalen := datalen + 2;
        }
        if sleeping {
          flags := flags + 0x40;
        }
        w := w + [flags];
        w := w + BigEndian(datalen, 2);
        if timeout.Some? {
          w := w + BigEndian(timeout.value, 2);
        }
    }
    written := len;
  }

  /** The loop `for ack in acked { w.write_u64::<BigEndian>(ack) }`. */
  method WriteAcks(w0: seq<u8>, acked: seq<u64>) returns (w: seq<u8>)
    ensures w == w0 + U64sBytes(acked)
  {
    Pow256Widths();
    w := w0;
    var i := 0;
    while i < |acked|
      invariant 0 <= i <= |acked|
      invariant w == w0 + U64sBytes(acked[..i])
    {
      assert acked[..i + 1][..i] == acked[..i];
      w := w + BigEndian(acked[i], 8);
      i := i + 1;
    }
    assert acked[..|acked|] == acked;
  }

  /** One step of the decoder: the frame read (none for a padding byte) and the bytes consumed. */
  datatype Step = Step(frame: Option<Frame>, size: nat)

  /** One iteration of the loop in `Frame::decode`, reading from the start of `s`. */
  function ParseOne(s: seq<u8>): (r: Result<Step, FrameError>)
    requires |s| > 0
    ensures r.Ok? ==> 1 <= r.value.size <= |s|
  {
    var t := s[0];
    if t == 0x00 then Ok(Step(None, 1))
    else if t == 0x01 then ParseAck(s)
    else if t == 0x02 then Ok(Step(Some(Ping), 1))
    else if t == 0x03 then Ok(Step(Some(Disconnect), 1))
    else if t == 0x04 then ParseHeader(s)
    else if t == 0x05 then ParseStream(s)
    else if t == 0x06 then ParseClose(s)
    else if t == 0x07 then ParseConfig(s)
    else Err(InvalidFrameType(t))
  }

  /** Type 0x01: 16-bit delay, 16-bit count, then `count` 64-bit acknowledgements in wire order. */
  function ParseAck(s: seq<u8>): (r: Result<Step, FrameError>)
    requires |s| > 0
    ensures r.Ok? ==> 1 <= r.value.size <= |s|
    ensures r.Ok? ==> r.value.frame.Some? && r.value.frame.value.Ack? && r.value.size == Len(r.value.frame.value)
  {
    Pow256Widths();
    if |s| < 5 then Err(Truncated)
    else
      var count := FromBigEndian(s[3..5]);
      if |s| < 5 + 8 * count then Err(Truncated)
      else Ok(Step(Some(Ack(FromBigEndian(s[1..3]), ReadU64s(s[5..], count))), 5 + 8 * count))
  }

  /** Type 0x04: 32-bit stream, 16-bit length, payload. */
  function ParseHeader(s: seq<u8>): (r: Result<Step, FrameError>)
    requires |s| > 0
    ensures r.Ok? ==> 1 <= r.value.size <= |s|
    ensures r.Ok? ==> r.value.frame.Some? && r.value.frame.value.Header? && r.value.size == Len(r.value.frame.value)
  {
    Pow256Widths();
    if |s| < 7 then Err(Truncated)
    else
      var len := FromBigEndian(s[5..7]);
      if |s| < 7 + len then Err(Truncated)
      else Ok(Step(Some(Header(FromBigEndian(s[1..5]), s[7..7 + len])), 7 + len))
  }

  /** Type 0x05: 32-bit stream, 64-bit order, 16-bit length, payload. */
  function ParseStream(s: seq<u8>): (r: Result<Step, FrameError>)
    requires |s| > 0
    ensures r.Ok? ==> 1 <= r.value.size <= |s|
    ensures r.Ok? ==> r.value.frame.Some? && r.value.frame.value.Stream? && r.value.size == Len(r.value.frame.value)
  {
    Pow256Widths();
    if |s| < 15 then Err(Truncated)
    else
      var len := FromBigEndian(s[13..15]);
      if |s| < 15 + len then Err(Truncated)
      else Ok(Step(Some(Stream(FromBigEndian(s[1..5]), FromBigEndian(s[5..13]), s[15..15 + len])), 15 + len))
  }

  /** Type 0x06: 32-bit stream, 64-bit order. */
  function ParseClose(s: seq<u8>): (r: Result<Step, FrameError>)
    requires |s| > 0
    ensures r.Ok? ==> 1 <= r.value.size <= |s|
    ensures r.Ok? ==> r.value.frame.Some? && r.value.frame.value.Close? && r.value.size == Len(r.value.frame.value)
  {
    Pow256Widths();
    if |s| < 13 then Err(Truncated)
    else Ok(Step(Some(Close(FromBigEndian(s[1..5]), FromBigEndian(s[5..13]))), 13))
  }

  /**
   * Type 0x07: flags, 16-bit data length, data; the timeout is the first two
   * data bytes when flag bit 7 is set, and any further data is skipped.
   */
  function ParseConfig(s: seq<u8>): (r: Result<Step, FrameError>)
    requires |s| > 0
    ensures r.Ok? ==> 1 <= r.value.size <= |s|
    ensures r.Ok? ==> r.value.frame.Some? && r.value.frame.value.Config? && r.value.size >= Len(r.value.frame.value)
  {
    Pow256Widths();
    if |s| < 4 then Err(Truncated)
    else
      var flags := s[1];
      var datalen := FromBigEndian(s[2..4]);
      if |s| < 4 + datalen then Err(Truncated)
      else if TimeoutFlag(flags) && datalen < 2 then Err(Truncated)
      else
        var timeout: Option<u16> := if TimeoutFlag(flags) then Some(FromBigEndian(s[4..6])) else None;
        Ok(Step(Some(Config(timeout, SleepingFlag(flags))), 4 + datalen))
  }

  function FrameList(o: Option<Frame>): (r: seq<Frame>)
    ensures |r| <= 1
  {
    if o.Some? then [o.value] else []
  }

  /** `fs` followed by the frames of `r`, or the error of `r`. */
  function Prepend(fs: seq<Frame>, rest: Result<seq<Frame>, FrameError>): (r: Result<seq<Frame>, FrameError>)
    ensures r.Ok? <==> rest.Ok?
  {
    match rest
    case Ok(gs) => Ok(fs + gs)
    case Err(e) => Err(e)
  }

  lemma {:induction false} PrependNothing(r: Result<seq<Frame>, FrameError>)
    ensures Prepend([], r) == r
  {
    if r.Ok? { assert [] + r.value == r.value; }
  }

  lemma {:induction false} PrependTwice(fs: seq<Frame>, gs: seq<Frame>, r: Result<seq<Frame>, FrameError>)
    ensures Prepend(fs, Prepend(gs, r)) == Prepend(fs + gs, r)
  {
    if r.Ok? { assert fs + (gs + r.value) == (fs + gs) + r.value; }
  }

  /** What `Frame::decode` returns for the bytes `s`. */
  function ParseFrames(s: seq<u8>): (r: Result<seq<Frame>, FrameError>)
    ensures s == [] ==> r == Ok([])
    ensures r.Ok? ==> |r.value| <= |s|
    decreases |s|
  {
    if s == [] then Ok([])
    else
      match ParseOne(s)
      case Err(e) => Err(e)
      case Ok(step) => Prepend(FrameList(step.frame), ParseFrames(s[step.size..]))
  }

  /** One turn of the decoder loop, for a frame that reads successfully. */
  lemma {:induction false} ParseFramesStep(s: seq<u8>, o: Option<Frame>, size: nat)
    requires s != [] && ParseOne(s) == Ok(Step(o, size))
    ensures size <= |s|
    ensures ParseFrames(s) == Prepend(FrameList(o), ParseFrames(s[size..]))
  {
  }

  /** One turn of the decoder loop, for a frame that fails to read. */
  lemma {:induction false} ParseFramesError(s: seq<u8>, e: FrameError)
    requires s != [] && ParseOne(s) == Err(e)
    ensures ParseFrames(s) == Err(e)
  {
  }

  /** The Ack arm of `Frame::decode`: the acknowledgements are read one by one in a loop. */
  method DecodeAck(s: seq<u8>) returns (r: Result<Step, FrameError>)
    requires |s| > 0
    ensures r == ParseAck(s)
  {
    Pow256Widths();
    if |s| < 5 { return Err(Truncated); }
    var delay := FromBigEndian(s[1..3]);
    var count := FromBigEndian(s[3..5]);
    var acked: seq<u64> := [];
    var i := 0;
    while i < count
      invariant 0 <= i <= count
      invariant 5 + 8 * i <= |s|
      invariant acked == ReadU64s(s[5..], i)
    {
      if |s| < 5 + 8 * i + 8 { return Err(Truncated); }
      acked := acked + [FromBigEndian(s[5 + 8 * i .. 5 + 8 * i + 8])];
      i := i + 1;
      assert s[5..][8 * (i - 1) .. 8 * (i - 1) + 8] == s[5 + 8 * (i - 1) .. 5 + 8 * (i - 1) + 8];
    }
    r := Ok(Step(Some(Ack(delay, acked)), 5 + 8 * count));
  }

  /** The Config arm of `Frame::decode`. */
  method DecodeConfig(s: seq<u8>) returns (r: Result<Step, FrameError>)
    requires |s| > 0
    ensures r == ParseConfig(s)
  {
    Pow256Widths();
    if |s| < 4 { return Err(Truncated); }
    var flags := s[1];
    var datalen := FromBigEndian(s[2..4]);
    if |s| < 4 + datalen { return Err(Truncated); }
    var data := s[4..4 + datalen];
    var timeout: Option<u16> := None;
    if TimeoutFlag(flags) {
      if |data| < 2 { return Err(Truncated); }
      assert data[..2] == s[4..6];
      timeout := Some(FromBigEndian(data[..2]));
    }
    r := Ok(Step(Some(Config(timeout, SleepingFlag(flags))), 4 + datalen));
  }

  /** The body of the decoder loop for the frame starting at `pos`. */
  method DecodeOne(buf: seq<u8>, pos: nat) returns (r: Result<Step, FrameError>)
    requires pos < |buf|
    ensures r == ParseOne(buf[pos..])
  {
    Pow256Widths();
    var s := buf[pos..];
    var typ := s[0];
    if typ == 0x00 {
      r := Ok(Step(None, 1));
    } else if typ == 0x01 {
      r := DecodeAck(s);
    } else if typ == 0x02 {
      r := Ok(Step(Some(Ping), 1));
    } else if typ == 0x03 {
      r := Ok(Step(Some(Disconnect), 1));
    } else if typ == 0x04 {
      if |s| < 7 { return Err(Truncated); }
      var stream := FromBigEndian(s[1..5]);
      var len := FromBigEndian(s[5..7]);
      if |s| < 7 + len { return Err(Truncated); }
      r := Ok(Step(Some(Header(stream, s[7..7 + len])), 7 + len));
    } else if typ == 0x05 {
      if |s| < 15 { return Err(Truncated); }
      var stream := FromBigEndian(s[1..5]);
      var order := FromBigEndian(s[5..13]);
      var len := FromBigEndian(s[13..15]);
      if |s| < 15 + len { return Err(Truncated); }
      r := Ok(Step(Some(Stream(stream, order, s[15..15 + len])), 15 + len));
    } else if typ == 0x06 {
      if |s| < 13 { return Err(Truncated); }
      r := Ok(Step(Some(Close(FromBigEndian(s[1..5]), FromBigEndian(s[5..13]))), 13));
    } else if typ == 0x07 {
      r := DecodeConfig(s);
    } else {
      r := Err(InvalidFrameType(typ));
    }
  }

  /** `Frame::decode`: reads frames until the input ends, pushing each onto `f`. */
  method Decode(buf: seq<u8>) returns (r: Result<seq<Frame>, FrameError>)
    ensures r == ParseFrames(buf)
  {
    var f: seq<Frame> := [];
    var pos := 0;
    assert buf[pos..] == buf;
    PrependNothing(ParseFrames(buf));
    while pos < |buf|
      invariant 0 <= pos <= |buf|
      invariant ParseFrames(buf) == Prepend(f, ParseFrames(buf[pos..]))
      decreases |buf| - pos
    {
      var step := DecodeOne(buf, pos);
      match step {
        case Err(e) =>
          ParseFramesError(buf[pos..], e);
          return Err(e);
        case Ok(st) =>
          ParseFramesStep(buf[pos..], st.frame, st.size);
          assert buf[pos..][st.size..] == buf[pos + st.size..];
          PrependTwice(f, FrameList(st.frame), ParseFrames(buf[pos + st.size..]));
          f := f + FrameList(st.frame);
          pos := pos + st.size;
      }
    }
    assert buf[pos..] == [];
    assert f + [] == f;
    r := Ok(f);
  }
}
