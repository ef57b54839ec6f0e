/**
 * What the frame encoder and decoder promise of each other: every encoded
 * frame is `Len` bytes long, and a concatenation of encoded frames, with or
 * without padding, decodes to the same frames in the same order, with Ack
 * frames normalised the way the encoder writes them.
 */
module FrameProperties {
  import opened Bytes
  import opened Wrappers
  import opened Frames

  /**
   * The frame the decoder gives back for an encoded `f`: an Ack comes back
   * with its delay truncated to 16 bits and its acknowledgements sorted;
   * every other frame comes back unchanged.
   */
  function Normalize(f: Frame): (r: Frame)
    ensures !f.Ack? ==> r == f
    ensures f.Ack? ==> r.Ack? && r.delay == f.delay % 0x1_0000 && r.delay < 0x1_0000
    ensures f.Ack? ==> |r.acked| == |f.acked|
  {
    match f
    case Ack(delay, acked) => Ack(delay % 0x1_0000, SortAsc(acked))
    case _ => f
  }

  /**
   * Normalising an Ack sorts its acknowledgements and keeps every one of
   * them, each as often as it occurs.
   */
  lemma {:induction false} NormalizeAck(f: Frame)
    requires f.Ack?
    ensures SortedAsc(Normalize(f).acked)
    ensures multiset(Normalize(f).acked) == multiset(f.acked)
  {
    SortAscSorted(f.acked);
    SortAscPermutes(f.acked);
  }

  predicate AllEncodable(fs: seq<Frame>)
  {
    forall i :: 0 <= i < |fs| ==> Encodable(fs[i])
  }

  /** Frames written back to back, as successive `Frame::encode` calls on one buffer write them. */
  function EncodeAll(fs: seq<Frame>): (r: seq<u8>)
    requires AllEncodable(fs)
  {
    if fs == [] then [] else FrameBytes(fs[0]) + EncodeAll(fs[1..])
  }

  function NormalizeAll(fs: seq<Frame>): (r: seq<Frame>)
    ensures |r| == |fs|
    ensures forall i :: 0 <= i < |fs| ==> r[i] == Normalize(fs[i])
  {
    if fs == [] then [] else [Normalize(fs[0])] + NormalizeAll(fs[1..])
  }

  function Zeros(k: nat): (r: seq<u8>)
    ensures |r| == k && forall i :: 0 <= i < k ==> r[i] == 0
  {
    seq(k, i => 0)
  }

  /** Reading `|a|` numbers back from their encoding gives `a`, whatever follows. */
  lemma {:induction false} ReadU64sOfBytes(a: seq<u64>, rest: seq<u8>)
    ensures ReadU64s(U64sBytes(a) + rest, |a|) == a
  {
    if a != [] {
      Pow256Widths();
      var p, x := a[..|a| - 1], a[|a| - 1];
      var b := BigEndian(x, 8);
      var s := U64sBytes(p) + (b + rest);
      assert U64sBytes(a) == U64sBytes(p) + b;
      SliceMiddle(U64sBytes(p), b, rest);
      assert ReadU64s(s, |p|) == p by { ReadU64sOfBytes(p, b + rest); }
      assert FromBigEndian(s[8 * |p| .. 8 * |a|]) == x by { FromBigEndianOfBigEndian(x, 8); }
      assert a == p + [x];
    }
  }

  /** The two Config flag bits. */
  lemma {:induction false} ConfigFlagBits(timeout: Option<u16>, sleeping: bool)
    ensures TimeoutFlag(ConfigFlags(timeout, sleeping)) <==> timeout.Some?
    ensures SleepingFlag(ConfigFlags(timeout, sleeping)) <==> sleeping
  {
  }

  /** The first byte of every encoding names its kind; none is a padding byte or an unknown type. */
  lemma {:induction false} TypeByte(f: Frame)
    requires Encodable(f)
    ensures 0x01 <= FrameBytes(f)[0] <= 0x07
    ensures IsPing(f) <==> FrameBytes(f)[0] == 0x02
    ensures IsAck(f) <==> FrameBytes(f)[0] == 0x01
  {
  }

  /** `Frame::order` reads the same position the encoding carries at bytes 5..13. */
  lemma {:induction false} OrderOnWire(f: Frame)
    requires Encodable(f) && Ordered(f) && !f.Header?
    ensures FromBigEndian(FrameBytes(f)[5..13]) == Order(f)
  {
    Pow256Widths();
    assert FrameBytes(f)[5..13] == BigEndian(f.order, 8);
    FromBigEndianOfBigEndian(f.order, 8);
  }

  /** Decoding one encoded frame, whatever follows it, reads `Len(f)` bytes and gives `Normalize(f)`. */
  lemma {:induction false} ParseOneEncoded(f: Frame, rest: seq<u8>)
    requires Encodable(f)
    ensures ParseOne(FrameBytes(f) + rest) == Ok(Step(Some(Normalize(f)), Len(f)))
  {
    var s := FrameBytes(f) + rest;
    assert s[0] == FrameBytes(f)[0];
    TypeByteOf(f);
    Dispatch(s);
    match f
    case Header(stream, payload) => HeaderEncoded(stream, payload, rest);
    case Stream(stream, order, payload) => StreamEncoded(stream, order, payload, rest);
    case Ack(delay, acked) => AckEncoded(delay, acked, rest);
    case Ping =>
    case Disconnect =>
    case Close(stream, order) => CloseEncoded(stream, order, rest);
    case Config(timeout, sleeping) => ConfigEncoded(timeout, sleeping, rest);
  }

  /** The type byte each kind of frame is written with. */
  function TypeOf(f: Frame): (r: u8)
    ensures 0x01 <= r <= 0x07
  {
    match f
    case Ack(_, _) => 0x01
    case Ping => 0x02
    case Disconnect => 0x03
    case Header(_, _) => 0x04
    case Stream(_, _, _) => 0x05
    case Close(_, _) => 0x06
    case Config(_, _) => 0x07
  }

  lemma {:induction false} TypeByteOf(f: Frame)
    requires Encodable(f)
    ensures FrameBytes(f)[0] == TypeOf(f)
  {
  }

  /** Which per-kind reader `ParseOne` hands each type byte to. */
  lemma {:induction false} Dispatch(s: seq<u8>)
    requires |s| > 0
    ensures s[0] == 0x01 ==> ParseOne(s) == ParseAck(s)
    ensures s[0] == 0x02 ==> ParseOne(s) == Ok(Step(Some(Ping), 1))
    ensures s[0] == 0x03 ==> ParseOne(s) == Ok(Step(Some(Disconnect), 1))
    ensures s[0] == 0x04 ==> ParseOne(s) == ParseHeader(s)
    ensures s[0] == 0x05 ==> ParseOne(s) == ParseStream(s)
    ensures s[0] == 0x06 ==> ParseOne(s) == ParseClose(s)
    ensures s[0] == 0x07 ==> ParseOne(s) == ParseConfig(s)
  {
  }

  lemma {:induction false} HeaderEncoded(stream: u32, payload: seq<u8>, rest: seq<u8>)
    requires Encodable(Header(stream, payload))
    ensures ParseHeader(FrameBytes(Header(stream, payload)) + rest)
      == Ok(Step(Some(Header(stream, payload)), 7 + |payload|))
  {
    Pow256Widths();
    var s := FrameBytes(Header(stream, payload)) + rest;
    assert s[1..5] == BigEndian(stream, 4);
    assert s[5..7] == BigEndian(|payload|, 2);
    assert s[7..7 + |payload|] == payload;
    FromBigEndianOfBigEndian(stream, 4);
    FromBigEndianOfBigEndian(|payload|, 2);
  }

  lemma {:induction false} StreamEncoded(stream: u32, order: u64, payload: seq<u8>, rest: seq<u8>)
    requires Encodable(Stream(stream, order, payload))
    ensures ParseStream(FrameBytes(Stream(stream, order, payload)) + rest)
      == Ok(Step(Some(Stream(stream, order, payload)), 15 + |payload|))
  {
    Pow256Widths();
    var s := FrameBytes(Stream(stream, order, payload)) + rest;
    assert s[1..5] == BigEndian(stream, 4);
    assert s[5..13] == BigEndian(order, 8);
    assert s[13..15] == BigEndian(|payload|, 2);
    assert s[15..15 + |payload|] == payload;
    FromBigEndianOfBigEndian(stream, 4);
    FromBigEndianOfBigEndian(order, 8);
    FromBigEndianOfBigEndian(|payload|, 2);
  }

  lemma {:induction false} AckEncoded(delay: u64, acked: seq<u64>, rest: seq<u8>)
    requires Encodable(Ack(delay, acked))
    ensures ParseAck(FrameBytes(Ack(delay, acked)) + rest)
      == Ok(Step(Some(Ack(delay % 0x1_0000, SortAsc(acked))), 5 + 8 * |acked|))
  {
    AckEncodedSorted(delay, acked, rest, SortAsc(acked));
  }

  lemma {:induction false} AckEncodedSorted(delay: u64, acked: seq<u64>, rest: seq<u8>, sorted: seq<u64>)
    requires Encodable(Ack(delay, acked)) && sorted == SortAsc(acked)
    ensures ParseAck(FrameBytes(Ack(delay, acked)) + rest)
      == Ok(Step(Some(Ack(delay % 0x1_0000, sorted)), 5 + 8 * |acked|))
  {
    AckBytes(delay, acked);
    AckParsedAs(FrameBytes(Ack(delay, acked)), delay % 0x1_0000, sorted, rest);
  }

  lemma {:induction false} AckParsedAs(b: seq<u8>, delay: u16, acked: seq<u64>, rest: seq<u8>)
    requires |acked| < 0xffff / 8
    requires Pow256(2) == 0x1_0000
    requires b == [0x01] + BigEndian(delay, 2) + BigEndian(|acked|, 2) + U64sBytes(acked)
    ensures ParseAck(b + rest) == Ok(Step(Some(Ack(delay, acked)), 5 + 8 * |acked|))
  {
    AckParsed(delay, acked, rest);
  }

  lemma {:induction false} AckBytes(delay: u64, acked: seq<u64>)
    requires Encodable(Ack(delay, acked))
    ensures Pow256(2) == 0x1_0000
    ensures FrameBytes(Ack(delay, acked))
      == [0x01] + BigEndian(delay % 0x1_0000, 2) + BigEndian(|acked|, 2) + U64sBytes(SortAsc(acked))
  {
    Pow256Widths();
  }

  /** An Ack laid out field by field parses back, in the order its acknowledgements are written. */
  lemma {:induction false} AckParsed(delay: u16, acked: seq<u64>, rest: seq<u8>)
    requires |acked| < 0xffff / 8
    ensures Pow256(2) == 0x1_0000
    ensures ParseAck([0x01] + BigEndian(delay, 2) + BigEndian(|acked|, 2) + U64sBytes(acked) + rest)
      == Ok(Step(Some(Ack(delay, acked)), 5 + 8 * |acked|))
  {
    Pow256Widths();
    var s := [0x01] + BigEndian(delay, 2) + BigEndian(|acked|, 2) + U64sBytes(acked) + rest;
    AckLayout(delay, acked, rest);
    assert FromBigEndian(s[1..3]) == delay by { FromBigEndianOfBigEndian(delay, 2); }
    assert FromBigEndian(s[3..5]) == |acked| by { FromBigEndianOfBigEndian(|acked|, 2); }
    assert ReadU64s(s[5..], |acked|) == acked by { ReadU64sOfBytes(acked, rest); }
    ParseAckOk(s, delay, acked);
  }

  lemma {:induction false} ParseAckOk(s: seq<u8>, delay: u64, acked: seq<u64>)
    requires |s| >= 5 + 8 * |acked|
    requires FromBigEndian(s[1..3]) == delay && FromBigEndian(s[3..5]) == |acked|
    requires ReadU64s(s[5..], |acked|) == acked
    ensures ParseAck(s) == Ok(Step(Some(Ack(delay, acked)), 5 + 8 * |acked|))
  {
  }

  /** Where the fields of an encoded Ack lie. */
  lemma {:induction false} AckLayout(delay: u16, sorted: seq<u64>, rest: seq<u8>)
    requires |sorted| < 0xffff / 8
    ensures Pow256(2) == 0x1_0000
    ensures var s := [0x01] + BigEndian(delay, 2) + BigEndian(|sorted|, 2) + U64sBytes(sorted) + rest;
      && s[1..3] == BigEndian(delay, 2)
      && s[3..5] == BigEndian(|sorted|, 2)
      && s[5..] == U64sBytes(sorted) + rest
  {
    Pow256Widths();
    FieldsAt([0x01], BigEndian(delay, 2), BigEndian(|sorted|, 2), U64sBytes(sorted), rest);
  }

  lemma {:induction false} FieldsAt(t: seq<u8>, d: seq<u8>, c: seq<u8>, body: seq<u8>, rest: seq<u8>)
    requires |t| == 1 && |d| == 2 && |c| == 2
    ensures var s := t + d + c + body + rest;
      s[1..3] == d && s[3..5] == c && s[5..] == body + rest
  {
    var s := t + d + c + body + rest;
    assert s == t + d + c + (body + rest);
  }

  lemma {:induction false} CloseEncoded(stream: u32, order: u64, rest: seq<u8>)
    ensures ParseClose(FrameBytes(Close(stream, order)) + rest) == Ok(Step(Some(Close(stream, order)), 13))
  {
    Pow256Widths();
    var s := FrameBytes(Close(stream, order)) + rest;
    assert s[1..5] == BigEndian(stream, 4);
    assert s[5..13] == BigEndian(order, 8);
    FromBigEndianOfBigEndian(stream, 4);
    FromBigEndianOfBigEndian(order, 8);
  }

  lemma {:induction false} ConfigEncoded(timeout: Option<u16>, sleeping: bool, rest: seq<u8>)
    ensures ParseConfig(FrameBytes(Config(timeout, sleeping)) + rest)
      == Ok(Step(Some(Config(timeout, sleeping)), Len(Config(timeout, sleeping))))
  {
    Pow256Widths();
    var s := FrameBytes(Config(timeout, sleeping)) + rest;
    var datalen := if timeout.Some? then 2 else 0;
    ConfigFlagBits(timeout, sleeping);
    assert s[1] == ConfigFlags(timeout, sleeping);
    assert s[2..4] == BigEndian(datalen, 2);
    FromBigEndianOfBigEndian(datalen, 2);
    if timeout.Some? {
      assert s[4..6] == BigEndian(timeout.value, 2);
      FromBigEndianOfBigEndian(timeout.value, 2);
    }
  }

  /**
   * Decoding stops only at the end of the input: encoded frames followed by
   * anything decode to those frames, in order, followed by whatever the rest
   * decodes to (or the rest's error).
   */
  lemma {:induction false} ParseFramesAppend(fs: seq<Frame>, tail: seq<u8>)
    requires AllEncodable(fs)
    ensures ParseFrames(EncodeAll(fs) + tail) == Prepend(NormalizeAll(fs), ParseFrames(tail))
  {
    if fs == [] {
      assert EncodeAll(fs) + tail == tail;
      PrependNothing(ParseFrames(tail));
    } else {
      var rest := EncodeAll(fs[1..]) + tail;
      ParseFramesHead(fs, tail);
      assert ParseFrames(rest) == Prepend(NormalizeAll(fs[1..]), ParseFrames(tail)) by {
        ParseFramesAppend(fs[1..], tail);
      }
      PrependTwice([Normalize(fs[0])], NormalizeAll(fs[1..]), ParseFrames(tail));
      assert [Normalize(fs[0])] + NormalizeAll(fs[1..]) == NormalizeAll(fs);
    }
  }

  /** The first encoded frame is read back whole, and decoding resumes right after it. */
  lemma {:induction false} ParseFramesHead(fs: seq<Frame>, tail: seq<u8>)
    requires fs != [] && AllEncodable(fs)
    ensures ParseFrames(EncodeAll(fs) + tail)
      == Prepend([Normalize(fs[0])], ParseFrames(EncodeAll(fs[1..]) + tail))
  {
    var rest := EncodeAll(fs[1..]) + tail;
    assert EncodeAll(fs) + tail == FrameBytes(fs[0]) + rest;
    ParseFramesFrame(fs[0], rest);
  }

  /** A frame's encoding in front of `rest` decodes to its normal form, then to what `rest` decodes to. */
  lemma {:induction false} ParseFramesFrame(f: Frame, rest: seq<u8>)
    requires Encodable(f)
    ensures ParseFrames(FrameBytes(f) + rest) == Prepend([Normalize(f)], ParseFrames(rest))
  {
    var s := FrameBytes(f) + rest;
    ParseOneEncoded(f, rest);
    assert s[Len(f)..] == rest;
    ParseFramesStep(s, Some(Normalize(f)), Len(f));
  }

  /** The round trip: encoded frames decode to their normal forms, in order. */
  lemma {:induction false} DecodeEncodeAll(fs: seq<Frame>)
    requires AllEncodable(fs)
    ensures ParseFrames(EncodeAll(fs)) == Ok(NormalizeAll(fs))
  {
    ParseFramesAppend(fs, []);
    assert EncodeAll(fs) + [] == EncodeAll(fs);
    assert NormalizeAll(fs) + [] == NormalizeAll(fs);
  }

  /** Frames other than Ack, and Acks already in normal form, survive the round trip exactly. */
  lemma {:induction false} DecodeEncodeExact(fs: seq<Frame>)
    requires AllEncodable(fs)
    requires forall i :: 0 <= i < |fs| ==> Normalize(fs[i]) == fs[i]
    ensures ParseFrames(EncodeAll(fs)) == Ok(fs)
  {
    DecodeEncodeAll(fs);
    assert NormalizeAll(fs) == fs;
  }

  /** An Ack is in normal form exactly when its delay fits 16 bits and its list is sorted. */
  lemma {:induction false} AckNormalForm(delay: u64, acked: seq<u64>)
    ensures Normalize(Ack(delay, acked)) == Ack(delay, acked) <==> delay < 0x1_0000 && SortedAsc(acked)
  {
    SortAscSorted(acked);
    if delay < 0x1_0000 && SortedAsc(acked) {
      SortAscPermutes(acked);
      SortedUnique(SortAsc(acked), acked);
    }
  }

  /** Two sorted sequences with the same elements are equal. */
  lemma {:induction false} SortedUnique(a: seq<u64>, b: seq<u64>)
    requires SortedAsc(a) && SortedAsc(b) && multiset(a) == multiset(b)
    ensures a == b
    decreases |a|
  {
    if a == [] {
      assert |b| == |multiset(b)| == 0;
    } else {
      assert a[0] in multiset(b);
      SortedHeadsEqual(a, b);
      TailMultisets(a, b);
      SortedUnique(a[1..], b[1..]);
      assert a == [a[0]] + a[1..];
      assert b == [b[0]] + b[1..];
    }
  }

  lemma {:induction false} SortedHeadsEqual(a: seq<u64>, b: seq<u64>)
    requires a != [] && b != []
    requires SortedAsc(a) && SortedAsc(b) && multiset(a) == multiset(b)
    ensures a[0] == b[0]
  {
    assert a[0] in multiset(b);
    assert b[0] in multiset(a);
    var i :| 0 <= i < |b| && b[i] == a[0];
    var j :| 0 <= j < |a| && a[j] == b[0];
    assert b[0] <= b[i] && a[0] <= a[j];
  }

  lemma {:induction false} TailMultisets(a: seq<u64>, b: seq<u64>)
    requires a != [] && b != [] && a[0] == b[0] && multiset(a) == multiset(b)
    ensures multiset(a[1..]) == multiset(b[1..])
  {
    assert a == [a[0]] + a[1..];
    assert b == [b[0]] + b[1..];
    forall x
      ensures multiset(a[1..])[x] == multiset(b[1..])[x]
    {
      assert multiset(a)[x] == multiset([a[0]])[x] + multiset(a[1..])[x];
      assert multiset(b)[x] == multiset([b[0]])[x] + multiset(b[1..])[x];
    }
  }

  /** Padding bytes are skipped. */
  lemma {:induction false} PaddingSkipped(k: nat, tail: seq<u8>)
    ensures ParseFrames(Zeros(k) + tail) == ParseFrames(tail)
  {
    if k > 0 {
      var s := Zeros(k) + tail;
      assert s[0] == 0;
      assert ParseOne(s) == Ok(Step(None, 1));
      assert s[1..] == Zeros(k - 1) + tail;
      assert ParseFrames(s) == Prepend(FrameList(None), ParseFrames(s[1..]));
      assert FrameList(None) == [];
      PaddingSkipped(k - 1, tail);
      PrependNothing(ParseFrames(s[1..]));
      assert ParseFrames(s) == ParseFrames(s[1..]);
    } else {
      assert Zeros(k) + tail == tail;
    }
  }

  /** A type byte of 0x08 or above after any whole frames makes the decoder fail, frames read so far are lost. */
  lemma {:induction false} InvalidTypeRejected(fs: seq<Frame>, t: u8, rest: seq<u8>)
    requires AllEncodable(fs) && t >= 0x08
    ensures ParseFrames(EncodeAll(fs) + ([t] + rest)) == Err(InvalidFrameType(t))
  {
    ParseFramesAppend(fs, [t] + rest);
  }

  /** A frame cut short anywhere after its type byte makes the decoder fail. */
  lemma {:induction false} TruncatedRejected(fs: seq<Frame>, g: Frame, k: nat)
    requires AllEncodable(fs) && Encodable(g)
    requires 0 < k < Len(g)
    ensures ParseFrames(EncodeAll(fs) + FrameBytes(g)[..k]) == Err(Truncated)
  {
    ParseFramesAppend(fs, FrameBytes(g)[..k]);
    TruncatedOne(g, k);
  }

  lemma {:induction false} TruncatedOne(g: Frame, k: nat)
    requires Encodable(g)
    requires 0 < k < Len(g)
    ensures ParseOne(FrameBytes(g)[..k]) == Err(Truncated)
  {
    var p := FrameBytes(g)[..k];
    TypeByteOf(g);
    assert p[0] == TypeOf(g);
    Dispatch(p);
    match g
    case Header(stream, payload) => TruncatedHeader(stream, payload, k);
    case Stream(stream, order, payload) => TruncatedStream(stream, order, payload, k);
    case Ack(delay, acked) => TruncatedAck(delay, acked, k);
    case Close(stream, order) => TruncatedClose(stream, order, k);
    case Config(timeout, sleeping) => TruncatedConfig(timeout, sleeping, k);
  }

  lemma {:induction false} TruncatedHeader(stream: u32, payload: seq<u8>, k: nat)
    requires Encodable(Header(stream, payload)) && 0 < k < Len(Header(stream, payload))
    ensures ParseHeader(FrameBytes(Header(stream, payload))[..k]) == Err(Truncated)
  {
    Pow256Widths();
    var p := FrameBytes(Header(stream, payload))[..k];
    if k >= 7 {
      assert p[5..7] == BigEndian(|payload|, 2);
      FromBigEndianOfBigEndian(|payload|, 2);
    }
  }

  lemma {:induction false} TruncatedStream(stream: u32, order: u64, payload: seq<u8>, k: nat)
    requires Encodable(Stream(stream, order, payload)) && 0 < k < Len(Stream(stream, order, payload))
    ensures ParseStream(FrameBytes(Stream(stream, order, payload))[..k]) == Err(Truncated)
  {
    Pow256Widths();
    var p := FrameBytes(Stream(stream, order, payload))[..k];
    if k >= 15 {
      assert p[13..15] == BigEndian(|payload|, 2);
      FromBigEndianOfBigEndian(|payload|, 2);
    }
  }

  lemma {:induction false} TruncatedAck(delay: u64, acked: seq<u64>, k: nat)
    requires Encodable(Ack(delay, acked)) && 0 < k < Len(Ack(delay, acked))
    ensures ParseAck(FrameBytes(Ack(delay, acked))[..k]) == Err(Truncated)
  {
    Pow256Widths();
    var p := FrameBytes(Ack(delay, acked))[..k];
    if k >= 5 {
      assert p[3..5] == BigEndian(|acked|, 2);
      FromBigEndianOfBigEndian(|acked|, 2);
    }
  }

  lemma {:induction false} TruncatedClose(stream: u32, order: u64, k: nat)
    requires 0 < k < Len(Close(stream, order))
    ensures ParseClose(FrameBytes(Close(stream, order))[..k]) == Err(Truncated)
  {
  }

  lemma {:induction false} TruncatedConfig(timeout: Option<u16>, sleeping: bool, k: nat)
    requires 0 < k < Len(Config(timeout, sleeping))
    ensures ParseConfig(FrameBytes(Config(timeout, sleeping))[..k]) == Err(Truncated)
  {
    Pow256Widths();
    var b := FrameBytes(Config(timeout, sleeping));
    var p := b[..k];
    if k >= 4 {
      assert timeout.Some?;
      var head: seq<u8> := [0x07, ConfigFlags(timeout, sleeping)];
      assert b == head + BigEndian(2, 2) + BigEndian(timeout.value, 2);
      assert p[2..4] == b[2..4] == BigEndian(2, 2);
      FromBigEndianOfBigEndian(2, 2);
    }
  }

  /** The bytes pinned by the unit test `config_frames`. */
  lemma {:induction false} ConfigFrameVectors()
    ensures FrameBytes(Config(None, false)) == [0x07, 0x00, 0x00, 0x00]
    ensures FrameBytes(Config(Some(1292), true)) == [0x07, 0xc0, 0, 2, 5, 12]
    ensures ParseFrames([0x07, 0x00, 0x00, 0x00]) == Ok([Config(None, false)])
    ensures ParseFrames([0x07, 0xc0, 0, 2, 5, 12]) == Ok([Config(Some(1292), true)])
  {
    ConfigVectorBytes();
    ConfigVector(None, false, [0x07, 0x00, 0x00, 0x00]);
    ConfigVector(Some(1292), true, [0x07, 0xc0, 0, 2, 5, 12]);
  }

  lemma {:induction false} ConfigVectorBytes()
    ensures FrameBytes(Config(None, false)) == [0x07, 0x00, 0x00, 0x00]
    ensures FrameBytes(Config(Some(1292), true)) == [0x07, 0xc0, 0, 2, 5, 12]
  {
    Pow256Widths();
    assert BigEndian(0, 2) == [0, 0];
    assert BigEndian(2, 2) == [0, 2];
    assert BigEndian(1292, 2) == [5, 12];
  }

  lemma {:induction false} ConfigVector(timeout: Option<u16>, sleeping: bool, b: seq<u8>)
    requires FrameBytes(Config(timeout, sleeping)) == b
    ensures ParseFrames(b) == Ok([Config(timeout, sleeping)])
  {
    var fs := [Config(timeout, sleeping)];
    assert fs[1..] == [];
    assert EncodeAll(fs) == b + [] == b;
    DecodeEncodeExact(fs);
  }

  /** The Stream frame of the unit test `encode_frame`. */
  lemma {:induction false} EncodeStreamVector()
    ensures FrameBytes(Stream(0x63, 0x1223, [0x68, 0x65, 0x6c, 0x6c, 0x6f]))
      == [0x05, 0x00, 0x00, 0x00, 0x63, 0x00, 0x00, 0x00, 0x00, 0x00, 0x00, 0x12, 0x23, 0x00,
          0x05, 0x68, 0x65, 0x6c, 0x6c, 0x6f]
  {
    Pow256Widths();
    BigEndianVectors();
  }

  /** The Ack frame of the unit test `encode_frame`: 13 bytes, with a 16-bit delay of 1. */
  lemma {:induction false} EncodeAckVector()
    ensures Len(Ack(0x01, [0x872])) == 1 + 2 + 2 + 8
    ensures FrameBytes(Ack(0x01, [0x872]))
      == [0x01] + [0x00, 0x01] + [0x00, 0x01] + [0x00, 0x00, 0x00, 0x00, 0x00, 0x00, 0x08, 0x72]
  {
    EncodeAckVectorFields();
    AckBytes(1, [0x872]);
  }

  lemma {:induction false} EncodeAckVectorFields()
    ensures Pow256(2) == 0x1_0000
    ensures SortAsc([0x872]) == [0x872]
    ensures U64sBytes([0x872]) == [0x00, 0x00, 0x00, 0x00, 0x00, 0x00, 0x08, 0x72]
    ensures BigEndian(1, 2) == [0x00, 0x01]
  {
    var acked: seq<u64> := [0x872];
    BigEndianVectors();
    assert acked[..0] == [];
  }

  /** The big-endian forms of the constants in the frame unit tests. */
  lemma {:induction false} BigEndianVectors()
    ensures Pow256(2) == 0x1_0000 && Pow256(4) == 0x1_0000_0000 && Pow256(8) == 0x1_0000_0000_0000_0000
    ensures BigEndian(0x63, 4) == [0, 0, 0, 0x63]
    ensures BigEndian(0x1223, 8) == [0, 0, 0, 0, 0, 0, 0x12, 0x23]
    ensures BigEndian(0x1224, 8) == [0, 0, 0, 0, 0, 0, 0x12, 0x24]
    ensures BigEndian(0x872, 8) == [0, 0, 0, 0, 0, 0, 0x08, 0x72]
    ensures BigEndian(5, 2) == [0, 5]
    ensures BigEndian(1, 2) == [0, 1]
    ensures BigEndian(2, 2) == [0, 2]
  {
    Pow256Widths();
    assert BigEndian(0x63, 4) == [0, 0, 0, 0x63] by { WideVector(0x63, 4); }
    assert BigEndian(0x1223, 8) == [0, 0, 0, 0, 0, 0, 0x12, 0x23] by { WideVector(0x1223, 8); }
    assert BigEndian(0x1224, 8) == [0, 0, 0, 0, 0, 0, 0x12, 0x24] by { WideVector(0x1224, 8); }
    assert BigEndian(0x872, 8) == [0, 0, 0, 0, 0, 0, 0x08, 0x72] by { WideVector(0x872, 8); }
    assert BigEndian(5, 2) == [0, 5] by { WideVector(5, 2); }
    assert BigEndian(1, 2) == [0, 1] by { WideVector(1, 2); }
    assert BigEndian(2, 2) == [0, 2] by { WideVector(2, 2); }
  }

  /** A number below 0x1_0000 written in `width` bytes: zeros, then its two low bytes. */
  lemma {:induction false} WideVector(x: nat, width: nat)
    requires 2 <= width && x < 0x1_0000
    ensures Pow256(width) >= 0x1_0000
    ensures BigEndian(x, width) == Zeros(width - 2) + [x / 256, x % 256]
  {
    if width == 2 {
      assert Pow256(2) == 0x1_0000 by { assert Pow256(1) == 256; }
      assert BigEndian(x / 256, 1) == BigEndian(0, 0) + [x / 256];
    } else {
      WideVector(x, width - 1);
      ZeroExtend(x, width - 1);
      assert Zeros(width - 2) == [0] + Zeros(width - 3);
    }
  }

  /**
   * The unit test `decode_frame`: three padding bytes, the Stream frame of
   * `encode_frame`, one padding byte, an Ack frame, three padding bytes.
   */
  lemma {:induction false} DecodeFrameVector()
    ensures ParseFrames(Zeros(3) + StreamVectorBytes() + Zeros(1) + AckVectorBytes() + Zeros(3))
      == Ok([Stream(0x63, 0x1223, [0x68, 0x65, 0x6c, 0x6c, 0x6f]), Ack(0x05, [0x1224, 0x1223])])
  {
    var af := Ack(0x05, [0x1224, 0x1223]);
    var at := AckVectorBytes() + Zeros(3);
    DecodeAckVector();
    PaddingSkipped(1, at);
    StreamThen(Zeros(1) + at, [af]);
    PaddedPair(StreamVectorBytes(), AckVectorBytes(), Stream(0x63, 0x1223, [0x68, 0x65, 0x6c, 0x6c, 0x6f]), af);
  }

  /** Leading padding in front of two frames, the second followed by padding of its own. */
  lemma {:induction false} PaddedPair(st: seq<u8>, ack: seq<u8>, sf: Frame, af: Frame)
    requires ParseFrames(st + (Zeros(1) + (ack + Zeros(3)))) == Ok([sf] + [af])
    ensures ParseFrames(Zeros(3) + st + Zeros(1) + ack + Zeros(3)) == Ok([sf, af])
  {
    PaddingSkipped(3, st + (Zeros(1) + (ack + Zeros(3))));
    Regroup(Zeros(3), st, Zeros(1), ack, Zeros(3));
    assert [sf] + [af] == [sf, af];
  }

  lemma {:induction false} Regroup(a: seq<u8>, b: seq<u8>, c: seq<u8>, d: seq<u8>, e: seq<u8>)
    ensures a + b + c + d + e == a + (b + (c + (d + e)))
  {
  }

  /** The encoded Stream frame of `encode_frame` followed by frames `gs` decodes to it and then `gs`. */
  lemma {:induction false} StreamThen(t: seq<u8>, gs: seq<Frame>)
    requires ParseFrames(t) == Ok(gs)
    ensures ParseFrames(StreamVectorBytes() + t)
      == Ok([Stream(0x63, 0x1223, [0x68, 0x65, 0x6c, 0x6c, 0x6f])] + gs)
  {
    var sf := Stream(0x63, 0x1223, [0x68, 0x65, 0x6c, 0x6c, 0x6f]);
    assert FrameBytes(sf) == StreamVectorBytes() by { EncodeStreamVector(); }
    assert Encodable(sf);
    assert ParseOne(FrameBytes(sf) + t) == Ok(Step(Some(sf), 20)) by { ParseOneEncoded(sf, t); }
    var s := StreamVectorBytes() + t;
    assert s[20..] == t;
    assert ParseFrames(s) == Prepend([sf], ParseFrames(t));
  }

  function StreamVectorBytes(): seq<u8>
  {
    [0x05, 0x00, 0x00, 0x00, 0x63, 0x00, 0x00, 0x00, 0x00, 0x00, 0x00, 0x12,
     0x23, 0x00, 0x05, 0x68, 0x65, 0x6c, 0x6c, 0x6f]
  }

  /** Type, delay 5, count 2, then 0x1224 and 0x1223. */
  function AckVectorBytes(): seq<u8>
  {
    [0x01] + [0x00, 0x05] + [0x00, 0x02]
      + [0x00, 0x00, 0x00, 0x00, 0x00, 0x00, 0x12, 0x24]
      + [0x00, 0x00, 0x00, 0x00, 0x00, 0x00, 0x12, 0x23]
  }

  /**
   * The Ack frame of `decode_frame` lists its acknowledgements out of order;
   * the decoder keeps them in wire order. Trailing padding is skipped.
   */
  lemma {:induction false} DecodeAckVector()
    ensures ParseFrames(AckVectorBytes() + Zeros(3)) == Ok([Ack(0x05, [0x1224, 0x1223])])
  {
    var at := AckVectorBytes() + Zeros(3);
    var af := Ack(0x05, [0x1224, 0x1223]);
    assert ParseOne(at) == Ok(Step(Some(af), 21)) by { AckVectorFields(); }
    assert at[21..] == Zeros(3) + [];
    assert ParseFrames(Zeros(3)) == Ok([]) by { PaddingSkipped(3, []); }
    assert [af] + [] == [af];
  }

  lemma {:induction false} AckVectorFields()
    ensures ParseAck(AckVectorBytes() + Zeros(3)) == Ok(Step(Some(Ack(0x05, [0x1224, 0x1223])), 21))
  {
    AckVectorLayout();
    AckParsed(5, [0x1224, 0x1223], Zeros(3));
  }

  lemma {:induction false} AckVectorLayout()
    ensures Pow256(2) == 0x1_0000
    ensures AckVectorBytes() == [0x01] + BigEndian(5, 2) + BigEndian(2, 2) + U64sBytes([0x1224, 0x1223])
  {
    Pow256Widths();
    var a1: seq<u8> := [0, 0, 0, 0, 0, 0, 0x12, 0x24];
    var a2: seq<u8> := [0, 0, 0, 0, 0, 0, 0x12, 0x23];
    assert U64sBytes([0x1224, 0x1223]) == a1 + a2 by {
      BigEndianVectors();
      U64sPair(0x1224, 0x1223);
    }
    assert BigEndian(5, 2) == [0, 5] && BigEndian(2, 2) == [0, 2] by { BigEndianVectors(); }
    var h: seq<u8> := [0x01] + [0x00, 0x05] + [0x00, 0x02];
    assert h + a1 + a2 == h + (a1 + a2);
  }

  lemma {:induction false} U64sPair(x: u64, y: u64)
    ensures Pow256(8) == 0x1_0000_0000_0000_0000
    ensures U64sBytes([x, y]) == BigEndian(x, 8) + BigEndian(y, 8)
  {
    Pow256Widths();
    assert [x, y][..1] == [x];
    assert [x][..0] == [];
    assert U64sBytes([x]) == U64sBytes([]) + BigEndian(x, 8);
  }
}
