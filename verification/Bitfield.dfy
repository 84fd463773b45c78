/**
 The run-length code. Maximal runs of 0x00 or 0xFF become one integer each; what lies between them is copied behind its
 length. Decoding reads the buffer twice: once for the length of the result, once to fill it.
 */
module Bitfield {
  import opened Frames
  import opened Varint

  datatype Segment =
    | Run(bits: byte, len: nat)
    | Literal(bytes: seq<byte>)

  datatype Decoded<+T> =
    | Ok(value: T)
    | InvalidRLEBitfield(offset: nat, len: nat)
    | Truncated  // the buffer ends inside an integer: the integer decoder panics

  predicate Uniform(b: byte) {
    b == 0 || b == 255
  }

  // ---------------------------------------------------------------------------------------------
  // Encoding
  // ---------------------------------------------------------------------------------------------

  /** Length of the run b starts with. */
  function RunLength(b: seq<byte>): (k: nat)
    requires b != []
    ensures 0 < k <= |b|
    ensures forall i | 0 <= i < k :: b[i] == b[0]
    ensures k < |b| ==> b[k] != b[0]
  {
    if |b| == 1 || b[1] != b[0] then 1 else 1 + RunLength(b[1..])
  }

  /** Length of the stretch of b before its first 0x00 or 0xFF. */
  function LiteralLength(b: seq<byte>): (k: nat)
    ensures k <= |b|
    ensures forall i | 0 <= i < k :: !Uniform(b[i])
    ensures k < |b| ==> Uniform(b[k])
  {
    if b == [] || Uniform(b[0]) then 0 else 1 + LiteralLength(b[1..])
  }

  function Segments(b: seq<byte>): seq<Segment>
    decreases |b|
  {
    if b == [] then []
    else if Uniform(b[0]) then [Run(b[0], RunLength(b))] + Segments(b[RunLength(b)..])
    else [Literal(b[..LiteralLength(b)])] + Segments(b[LiteralLength(b)..])
  }

  function Header(s: Segment): nat {
    match s
    case Run(bits, len) => 4 * len + 1 + (if bits == 255 then 2 else 0)
    case Literal(bytes) => 2 * |bytes|
  }

  function Print(s: Segment): seq<byte> {
    Varint.Encode(Header(s)) + (if s.Literal? then s.bytes else [])
  }

  function PrintAll(segments: seq<Segment>): seq<byte> {
    if segments == [] then [] else Print(segments[0]) + PrintAll(segments[1..])
  }

  /** Nothing at all is written as an empty literal. */
  function Encode(b: seq<byte>): seq<byte> {
    if b == [] then Print(Literal([])) else PrintAll(Segments(b))
  }

  function Expand(s: Segment): seq<byte> {
    match s
    case Run(bits, len) => Repeat(len, bits)
    case Literal(bytes) => bytes
  }

  function ExpandAll(segments: seq<Segment>): seq<byte> {
    if segments == [] then [] else Expand(segments[0]) + ExpandAll(segments[1..])
  }

  /** Splitting into segments loses nothing. */
  lemma {:induction false} SegmentsExpand(b: seq<byte>)
    ensures ExpandAll(Segments(b)) == b
    decreases |b|
  {
    hide Expand, Segments;
    if b == [] {
      NoSegments();
    } else {
      var k := FirstSegment(b);
      SegmentsExpand(b[k..]);
      assert b == b[..k] + b[k..];
    }
  }

  lemma NoSegments()
    ensures Segments([]) == []
  {
  }

  lemma FirstSegment(b: seq<byte>) returns (k: nat)
    requires b != []
    ensures 0 < k <= |b| && 0 < |Segments(b)|
    ensures Expand(Segments(b)[0]) == b[..k] && Segments(b)[1..] == Segments(b[k..])
  {
    k := if Uniform(b[0]) then RunLength(b) else LiteralLength(b);
  }

  // ---------------------------------------------------------------------------------------------
  // Decoding
  // ---------------------------------------------------------------------------------------------

  /** What an integer announces: a run when odd, filled with 0xFF when its second bit is set; a literal when even. */
  function SliceLength(next: nat): nat {
    if next % 2 == 1 then next / 4 else next / 2
  }

  function AfterSlice(next: nat, offset: nat): nat {
    if next % 2 == 1 then offset else offset + next / 2
  }

  /** The first pass: the length of the result, provided the last literal ends with the buffer. */
  function DecodeLen(buf: seq<byte>, offset: nat): Decoded<nat>
    decreases |buf| - offset
  {
    if |buf| < offset then InvalidRLEBitfield(offset, |buf|)
    else if offset == |buf| then Ok(0)
    else
      match Varint.Decode(buf, offset)
      case None => Truncated
      case Some((next, behind)) =>
        match DecodeLen(buf, AfterSlice(next, behind))
        case Ok(n) => Ok(SliceLength(next) + n)
        case e => e
  }

  /** The bytes one integer stands for, read from behind it. */
  function Slice(buf: seq<byte>, next: nat, behind: nat): (r: seq<byte>)
    requires AfterSlice(next, behind) <= |buf|
    ensures |r| == SliceLength(next)
  {
    if next % 2 == 1 then Repeat(next / 4, if next / 2 % 2 == 1 then 255 else 0) else buf[behind..behind + next / 2]
  }

  /** The second pass, on a buffer the first one accepts. */
  function DecodeFrom(buf: seq<byte>, offset: nat): (r: seq<byte>)
    requires DecodeLen(buf, offset).Ok?
    ensures |r| == DecodeLen(buf, offset).value
    decreases |buf| - offset
  {
    if offset == |buf| then []
    else
      var (next, behind) := Varint.Decode(buf, offset).value;
      AcceptedInBounds(buf, AfterSlice(next, behind));
      Slice(buf, next, behind) + DecodeFrom(buf, AfterSlice(next, behind))
  }

  lemma AcceptedInBounds(buf: seq<byte>, offset: nat)
    requires DecodeLen(buf, offset).Ok?
    ensures offset <= |buf|
  {
  }

  function Decode(buf: seq<byte>): Decoded<seq<byte>> {
    match DecodeLen(buf, 0)
    case Ok(_) => Ok(DecodeFrom(buf, 0))
    case InvalidRLEBitfield(offset, len) => InvalidRLEBitfield(offset, len)
    case Truncated => Truncated
  }

  /** Reading an integer and its slice from x finds the same ones in any y that x is part of. */
  lemma SliceLocal(x: seq<byte>, y: seq<byte>, shift: nat, offset: nat)
    requires DecodeLen(x, offset).Ok? && offset < |x|
    requires shift + |x| <= |y| && y[shift..shift + |x|] == x
    ensures var (next, behind) := Varint.Decode(x, offset).value;
            && AfterSlice(next, behind) <= |x|
            && Varint.Decode(y, shift + offset) == Some((next, shift + behind))
            && Slice(y, next, shift + behind) == Slice(x, next, behind)
  {
    var (next, behind) := Varint.Decode(x, offset).value;
    forall i | 0 <= i < |x| ensures x[i] == y[shift + i] {
      assert x[i] == y[shift..shift + |x|][i];
    }
    DecodeLocal(x, y, shift, offset);
    AcceptedInBounds(x, AfterSlice(next, behind));
    if next % 2 == 0 {
      var end := behind + next / 2;
      assert end <= |x|;
      forall k | 0 <= k < end - behind ensures x[behind..end][k] == y[shift + behind..shift + end][k] {
        assert x[behind + k] == y[shift + (behind + k)];
      }
      assert x[behind..end] == y[shift + behind..shift + end];
    }
  }

  /** One step of both passes. */
  lemma DecodeStep(buf: seq<byte>, offset: nat, next: nat, behind: nat)
    requires Varint.Decode(buf, offset) == Some((next, behind))
    ensures DecodeLen(buf, offset).Ok? <==> DecodeLen(buf, AfterSlice(next, behind)).Ok?
    ensures DecodeLen(buf, offset).Ok? ==>
              && AfterSlice(next, behind) <= |buf|
              && DecodeFrom(buf, offset) == Slice(buf, next, behind) + DecodeFrom(buf, AfterSlice(next, behind))
  {
    if DecodeLen(buf, offset).Ok? {
      AcceptedInBounds(buf, AfterSlice(next, behind));
    }
  }

  lemma DecodeEnd(buf: seq<byte>)
    ensures DecodeLen(buf, |buf|) == Ok(0) && DecodeFrom(buf, |buf|) == []
  {
  }

  lemma AcceptedReads(buf: seq<byte>, offset: nat)
    requires DecodeLen(buf, offset).Ok?
    ensures offset <= |buf| && (offset < |buf| ==> Varint.Decode(buf, offset).Some?)
  {
  }

  /** Decoding from an offset sees only what is behind it. */
  lemma {:induction false} DecodeShift(x: seq<byte>, y: seq<byte>, shift: nat, offset: nat)
    requires DecodeLen(x, offset).Ok?
    requires |y| == shift + |x| && y[shift..] == x
    ensures DecodeLen(y, shift + offset).Ok? && DecodeFrom(y, shift + offset) == DecodeFrom(x, offset)
    decreases |x| - offset
  {
    hide DecodeLen, DecodeFrom, Varint.Decode, Slice;
    AcceptedReads(x, offset);
    if offset < |x| {
      var (next, behind) := Varint.Decode(x, offset).value;
      SliceLocal(x, y, shift, offset);
      DecodeStep(x, offset, next, behind);
      DecodeShift(x, y, shift, AfterSlice(next, behind));
      DecodeStep(y, shift + offset, next, shift + behind);
      assert AfterSlice(next, shift + behind) == shift + AfterSlice(next, behind);
    } else {
      DecodeEnd(x);
      DecodeEnd(y);
    }
  }

  /** Two accepted buffers in a row decode to their results in a row. */
  lemma {:induction false} DecodeAppend(x: seq<byte>, y: seq<byte>, offset: nat)
    requires DecodeLen(x, offset).Ok? && DecodeLen(y, 0).Ok?
    ensures DecodeLen(x + y, offset).Ok? && DecodeFrom(x + y, offset) == DecodeFrom(x, offset) + DecodeFrom(y, 0)
    decreases |x| - offset
  {
    hide DecodeLen, DecodeFrom, Varint.Decode, Slice;
    AcceptedReads(x, offset);
    if offset < |x| {
      var (next, behind) := Varint.Decode(x, offset).value;
      SliceLocal(x, x + y, 0, offset);
      DecodeStep(x, offset, next, behind);
      DecodeAppend(x, y, AfterSlice(next, behind));
      DecodeStep(x + y, offset, next, behind);
      AppendAssociates(Slice(x, next, behind), DecodeFrom(x, AfterSlice(next, behind)), DecodeFrom(y, 0));
    } else {
      DecodeEnd(x);
      DecodeShift(y, x + y, |x|, 0);
    }
  }

  /** A header says what it was made from. */
  lemma HeaderReads(s: Segment)
    requires s.Run? ==> Uniform(s.bits)
    ensures SliceLength(Header(s)) == |Expand(s)|
    ensures s.Run? ==> Header(s) % 2 == 1 && (Header(s) / 2 % 2 == 1 <==> s.bits == 255)
    ensures s.Literal? ==> Header(s) % 2 == 0 && Header(s) / 2 == |s.bytes|
  {
  }

  /** What is read back from behind a header is the segment it belongs to. */
  lemma SliceOfPrint(s: Segment)
    requires s.Run? ==> Uniform(s.bits)
    ensures var behind := Varint.Length(Header(s));
            && Varint.Decode(Print(s), 0) == Some((Header(s), behind))
            && AfterSlice(Header(s), behind) == |Print(s)|
            && Slice(Print(s), Header(s), behind) == Expand(s)
  {
    hide Varint.Encode, Varint.Decode, Varint.Length;
    var body := if s.Literal? then s.bytes else [];
    Varint.RoundTrip([], Header(s), body);
    assert [] + Varint.Encode(Header(s)) + body == Print(s);
    HeaderReads(s);
    hide Header;
    assert Slice(Print(s), Header(s), Varint.Length(Header(s))) == Expand(s);
  }

  lemma {:induction false} PrintDecodes(s: Segment)
    requires s.Run? ==> Uniform(s.bits)
    ensures DecodeLen(Print(s), 0) == Ok(|Expand(s)|) && DecodeFrom(Print(s), 0) == Expand(s)
  {
    SliceOfPrint(s);
    DecodeEnd(Print(s));
    DecodeStep(Print(s), 0, Header(s), Varint.Length(Header(s)));
    assert Expand(s) + [] == Expand(s);
  }

  lemma {:induction false} PrintAllDecodes(segments: seq<Segment>)
    requires forall s | s in segments :: s.Run? ==> Uniform(s.bits)
    ensures DecodeLen(PrintAll(segments), 0).Ok? && DecodeFrom(PrintAll(segments), 0) == ExpandAll(segments)
    decreases |segments|
  {
    if segments != [] {
      assert segments[0] in segments;
      PrintDecodes(segments[0]);
      PrintAllDecodes(segments[1..]);
      DecodeAppend(Print(segments[0]), PrintAll(segments[1..]), 0);
    }
  }

  lemma {:induction false} SegmentsUniform(b: seq<byte>)
    ensures forall s | s in Segments(b) :: s.Run? ==> Uniform(s.bits)
    decreases |b|
  {
    if b != [] {
      SegmentsUniform(b[if Uniform(b[0]) then RunLength(b) else LiteralLength(b)..]);
    }
  }

  /** Decoding what was encoded gives it back, for every sequence of bytes. */
  lemma {:induction false} RoundTrip(b: seq<byte>)
    ensures Decode(Encode(b)) == Ok(b)
  {
    if b == [] {
      PrintDecodes(Literal([]));
    } else {
      SegmentsUniform(b);
      PrintAllDecodes(Segments(b));
      SegmentsExpand(b);
    }
  }

  // ---------------------------------------------------------------------------------------------
  // Size
  // ---------------------------------------------------------------------------------------------

  lemma RunIsSmall(bits: byte, len: nat)
    requires 0 < len
    ensures |Print(Run(bits, len))| == Length(4 * len) <= len
  {
    LengthOfTag(len, Header(Run(bits, len)) - 4 * len);
    LengthIsSmall(4 * len);
  }

  lemma LiteralIsSmall(bytes: seq<byte>)
    requires bytes != []
    ensures 2 * |Print(Literal(bytes))| <= 3 * |bytes| + 1
  {
    LengthIsSmall(2 * |bytes|);
  }

  /** At most half as long again, and a little less when the first byte starts a run. */
  lemma {:induction false} SegmentsAreSmall(b: seq<byte>)
    ensures |PrintAll(Segments(b))| <= |b| + (|b| + 1) / 2
    ensures b == [] || Uniform(b[0]) ==> |PrintAll(Segments(b))| <= |b| + |b| / 2
    decreases |b|
  {
    if b != [] {
      var k := if Uniform(b[0]) then RunLength(b) else LiteralLength(b);
      SegmentsAreSmall(b[k..]);
      assert Segments(b)[1..] == Segments(b[k..]);
      if Uniform(b[0]) {
        RunIsSmall(b[0], k);
      } else {
        LiteralIsSmall(b[..k]);
      }
    }
  }

  /** The worst case of the code: n + (n + 1) / 2 bytes for n >= 1 bytes, and 1 byte for none. */
  lemma EncodedSize(b: seq<byte>)
    ensures |Encode(b)| <= if b == [] then 1 else |b| + (|b| + 1) / 2
  {
    SegmentsAreSmall(b);
  }

  lemma FlushRun(b: seq<byte>, k: nat)
    requires 0 < k <= |b| && Uniform(b[0])
    requires forall i | 0 <= i < k :: b[i] == b[0]
    requires k < |b| ==> b[k] != b[0]
    ensures PrintAll(Segments(b)) == Print(Run(b[0], k)) + PrintAll(Segments(b[k..]))
  {
    assert RunLength(b) == k;
    assert Segments(b)[1..] == Segments(b[k..]);
  }

  lemma FlushLiteral(b: seq<byte>, k: nat)
    requires 0 < k <= |b|
    requires forall i | 0 <= i < k :: !Uniform(b[i])
    requires k < |b| ==> Uniform(b[k])
    ensures PrintAll(Segments(b)) == Print(Literal(b[..k])) + PrintAll(Segments(b[k..]))
  {
    assert LiteralLength(b) == k;
    assert Segments(b)[1..] == Segments(b[k..]);
  }

  lemma EncodeRun(bits: byte, n: nat, rest: seq<byte>, enc: seq<byte>, wire: seq<byte>)
    requires Uniform(bits) && 0 < n && (rest != [] ==> rest[0] != bits) && PrintAll(Segments(rest)) == enc
    requires wire == Print(Run(bits, n)) + enc
    ensures PrintAll(Segments(Repeat(n, bits) + rest)) == wire
  {
    FlushRun(Repeat(n, bits) + rest, n);
    assert (Repeat(n, bits) + rest)[n..] == rest;
  }

  lemma EncodeLiteral(bytes: seq<byte>, rest: seq<byte>, enc: seq<byte>, wire: seq<byte>)
    requires bytes != [] && (forall i | 0 <= i < |bytes| :: !Uniform(bytes[i])) && (rest != [] ==> Uniform(rest[0]))
    requires PrintAll(Segments(rest)) == enc && wire == Print(Literal(bytes)) + enc
    ensures PrintAll(Segments(bytes + rest)) == wire
  {
    FlushLiteral(bytes + rest, |bytes|);
    assert (bytes + rest)[..|bytes|] == bytes && (bytes + rest)[|bytes|..] == rest;
  }

  // ---------------------------------------------------------------------------------------------
  // The segments are the only maximal ones
  // ---------------------------------------------------------------------------------------------

  /** Runs of 0x00 or 0xFF, and literals without either; none of them empty. */
  predicate Proper(s: Segment) {
    match s
    case Run(bits, len) => Uniform(bits) && 0 < len
    case Literal(bytes) => bytes != [] && forall i | 0 <= i < |bytes| :: !Uniform(bytes[i])
  }

  /** Two neighbours that could not have been one segment. */
  predicate Apart(s: Segment, t: Segment) {
    (s.Literal? ==> t.Run?) && (s.Run? && t.Run? ==> s.bits != t.bits)
  }

  ghost predicate Maximal(segments: seq<Segment>) {
    segments != [] ==>
      && Proper(segments[0]) && (1 < |segments| ==> Apart(segments[0], segments[1]))
      && Maximal(segments[1..])
  }

  lemma {:induction false} SegmentsAreMaximal(b: seq<byte>)
    ensures Maximal(Segments(b))
    ensures b != [] ==> 0 < |Segments(b)| && (Uniform(b[0]) ==> Segments(b)[0].Run? && Segments(b)[0].bits == b[0])
    ensures b != [] && !Uniform(b[0]) ==> Segments(b)[0].Literal?
    decreases |b|
  {
    if b != [] {
      var k := if Uniform(b[0]) then RunLength(b) else LiteralLength(b);
      SegmentsAreMaximal(b[k..]);
      assert Segments(b)[1..] == Segments(b[k..]);
    }
  }

  lemma FirstByte(s: Segment, rest: seq<byte>)
    requires Proper(s)
    ensures var b := Expand(s) + rest;
            b != [] && (if s.Run? then b[0] == s.bits else b[0] == s.bytes[0] && !Uniform(b[0]))
  {
  }

  lemma SplitRun(bits: byte, len: nat, rest: seq<byte>)
    requires Proper(Run(bits, len)) && (rest != [] ==> rest[0] != bits)
    ensures Segments(Repeat(len, bits) + rest) == [Run(bits, len)] + Segments(rest)
  {
    var b := Repeat(len, bits) + rest;
    assert b[len..] == rest && RunLength(b) == len;
  }

  lemma SplitLiteral(bytes: seq<byte>, rest: seq<byte>)
    requires Proper(Literal(bytes)) && (rest != [] ==> Uniform(rest[0]))
    ensures Segments(bytes + rest) == [Literal(bytes)] + Segments(rest)
  {
    var b := bytes + rest;
    assert b[|bytes|..] == rest && b[..|bytes|] == bytes && LiteralLength(b) == |bytes|;
  }

  /** There is only one way to split a buffer into maximal runs and the literals between them. */
  lemma {:induction false} OnlyOneIsMaximal(segments: seq<Segment>)
    requires Maximal(segments)
    ensures Segments(ExpandAll(segments)) == segments
    decreases |segments|
  {
    hide Segments;
    if segments == [] {
      NoSegments();
    } else {
      var rest := ExpandAll(segments[1..]);
      OnlyOneIsMaximal(segments[1..]);
      if 1 < |segments| {
        FirstByte(segments[1], ExpandAll(segments[1..][1..]));
      }
      match segments[0] {
        case Run(bits, len) => SplitRun(bits, len, rest);
        case Literal(bytes) => SplitLiteral(bytes, rest);
      }
    }
  }

  /** An accepted part, and behind it a literal that announces more bytes than there are: the first pass says so. */
  lemma {:induction false} CutLiteralIsRejected(x: seq<byte>, length: nat, bytes: seq<byte>)
    requires DecodeLen(x, 0).Ok? && |bytes| < length
    ensures var buf := x + (Varint.Encode(2 * length) + bytes);
            DecodeLen(buf, 0) == InvalidRLEBitfield(|x| + Varint.Length(2 * length) + length, |buf|)
  {
    var cut := Varint.Encode(2 * length) + bytes;
    var buf := x + cut;
    Varint.RoundTrip(x, 2 * length, bytes);
    assert x + Varint.Encode(2 * length) + bytes == buf;
    hide Varint.Encode, Varint.Decode, Varint.Length;
    assert DecodeLen(buf, |x|) == InvalidRLEBitfield(|x| + Varint.Length(2 * length) + length, |buf|);
    RejectedBehind(x, buf, 0);
  }

  /** Whatever is wrong behind an accepted part is wrong with the whole. */
  lemma {:induction false} RejectedBehind(x: seq<byte>, buf: seq<byte>, offset: nat)
    requires DecodeLen(x, offset).Ok? && x <= buf && !DecodeLen(buf, |x|).Ok?
    ensures DecodeLen(buf, offset) == DecodeLen(buf, |x|)
    decreases |x| - offset
  {
    hide Varint.Decode, Slice;
    AcceptedReads(x, offset);
    if offset < |x| {
      var (next, behind) := Varint.Decode(x, offset).value;
      SliceLocal(x, buf, 0, offset);
      AcceptedInBounds(x, AfterSlice(next, behind));
      RejectedBehind(x, buf, AfterSlice(next, behind));
    }
  }

  /** Single bytes of literal and run in turn. */
  function Alternating(n: nat): (r: seq<byte>)
    ensures |r| == n
  {
    if n == 0 then [] else if n == 1 then [1] else [1] + (Repeat(1, 0) + Alternating(n - 2))
  }

  lemma {:induction false} AlternatingCosts(n: nat)
    ensures |PrintAll(Segments(Alternating(n)))| == n + (n + 1) / 2
    decreases n
  {
    hide Print, PrintAll, Segments;
    ShortPrints();
    if n == 1 {
      assert Alternating(1) == [1] + [];
      EncodeLiteral([1], [], [], [2, 1]);
    } else if 1 < n {
      var rest := Alternating(n - 2);
      AlternatingCosts(n - 2);
      var enc := PrintAll(Segments(rest));
      EncodeRun(0, 1, rest, enc, [5] + enc);
      EncodeLiteral([1], Repeat(1, 0) + rest, [5] + enc, [2, 1] + ([5] + enc));
    }
  }

  /** The worst case is reached at every length. */
  lemma {:induction false} EncodedSizeIsTight(n: nat)
    ensures exists b: seq<byte> :: |b| == n && |Encode(b)| == if n == 0 then 1 else n + (n + 1) / 2
  {
    AlternatingCosts(n);
    ShortPrints();
    var b := Alternating(n);
    assert |b| == n && |Encode(b)| == if n == 0 then 1 else n + (n + 1) / 2;
  }

  lemma ShortPrints()
    ensures Print(Literal([183])) == [2, 183] && Print(Run(0, 3)) == [13]
    ensures Print(Literal([85, 84])) == [4, 85, 84] && Print(Run(255, 2)) == [11]
    ensures Print(Run(0, 1023)) == [253, 31] && Print(Literal([64])) == [2, 64]
    ensures Print(Literal([1])) == [2, 1] && Print(Run(0, 1)) == [5]
    ensures PrintAll(Segments([])) == [] && Encode([]) == [0]
  {
    assert Varint.Encode(4093) == [253] + Varint.Encode(31);
  }

  lemma {:induction false} SmallWireFormat()
    ensures Encode([5, 3]) == [4, 5, 3]
    ensures Encode([0xFF, 0xA5, 0]) == [7, 2, 0xA5, 5]
  {
    ShortPrints();
    assert Print(Literal([5, 3])) == [4, 5, 3] && Print(Run(255, 1)) == [7] && Print(Literal([0xA5])) == [2, 0xA5];
    hide Segments, PrintAll, Print;
    assert [5, 3] + [] == [5, 3];
    EncodeLiteral([5, 3], [], [], [4, 5, 3]);
    var end: seq<byte> := Repeat(1, 0) + [];
    EncodeRun(0, 1, [], [], [5]);
    EncodeLiteral([0xA5], end, [5], [2, 0xA5, 5]);
    EncodeRun(255, 1, [0xA5] + end, [2, 0xA5, 5], [7, 2, 0xA5, 5]);
    assert [0xFF, 0xA5, 0] == Repeat(1, 255) + ([0xA5] + end);
  }

  /** The bytes on the wire for a mixed buffer, for a long run behind one literal byte, and for nothing. */
  lemma {:induction false} WireFormat(mixed: seq<byte>, long: seq<byte>)
    requires mixed == [255, 255, 85, 84, 0, 0, 0, 183]
    requires long == [64] + Repeat(1023, 0)
    ensures Encode(mixed) == [11, 4, 85, 84, 13, 2, 183]
    ensures Encode(long) == [2, 64, 253, 31]
    ensures Encode([]) == [0]
  {
    ShortPrints();
    hide Segments, PrintAll, Print;
    var tail: seq<byte> := [183] + [];
    EncodeLiteral([183], [], [], [2, 183]);
    EncodeRun(0, 3, tail, [2, 183], [13, 2, 183]);
    EncodeLiteral([85, 84], Repeat(3, 0) + tail, [13, 2, 183], [4, 85, 84, 13, 2, 183]);
    EncodeRun(255, 2, [85, 84] + (Repeat(3, 0) + tail), [4, 85, 84, 13, 2, 183], [11, 4, 85, 84, 13, 2, 183]);
    assert mixed == Repeat(2, 255) + ([85, 84] + (Repeat(3, 0) + tail));
    EncodeRun(0, 1023, [], [], [253, 31]);
    EncodeLiteral([64], Repeat(1023, 0) + [], [253, 31], [2, 64, 253, 31]);
    assert long == [64] + (Repeat(1023, 0) + []);
  }

  // ---------------------------------------------------------------------------------------------
  // The loops
  // ---------------------------------------------------------------------------------------------

  method WriteContiguous(enc: seq<byte>, len: nat, prevBits: byte) returns (r: seq<byte>)
    requires Uniform(prevBits)
    ensures r == enc + Print(Run(prevBits, len))
  {
    var header := 4 * len + 1;
    if prevBits == 255 {
      header := header + 2;
    }
    r := enc + Varint.Encode(header);
  }

  method WriteNoncontiguous(enc: seq<byte>, bits: seq<byte>) returns (r: seq<byte>)
    ensures r == enc + Print(Literal(bits))
  {
    r := enc + Varint.Encode(2 * |bits|) + bits;
  }

  /** What is pending at position i started at position j. */
  ghost predicate Pending(b: seq<byte>, i: nat, j: nat, contiguous: bool, prevBits: byte) {
    && j <= i <= |b|
    && (0 < i ==> j < i)
    && (contiguous ==> j < i && Uniform(prevBits) && forall k | j <= k < i :: b[k] == prevBits)
    && (!contiguous ==> forall k | j <= k < i :: !Uniform(b[k]))
  }

  lemma FlushPendingRun(b: seq<byte>, i: nat, j: nat, prevBits: byte)
    requires Pending(b, i, j, true, prevBits) && (i < |b| ==> b[i] != prevBits)
    ensures PrintAll(Segments(b[j..])) == Print(Run(prevBits, i - j)) + PrintAll(Segments(b[i..]))
  {
    hide Segments, PrintAll, Print;
    assert b[j..][i - j..] == b[i..];
    FlushRun(b[j..], i - j);
  }

  lemma FlushPendingLiteral(b: seq<byte>, i: nat, j: nat, prevBits: byte)
    requires Pending(b, i, j, false, prevBits) && 0 < i && (i < |b| ==> Uniform(b[i]))
    ensures PrintAll(Segments(b[j..])) == Print(Literal(b[j..i])) + PrintAll(Segments(b[i..]))
  {
    hide Segments, PrintAll, Print;
    assert b[j..][i - j..] == b[i..] && b[j..][..i - j] == b[j..i];
    FlushLiteral(b[j..], i - j);
  }

  lemma PrintedSize(s: Segment)
    ensures |Print(s)| == Length(Header(s)) + (if s.Literal? then |s.bytes| else 0)
  {
  }

  /** The encoder before byte i: what is written, and what is pending since position j. */
  ghost predicate Encoding(
    b: seq<byte>, i: nat, j: nat, enc: seq<byte>, len: nat, contiguous: bool, prevBits: byte, noncontiguous: seq<byte>)
  {
    && Pending(b, i, j, contiguous, prevBits)
    && (if contiguous then len == i - j && noncontiguous == [] else noncontiguous == b[j..i])
    && PrintAll(Segments(b)) == enc + PrintAll(Segments(b[j..]))
  }

  /** The encoder right after everything before byte i has been written. */
  ghost predicate Flushed(b: seq<byte>, i: nat, enc: seq<byte>) {
    i <= |b| && PrintAll(Segments(b)) == enc + PrintAll(Segments(b[i..]))
  }

  lemma EncodingStarts(b: seq<byte>)
    ensures Encoding(b, 0, 0, [], 0, false, 0, []) && Flushed(b, 0, [])
    ensures forall enc :: Flushed(b, |b|, enc) ==> enc == PrintAll(Segments(b))
  {
    assert b[0..] == b && PrintAll(Segments(b[|b|..])) == [];
  }

  lemma EncodingFlushesRun(b: seq<byte>, i: nat, j: nat, enc: seq<byte>, len: nat, prevBits: byte, rest: seq<byte>)
    requires Encoding(b, i, j, enc, len, true, prevBits, rest) && (i < |b| ==> b[i] != prevBits)
    ensures Uniform(prevBits) && rest == [] && Flushed(b, i, enc + Print(Run(prevBits, len)))
  {
    FlushPendingRun(b, i, j, prevBits);
    AppendAssociates(enc, Print(Run(prevBits, len)), PrintAll(Segments(b[i..])));
  }

  lemma EncodingFlushesLiteral(b: seq<byte>, i: nat, j: nat, enc: seq<byte>, len: nat, prevBits: byte, rest: seq<byte>)
    requires Encoding(b, i, j, enc, len, false, prevBits, rest) && 0 < i && (i < |b| ==> Uniform(b[i]))
    ensures Flushed(b, i, enc + Print(Literal(rest)))
  {
    FlushPendingLiteral(b, i, j, prevBits);
    AppendAssociates(enc, Print(Literal(rest)), PrintAll(Segments(b[i..])));
  }

  lemma EncodingGrows(
    b: seq<byte>, i: nat, j: nat, enc: seq<byte>, len: nat, contiguous: bool, prevBits: byte, rest: seq<byte>)
    requires i < |b| && Encoding(b, i, j, enc, len, contiguous, prevBits, rest)
    ensures contiguous && b[i] == prevBits ==> Encoding(b, i + 1, j, enc, len + 1, true, prevBits, rest)
    ensures !contiguous && !Uniform(b[i]) ==> Encoding(b, i + 1, j, enc, len, false, prevBits, rest + [b[i]])
    ensures !contiguous && i == 0 ==> Flushed(b, i, enc) && rest == []
  {
    hide Segments, PrintAll;
  }

  lemma EncodingRestarts(b: seq<byte>, i: nat, enc: seq<byte>, len: nat, prevBits: byte)
    requires i < |b| && Flushed(b, i, enc)
    ensures Uniform(b[i]) ==> Encoding(b, i + 1, i, enc, 1, true, b[i], [])
    ensures !Uniform(b[i]) ==> Encoding(b, i + 1, i, enc, len, false, prevBits, [b[i]])
  {
  }

  method EncodeBytes(buf: seq<byte>) returns (enc: seq<byte>)
    ensures enc == Encode(buf)
  {
    var len, contiguous, prevBits := 0, false, 0;
    var noncontiguous: seq<byte> := [];
    enc := [];
    ghost var j := 0;
    EncodingStarts(buf);
    hide Encoding, Flushed, Print, PrintAll, Segments;
    for i := 0 to |buf|
      invariant Encoding(buf, i, j, enc, len, contiguous, prevBits, noncontiguous)
    {
      var byte := buf[i];
      EncodingGrows(buf, i, j, enc, len, contiguous, prevBits, noncontiguous);
      if contiguous && byte == prevBits {
        len := len + 1;
        continue;
      } else if contiguous {
        EncodingFlushesRun(buf, i, j, enc, len, prevBits, noncontiguous);
        enc := WriteContiguous(enc, len, prevBits);
        EncodingRestarts(buf, i, enc, len, prevBits);
      }

      if byte == 0 || byte == 255 {
        if !contiguous && i > 0 {
          EncodingFlushesLiteral(buf, i, j, enc, len, prevBits, noncontiguous);
          enc := WriteNoncontiguous(enc, noncontiguous);
          noncontiguous := [];
        }
        EncodingRestarts(buf, i, enc, len, prevBits);
        j := i;
        len, prevBits, contiguous := 1, byte, true;
      } else if !contiguous {
        noncontiguous := noncontiguous + [byte];
      } else {
        j := i;
        contiguous := false;
        assert noncontiguous + [byte] == [byte];
        noncontiguous := noncontiguous + [byte];
      }
    }

    if contiguous {
      EncodingFlushesRun(buf, |buf|, j, enc, len, prevBits, noncontiguous);
      ContiguousMeansBytes(buf, j, enc, len, prevBits, noncontiguous);
      enc := WriteContiguous(enc, len, prevBits);
    } else {
      if 0 < |buf| {
        EncodingFlushesLiteral(buf, |buf|, j, enc, len, prevBits, noncontiguous);
      } else {
        NothingToEncode(buf, j, enc, len, prevBits, noncontiguous);
      }
      enc := WriteNoncontiguous(enc, noncontiguous);
    }
  }

  lemma ContiguousMeansBytes(b: seq<byte>, j: nat, enc: seq<byte>, len: nat, prevBits: byte, rest: seq<byte>)
    requires Encoding(b, |b|, j, enc, len, true, prevBits, rest)
    ensures b != []
  {
  }

  lemma NothingToEncode(b: seq<byte>, j: nat, enc: seq<byte>, len: nat, prevBits: byte, rest: seq<byte>)
    requires b == [] && Encoding(b, 0, j, enc, len, false, prevBits, rest)
    ensures enc == [] && rest == []
  {
    assert b[j..] == [] && b[j..0] == [] && PrintAll(Segments([])) == [];
  }

  /** The size computation before byte i: what is accounted for, and how many bytes are pending. */
  ghost predicate Measuring(b: seq<byte>, i: nat, len: nat, partial: nat, contiguous: bool, prevBits: byte) {
    && partial <= i
    && Pending(b, i, i - partial, contiguous, prevBits)
    && |PrintAll(Segments(b))| == len + |PrintAll(Segments(b[i - partial..]))|
  }

  lemma MeasuringFlushes(b: seq<byte>, i: nat, len: nat, partial: nat, contiguous: bool, prevBits: byte)
    requires Measuring(b, i, len, partial, contiguous, prevBits) && 0 < i
    requires i < |b| ==> if contiguous then b[i] != prevBits else Uniform(b[i])
    ensures |PrintAll(Segments(b))| ==
            len + (if contiguous then Length(4 * partial) else partial + Length(2 * partial))
            + |PrintAll(Segments(b[i..]))|
  {
    hide Segments, PrintAll, Print;
    if contiguous {
      FlushPendingRun(b, i, i - partial, prevBits);
      RunIsSmall(prevBits, partial);
    } else {
      FlushPendingLiteral(b, i, i - partial, prevBits);
      PrintedSize(Literal(b[i - partial..i]));
    }
  }

  lemma MeasuringMoves(b: seq<byte>, i: nat, len: nat, partial: nat, contiguous: bool, prevBits: byte)
    requires i < |b|
    ensures Measuring(b, i, len, partial, contiguous, prevBits) ==>
              && (contiguous && b[i] == prevBits ==> Measuring(b, i + 1, len, partial + 1, true, prevBits))
              && (!contiguous && !Uniform(b[i]) ==> Measuring(b, i + 1, len, partial + 1, false, prevBits))
              && (!contiguous && i == 0 ==> |PrintAll(Segments(b))| == len + |PrintAll(Segments(b[i..]))|)
    ensures |PrintAll(Segments(b))| == len + |PrintAll(Segments(b[i..]))| ==>
              && (Uniform(b[i]) ==> Measuring(b, i + 1, len, 1, true, b[i]))
              && (!Uniform(b[i]) ==> Measuring(b, i + 1, len, 1, false, prevBits))
  {
  }

  /** The exact size of the encoding, computed without encoding. */
  method EncodeLen(buf: seq<byte>) returns (len: nat)
    ensures len == |Encode(buf)|
  {
    var partial, contiguous, prevBits := 0, false, 0;
    len := 0;
    assert buf[0..] == buf && PrintAll(Segments(buf[|buf|..])) == [];
    assert Measuring(buf, 0, len, partial, contiguous, prevBits);
    if buf == [] {
      PrintedSize(Literal([]));
    }
    hide Measuring, Print, PrintAll, Segments, Length;
    for i := 0 to |buf|
      invariant Measuring(buf, i, len, partial, contiguous, prevBits)
      invariant i == 0 ==> len == partial == 0 && !contiguous
    {
      var byte := buf[i];
      MeasuringMoves(buf, i, len, partial, contiguous, prevBits);
      if contiguous && byte == prevBits {
        partial := partial + 1;
        continue;
      } else if contiguous {
        MeasuringFlushes(buf, i, len, partial, true, prevBits);
        len := len + Length(4 * partial);
        MeasuringMoves(buf, i, len, partial, contiguous, prevBits);
      }

      if byte == 0 || byte == 255 {
        if !contiguous && i > 0 {
          MeasuringFlushes(buf, i, len, partial, false, prevBits);
          len := len + partial;
          len := len + Length(2 * partial);
        }
        MeasuringMoves(buf, i, len, partial, contiguous, prevBits);
        partial, prevBits, contiguous := 1, byte, true;
      } else if !contiguous {
        partial := partial + 1;
      } else {
        partial := 1;
        contiguous := false;
      }
    }

    if 0 < |buf| {
      MeasuringFlushes(buf, |buf|, len, partial, contiguous, prevBits);
    }
    if contiguous {
      len := len + Length(4 * partial);
    } else {
      len := len + partial;
      len := len + Length(2 * partial);
    }
  }

  /** The first pass. Every integer in the buffer must be complete. */
  method DecodeLength(buf: seq<byte>) returns (r: Decoded<nat>)
    requires DecodeLen(buf, 0) != Truncated
    ensures r == DecodeLen(buf, 0)
  {
    var len, offset := 0, 0;
    while offset < |buf|
      invariant DecodeLen(buf, offset) != Truncated
      invariant DecodeLen(buf, 0) == match DecodeLen(buf, offset)
                                     case Ok(n) => Ok(len + n)
                                     case e => e
      decreases |buf| - offset
    {
      var (next, behind) := Varint.Decode(buf, offset).value;
      offset := behind;
      var slice := if next % 2 > 0 then next / 4 else next / 2;
      len := len + slice;
      if next % 2 == 0 {
        offset := offset + slice;
      }
    }
    if offset > |buf| {
      return InvalidRLEBitfield(offset, |buf|);
    }
    return Ok(len);
  }

  /** The second pass at `offset`: `ptr` bytes are in place, the rest of the result is still zero. */
  ghost predicate Filling(buf: seq<byte>, result: seq<byte>, ptr: nat, offset: nat) {
    && DecodeLen(buf, 0).Ok? && DecodeLen(buf, offset).Ok?
    && ptr + |DecodeFrom(buf, offset)| == |result|
    && result[..ptr] + DecodeFrom(buf, offset) == DecodeFrom(buf, 0)
    && forall k | ptr <= k < |result| :: result[k] == 0
  }

  lemma FillingStarts(buf: seq<byte>, zeros: seq<byte>)
    requires DecodeLen(buf, 0) == Ok(|zeros|) && forall k | 0 <= k < |zeros| :: zeros[k] == 0
    ensures Filling(buf, zeros, 0, 0)
  {
  }

  /** Another integer follows, and its slice stays within both the buffer and the result. */
  lemma FillingReads(buf: seq<byte>, result: seq<byte>, ptr: nat, offset: nat)
    requires Filling(buf, result, ptr, offset) && offset < |buf|
    ensures Varint.Decode(buf, offset).Some?
    ensures var (next, behind) := Varint.Decode(buf, offset).value;
            && AfterSlice(next, behind) <= |buf|
            && ptr + SliceLength(next) <= |result|
            && forall k | ptr <= k < |result| :: result[k] == 0
  {
    AcceptedReads(buf, offset);
    var (next, behind) := Varint.Decode(buf, offset).value;
    DecodeStep(buf, offset, next, behind);
  }

  /** Putting the slice of one integer in place. */
  lemma FillingMoves(
    buf: seq<byte>, filled: seq<byte>, slice: seq<byte>, tail: seq<byte>, next: nat, behind: nat, offset: nat)
    requires Varint.Decode(buf, offset) == Some((next, behind))
    requires AfterSlice(next, behind) <= |buf| && slice == Slice(buf, next, behind)
    requires |tail| >= |slice| && Filling(buf, filled + tail, |filled|, offset)
    ensures Filling(buf, filled + slice + tail[|slice|..], |filled| + |slice|, AfterSlice(next, behind))
  {
    var rest := AfterSlice(next, behind);
    DecodeStep(buf, offset, next, behind);
    hide DecodeLen, DecodeFrom, Varint.Decode, Slice, AfterSlice;
    assert (filled + tail)[..|filled|] == filled;
    AppendAssociates(filled, slice, DecodeFrom(buf, rest));
    assert (filled + slice + tail[|slice|..])[..|filled| + |slice|] == filled + slice;
    forall k | |filled| + |slice| <= k < |filled + tail|
      ensures (filled + slice + tail[|slice|..])[k] == 0
    {
      assert (filled + tail)[k] == 0;
    }
  }

  lemma FillingStep(buf: seq<byte>, result: seq<byte>, ptr: nat, next: nat, behind: nat, offset: nat)
    requires Filling(buf, result, ptr, offset) && Varint.Decode(buf, offset) == Some((next, behind))
    requires AfterSlice(next, behind) <= |buf| && ptr + SliceLength(next) <= |result|
    ensures Filling(buf, result[..ptr] + Slice(buf, next, behind) + result[ptr + SliceLength(next)..],
                    ptr + SliceLength(next), AfterSlice(next, behind))
  {
    assert result == result[..ptr] + result[ptr..];
    assert result[ptr..][SliceLength(next)..] == result[ptr + SliceLength(next)..];
    FillingMoves(buf, result[..ptr], Slice(buf, next, behind), result[ptr..], next, behind, offset);
  }

  lemma FillingEnds(buf: seq<byte>, result: seq<byte>, ptr: nat, offset: nat)
    requires Filling(buf, result, ptr, offset) && |buf| <= offset
    ensures Decode(buf) == Ok(result)
  {
    AcceptedReads(buf, offset);
    assert result[..ptr] + [] == result;
  }

  /** Both passes: the result is filled in place, run by run and literal by literal. */
  method DecodeBytes(buf: seq<byte>) returns (r: Decoded<seq<byte>>)
    requires DecodeLen(buf, 0) != Truncated
    ensures r == Decode(buf)
  {
    var length := DecodeLength(buf);
    match length {
      case InvalidRLEBitfield(offset, len) =>
        return InvalidRLEBitfield(offset, len);
      case Ok(n) =>
        var bitfield := new byte[n](_ => 0);
        Fill(buf, bitfield);
        return Ok(bitfield[..]);
    }
  }

  method Fill(buf: seq<byte>, bitfield: array<byte>)
    requires DecodeLen(buf, 0) == Ok(bitfield.Length)
    requires forall k | 0 <= k < bitfield.Length :: bitfield[k] == 0
    modifies bitfield
    ensures Decode(buf) == Ok(bitfield[..])
  {
    FillingStarts(buf, bitfield[..]);
    hide Filling, DecodeLen, DecodeFrom, Varint.Decode, Decode, Slice;
    var ptr: nat, offset: nat := 0, 0;
    while offset < |buf|
      invariant ptr <= bitfield.Length && Filling(buf, bitfield[..], ptr, offset)
      decreases |buf| - offset
    {
      FillingReads(buf, bitfield[..], ptr, offset);
      var (next, behind) := Varint.Decode(buf, offset).value;
      var len := if next % 2 > 0 then next / 4 else next / 2;
      var after := if next % 2 > 0 then behind else behind + len;
      assert len == SliceLength(next) && after == AfterSlice(next, behind);
      hide SliceLength, AfterSlice;
      FillingStep(buf, bitfield[..], ptr, next, behind, offset);
      FillSlice(bitfield, ptr, buf, next, behind);
      offset := after;
      ptr := ptr + len;
    }
    FillingEnds(buf, bitfield[..], ptr, offset);
  }

  /** Writes one slice; a run of zeros is already there. */
  method FillSlice(bitfield: array<byte>, ptr: nat, buf: seq<byte>, next: nat, behind: nat)
    requires ptr + SliceLength(next) <= bitfield.Length && AfterSlice(next, behind) <= |buf|
    requires forall k | ptr <= k < bitfield.Length :: bitfield[k] == 0
    modifies bitfield
    ensures bitfield[..] ==
            old(bitfield[..ptr]) + Slice(buf, next, behind) + old(bitfield[ptr + SliceLength(next)..])
  {
    var len := SliceLength(next);
    if next % 2 > 0 {
      if next / 2 % 2 > 0 {
        forall i | 0 <= i < len {
          bitfield[ptr + i] := 255;
        }
      }
    } else {
      forall i | 0 <= i < len {
        bitfield[ptr + i] := buf[behind + i];
      }
    }
  }
}
