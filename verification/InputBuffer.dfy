/**
 The two ends of input replication. The sender keeps every input that has not been acknowledged and sends all of them
 each time, as differences from zero, so every packet stands on its own.
 */
module InputBuffer {
  import opened Frames
  import opened Varint
  import opened Compression

  function Zero(stride: nat): (r: Value)
    ensures |r| == stride
  {
    Repeat(stride, 0)
  }

  // ---------------------------------------------------------------------------------------------
  // The sender's buffer
  // ---------------------------------------------------------------------------------------------

  datatype Encoder = Encoder(pending: seq<FrameInput<Value>>, lastAcked: Frame, lastEncoded: Frame)
  {
    function Push(input: FrameInput<Value>): Encoder {
      this.(pending := pending + [input])
    }

    /** Drops every input before `ack`. */
    function Acknowledge(ack: Frame): Encoder {
      var gone := Below(pending, ack);
      if gone == [] then this else this.(lastAcked := gone[|gone| - 1].frame, pending := From(pending, ack))
    }

    /** All pending inputs as one packet, with the frame of the first; nothing when there are none. */
    function Encode(stride: nat): (r: (Encoder, Frame, Encoded))
      requires Sized(Payloads(pending), stride)
    {
      if pending == [] then (this, lastAcked, Bytes([]))
      else
        var bits := Compression.Encode(Zero(stride), Payloads(pending));
        (if bits.Bytes? then this.(lastEncoded := pending[|pending| - 1].frame) else this, pending[0].frame, bits)
    }
  }

  function Payloads(entries: seq<FrameInput<Value>>): (r: seq<Value>)
    ensures |r| == |entries|
  {
    seq(|entries|, i requires 0 <= i < |entries| => entries[i].input)
  }

  function Below(entries: seq<FrameInput<Value>>, frame: Frame): seq<FrameInput<Value>> {
    if entries == [] then []
    else (if entries[0].frame < frame then [entries[0]] else []) + Below(entries[1..], frame)
  }

  function From(entries: seq<FrameInput<Value>>, frame: Frame): seq<FrameInput<Value>> {
    if entries == [] then []
    else (if entries[0].frame >= frame then [entries[0]] else []) + From(entries[1..], frame)
  }

  class InputEncoder {
    var pending: seq<FrameInput<Value>>
    var lastAcked: Frame
    var lastEncoded: Frame

    ghost function Model(): Encoder
      reads this
    {
      Encoder(pending, lastAcked, lastEncoded)
    }

    constructor ()
      ensures Model() == Encoder([], NULL_FRAME, NULL_FRAME)
    {
      pending, lastAcked, lastEncoded := [], NULL_FRAME, NULL_FRAME;
    }

    method Push(input: FrameInput<Value>)
      modifies this
      ensures Model() == old(Model()).Push(input)
    {
      pending := pending + [input];
    }

    method AcknowledgeFrame(ack: Frame)
      modifies this
      ensures Model() == old(Model()).Acknowledge(ack)
    {
      var gone := Below(pending, ack);
      if gone != [] {
        lastAcked := gone[|gone| - 1].frame;
        pending := From(pending, ack);
      }
    }

    method Encode(stride: nat) returns (startFrame: Frame, bits: Encoded)
      requires Sized(Payloads(pending), stride)
      modifies this`lastEncoded
      ensures (Model(), startFrame, bits) == old(Model()).Encode(stride)
    {
      if pending == [] {
        return lastAcked, Bytes([]);
      }
      startFrame := pending[0].frame;
      bits := EncodeValues(Zero(stride), Payloads(pending));
      if bits.Bytes? {
        lastEncoded := pending[|pending| - 1].frame;
      }
    }
  }

  // ---------------------------------------------------------------------------------------------
  // The receiver's cursor
  // ---------------------------------------------------------------------------------------------

  datatype Decoder = Decoder(lastDecoded: Frame)
  {
    /** The inputs of a packet that are new, numbered from its start frame; None when it cannot be decoded. */
    function Decode(stride: nat, startFrame: Frame, bits: seq<byte>): (Decoder, Option<seq<FrameInput<Value>>>)
      requires 0 < stride
    {
      match Compression.Decode(Zero(stride), bits)
      case Values(values) =>
        var current := if IsNull(lastDecoded) then startFrame - 1 else lastDecoded;
        var unseen := SkipTo(Number(startFrame, values), current);
        (if unseen == [] then this else Decoder(unseen[|unseen| - 1].frame), Some(unseen))
      case _ => (this, None)
    }
  }

  function Number(startFrame: Frame, values: seq<Value>): (r: seq<FrameInput<Value>>)
    ensures |r| == |values|
  {
    seq(|values|, i requires 0 <= i < |values| => FrameInput(startFrame + i, values[i]))
  }

  /** Skips leading entries up to `current`. */
  function SkipTo(entries: seq<FrameInput<Value>>, current: int): seq<FrameInput<Value>> {
    if entries == [] || entries[0].frame > current then entries else SkipTo(entries[1..], current)
  }

  class InputDecoder {
    var lastDecoded: Frame

    ghost function Model(): Decoder
      reads this
    {
      Decoder(lastDecoded)
    }

    constructor ()
      ensures Model() == Decoder(NULL_FRAME)
    {
      lastDecoded := NULL_FRAME;
    }

    /** Every integer in the packet must be complete, and the packet hold whole values. */
    method Decode(stride: nat, startFrame: Frame, bits: seq<byte>) returns (inputs: Option<seq<FrameInput<Value>>>)
      requires 0 < stride && Bitfield.DecodeLen(bits, 0) != Bitfield.Truncated && WholeValues(bits, stride)
      modifies this
      ensures (Model(), inputs) == old(Model()).Decode(stride, startFrame, bits)
    {
      var decoded := DecodeValues(Zero(stride), bits);
      if !decoded.Values? {
        return None;
      }
      var current := if IsNull(lastDecoded) then startFrame - 1 else lastDecoded;
      var entries := SkipTo(Number(startFrame, decoded.values), current);
      if entries != [] {
        lastDecoded := entries[|entries| - 1].frame;
      }
      return Some(entries);
    }
  }

  // ---------------------------------------------------------------------------------------------
  // One direction of a connection
  // ---------------------------------------------------------------------------------------------

  /** The entries of frames lo..hi of what the sender has pushed. */
  function Slice(sent: seq<Value>, lo: nat, hi: nat): (r: seq<FrameInput<Value>>)
    requires lo <= hi <= |sent|
  {
    seq(hi - lo, i requires 0 <= i < hi - lo => FrameInput(lo + i, sent[lo + i]))
  }

  /**
   Sender and receiver agree about the past: what is pending is a suffix of everything sent that reaches back at least
   to the last frame the receiver took.
   */
  ghost predicate Linked(sent: seq<Value>, encoder: Encoder, decoder: Decoder) {
    && decoder.lastDecoded < |sent|
    && |encoder.pending| <= |sent|
    && var first := |sent| - |encoder.pending|;
       && first <= Max(0, decoder.lastDecoded)
       && encoder.pending == Slice(sent, first, |sent|)
       && (encoder.pending == [] ==> sent == [])
  }

  /** A packet holds a stretch of what was sent that starts no later than the receiver's next frame. */
  ghost predicate Genuine(stride: nat, sent: seq<Value>, decoder: Decoder, start: Frame, bits: seq<byte>)
    requires Sized(sent, stride)
  {
    bits == [] ||
    exists end | 0 <= start < end <= |sent| && start <= Max(0, decoder.lastDecoded) ::
      Carries(stride, sent, start, end, bits)
  }

  ghost predicate Carries(stride: nat, sent: seq<Value>, start: nat, end: nat, bits: seq<byte>)
    requires Sized(sent, stride) && start <= end <= |sent|
  {
    Compression.Encode(Zero(stride), sent[start..end]) == Bytes(bits)
  }

  lemma PushKeepsLinked(sent: seq<Value>, encoder: Encoder, decoder: Decoder, v: Value)
    requires Linked(sent, encoder, decoder)
    ensures Linked(sent + [v], encoder.Push(FrameInput(|sent|, v)), decoder)
  {
    var first := |sent| - |encoder.pending|;
    assert Slice(sent + [v], first, |sent| + 1) == Slice(sent, first, |sent|) + [FrameInput(|sent|, v)];
  }

  lemma SliceTail(sent: seq<Value>, lo: nat, hi: nat)
    requires lo < hi <= |sent|
    ensures var s := Slice(sent, lo, hi);
            |s| == hi - lo && s[0].frame == lo && s[1..] == Slice(sent, lo + 1, hi) && s == [s[0]] + s[1..]
  {
  }

  /** Frame numbers in a slice rise one by one, so a cut falls in one place. */
  lemma {:induction false} CutSlice(sent: seq<Value>, lo: nat, hi: nat, frame: nat)
    requires lo <= hi <= |sent| && frame <= hi
    ensures From(Slice(sent, lo, hi), frame) == Slice(sent, if lo <= frame then frame else lo, hi)
    ensures Below(Slice(sent, lo, hi), frame) == if lo <= frame then Slice(sent, lo, frame) else []
    decreases hi - lo
  {
    if lo < hi {
      var all, rest := Slice(sent, lo, hi), Slice(sent, lo + 1, hi);
      CutSlice(sent, lo + 1, hi, frame);
      SliceTail(sent, lo, hi);
      if lo < frame {
        SliceTail(sent, lo, frame);
      }
      hide Slice;
      assert From(all, frame) == (if frame <= lo then [all[0]] else []) + From(rest, frame);
      assert Below(all, frame) == (if lo < frame then [all[0]] else []) + Below(rest, frame);
    }
  }

  /** An acknowledgement of a frame the receiver has taken never drops one it still needs. */
  lemma AcknowledgeKeepsLinked(sent: seq<Value>, encoder: Encoder, decoder: Decoder, ack: Frame)
    requires Linked(sent, encoder, decoder) && ack <= decoder.lastDecoded
    ensures Linked(sent, encoder.Acknowledge(ack), decoder)
    ensures var (first, r) := (|sent| - |encoder.pending|, encoder.Acknowledge(ack));
            && |r.pending| == |sent| - Max(first, ack) && r.lastEncoded == encoder.lastEncoded
            && r.lastAcked == if first < ack then ack - 1 else encoder.lastAcked
  {
    hide Below, From;
    var first := |sent| - |encoder.pending|;
    if IsNull(ack) {
      NothingBelow(encoder.pending, ack);
    } else {
      CutSlice(sent, first, |sent|, ack);
    }
  }

  lemma {:induction false} NothingBelow(entries: seq<FrameInput<Value>>, frame: Frame)
    requires IsNull(frame)
    ensures Below(entries, frame) == []
  {
    if entries != [] {
      NothingBelow(entries[1..], frame);
    }
  }

  lemma EncodeKeepsLinked(stride: nat, sent: seq<Value>, encoder: Encoder, decoder: Decoder)
    requires Linked(sent, encoder, decoder) && Sized(sent, stride)
    ensures Sized(Payloads(encoder.pending), stride)
    ensures var (encoder', start, bits) := encoder.Encode(stride);
            && Linked(sent, encoder', decoder) && encoder'.pending == encoder.pending
            && encoder'.lastAcked == encoder.lastAcked
            && (encoder'.lastEncoded == if sent != [] && bits.Bytes? then |sent| - 1 else encoder.lastEncoded)
            && (start == if sent == [] then encoder.lastAcked else |sent| - |encoder.pending|)
            && (bits.Bytes? ==> Genuine(stride, sent, decoder, start, bits.bytes))
            && (bits.Bytes? <==> |encoder.pending| == 0 || |encoder.pending| * stride < MAX_BUFFER_SIZE)
  {
    var first := |sent| - |encoder.pending|;
    assert Payloads(encoder.pending) == sent[first..];
    if encoder.pending != [] {
      assert sent[first..] == sent[first..|sent|];
      var (encoder', start, bits) := encoder.Encode(stride);
      if bits.Bytes? {
        assert Carries(stride, sent, first, |sent|, bits.bytes);
      }
    }
  }

  lemma WirePrints()
    ensures Bitfield.Print(Bitfield.Literal([164, 1])) == [4, 164, 1] && Bitfield.Print(Bitfield.Run(0, 2)) == [9]
    ensures Bitfield.Print(Bitfield.Literal([57, 5])) == [4, 57, 5] && Bitfield.Print(Bitfield.Run(0, 794)) == [233, 24]
    ensures Bitfield.PrintAll(Bitfield.Segments([])) == []
  {
    assert Varint.Encode(3177) == [233] + Varint.Encode(24);
  }

  /** A hundred equal inputs of eight bytes, on the wire: the value once, and then a run of zeros. */
  lemma {:induction false} EqualInputsOnTheWire(encoder: Encoder, v: Value)
    requires v == [164, 1, 0, 0, 57, 5, 0, 0]
    requires |encoder.pending| == 100 && forall i | 0 <= i < 100 :: encoder.pending[i] == FrameInput(i, v)
    ensures Sized(Payloads(encoder.pending), 8)
    ensures encoder.Encode(8) ==
            (encoder.(lastEncoded := 99), 0, Bytes([4, 164, 1, 9, 4, 57, 5, 233, 24]))
  {
    var n := |encoder.pending|;
    assert Payloads(encoder.pending) == Repeat(n, v);
    EqualValuesDelta(v, n);
    assert Overflow(n, |v|).None?;
    EqualDeltaOnTheWire(v, (n - 1) * |v|);
    hide Bitfield.Encode, Delta, Overflow;
  }

  lemma {:induction false} EqualDeltaOnTheWire(v: Value, k: nat)
    requires v == [164, 1, 0, 0, 57, 5, 0, 0] && k == 792
    ensures Bitfield.Encode(v + Repeat(k, 0)) == [4, 164, 1, 9, 4, 57, 5, 233, 24]
  {
    WirePrints();
    hide Bitfield.Print, Bitfield.PrintAll, Bitfield.Segments;
    var zeros: seq<byte> := Repeat(k + 2, 0) + [];
    Bitfield.EncodeRun(0, k + 2, [], [], [233, 24]);
    Bitfield.EncodeLiteral([57, 5], zeros, [233, 24], [4, 57, 5, 233, 24]);
    Bitfield.EncodeRun(0, 2, [57, 5] + zeros, [4, 57, 5, 233, 24], [9, 4, 57, 5, 233, 24]);
    Bitfield.EncodeLiteral([164, 1], Repeat(2, 0) + ([57, 5] + zeros), [9, 4, 57, 5, 233, 24],
                           [4, 164, 1, 9, 4, 57, 5, 233, 24]);
    assert v + Repeat(k, 0) == [164, 1] + (Repeat(2, 0) + ([57, 5] + zeros));
  }

  lemma {:induction false} SkipToSlice(sent: seq<Value>, lo: nat, hi: nat, current: int)
    requires lo <= hi <= |sent|
    ensures SkipTo(Slice(sent, lo, hi), current) ==
            Slice(sent, if lo <= current then (if current < hi then current + 1 else hi) else lo, hi)
    decreases hi - lo
  {
    if lo < hi && lo <= current {
      assert Slice(sent, lo, hi)[1..] == Slice(sent, lo + 1, hi);
      SkipToSlice(sent, lo + 1, hi, current);
    }
  }

  /** A packet of frames start..end moves the receiver to the end, and gives it exactly what it lacked. */
  lemma DecodeCarried(stride: nat, sent: seq<Value>, decoder: Decoder, start: nat, end: nat, bits: seq<byte>)
    requires 0 < stride && Sized(sent, stride) && decoder.lastDecoded < |sent|
    requires start < end <= |sent| && start <= Max(0, decoder.lastDecoded)
    ensures var last := Max(decoder.lastDecoded, end - 1);
            Carries(stride, sent, start, end, bits) ==>
              decoder.Decode(stride, start, bits) ==
              (Decoder(last), Some(Slice(sent, decoder.lastDecoded + 1, last + 1)))
  {
    hide Compression.Decode, Compression.Encode, SkipTo;
    if Carries(stride, sent, start, end, bits) {
      Compression.RoundTrip(Zero(stride), sent[start..end]);
      assert Number(start, sent[start..end]) == Slice(sent, start, end);
      var current := if IsNull(decoder.lastDecoded) then start - 1 else decoder.lastDecoded;
      SkipToSlice(sent, start, end, current);
      var unseen := SkipTo(Number(start, sent[start..end]), current);
      assert unseen == Slice(sent, decoder.lastDecoded + 1, Max(decoder.lastDecoded, end - 1) + 1);
    }
  }

  lemma DecodeNothing(stride: nat, decoder: Decoder, start: Frame)
    requires 0 < stride
    ensures decoder.Decode(stride, start, []) == (decoder, Some([]))
  {
    assert Bitfield.DecodeLen([], 0) == Bitfield.Ok(0) && Bitfield.DecodeFrom([], 0) == [];
    assert Compression.Decode(Zero(stride), []) == Values([]);
  }

  /** A genuine packet meets what the decoder demands. */
  lemma {:induction false} GenuineIsSound(
    stride: nat, sent: seq<Value>, decoder: Decoder, start: Frame, bits: seq<byte>)
    requires 0 < stride && Sized(sent, stride) && Genuine(stride, sent, decoder, start, bits)
    ensures Bitfield.DecodeLen(bits, 0) != Bitfield.Truncated && WholeValues(bits, stride)
  {
    if bits != [] {
      var end :| 0 <= start < end <= |sent| && start <= Max(0, decoder.lastDecoded)
                 && Carries(stride, sent, start, end, bits);
      EncodedIsWhole(Zero(stride), sent[start..end]);
      Bitfield.RoundTrip(Delta(Zero(stride), sent[start..end]));
      hide Bitfield.DecodeLen, Bitfield.Encode, Delta, Overflow, WholeValues;
    }
  }

  /** What a receiver makes of a genuine packet: exactly the frames it lacks, in order and without a gap. */
  lemma {:induction false} DecodeDelivers(
    stride: nat, sent: seq<Value>, decoder: Decoder, start: Frame, bits: seq<byte>)
    requires 0 < stride && Sized(sent, stride) && decoder.lastDecoded < |sent|
    requires Genuine(stride, sent, decoder, start, bits)
    ensures var (decoder', batch) := decoder.Decode(stride, start, bits);
            && decoder.lastDecoded <= decoder'.lastDecoded < |sent|
            && batch == Some(Slice(sent, decoder.lastDecoded + 1, decoder'.lastDecoded + 1))
  {
    if bits == [] {
      DecodeNothing(stride, decoder, start);
      assert Slice(sent, decoder.lastDecoded + 1, decoder.lastDecoded + 1) == [];
    } else {
      var end :| 0 <= start < end <= |sent| && start <= Max(0, decoder.lastDecoded)
                 && Carries(stride, sent, start, end, bits);
      DecodeCarried(stride, sent, decoder, start, end, bits);
    }
  }

  // ---------------------------------------------------------------------------------------------
  // Runs over a network that loses, duplicates and reorders
  // ---------------------------------------------------------------------------------------------

  datatype Packet = Packet(start: Frame, bits: seq<byte>)

  /** Nothing ever leaves the network, and anything in it may arrive at any time, any number of times, or never. */
  datatype Link = Link(
    sent: seq<Value>,
    encoder: Encoder,
    decoder: Decoder,
    packets: set<Packet>,
    acks: set<Frame>,
    delivered: seq<FrameInput<Value>>)

  datatype Step =
    | PushInput(value: Value)      // a new local input, at the next frame
    | SendPending                  // first transmission or resend: all that is pending
    | PacketArrives(packet: Packet)
    | SendAck                      // on its own or along with a packet of the other direction
    | AckArrives(frame: Frame)

  ghost predicate Possible(stride: nat, l: Link, step: Step) {
    match step
    case PushInput(value) => |value| == stride
    case SendPending => Sized(Payloads(l.encoder.pending), stride) && l.encoder.Encode(stride).2.Bytes?
    case PacketArrives(packet) => packet in l.packets
    case SendAck => true
    case AckArrives(frame) => frame in l.acks
  }

  function Next(stride: nat, l: Link, step: Step): Link
    requires 0 < stride
    requires step.SendPending? ==> Sized(Payloads(l.encoder.pending), stride)
  {
    match step
    case PushInput(value) =>
      l.(sent := l.sent + [value], encoder := l.encoder.Push(FrameInput(|l.sent|, value)))
    case SendPending =>
      var (encoder, start, bits) := l.encoder.Encode(stride);
      if bits.Bytes? then l.(encoder := encoder, packets := l.packets + {Packet(start, bits.bytes)})
      else l.(encoder := encoder)
    case PacketArrives(packet) =>
      var (decoder, batch) := l.decoder.Decode(stride, packet.start, packet.bits);
      (match batch
       case None => l
       case Some(inputs) => l.(decoder := decoder, delivered := l.delivered + inputs))
    case SendAck => l.(acks := l.acks + {l.decoder.lastDecoded})
    case AckArrives(frame) => l.(encoder := l.encoder.Acknowledge(frame))
  }

  const IDLE: Link := Link([], Encoder([], NULL_FRAME, NULL_FRAME), Decoder(NULL_FRAME), {}, {}, [])

  ghost predicate LinkInvariant(stride: nat, l: Link) {
    && Sized(l.sent, stride)
    && Linked(l.sent, l.encoder, l.decoder)
    && (forall p | p in l.packets :: Genuine(stride, l.sent, l.decoder, p.start, p.bits))
    && (forall a | a in l.acks :: a <= l.decoder.lastDecoded)
    && l.delivered == Slice(l.sent, 0, l.decoder.lastDecoded + 1)
  }

  /** A packet stays genuine while the sender sends more and the receiver moves on. */
  lemma GenuineStays(
    stride: nat, sent: seq<Value>, sent': seq<Value>, decoder: Decoder, decoder': Decoder, start: Frame,
    bits: seq<byte>)
    requires Sized(sent, stride) && Sized(sent', stride) && sent <= sent'
    requires decoder.lastDecoded <= decoder'.lastDecoded
    requires Genuine(stride, sent, decoder, start, bits)
    ensures Genuine(stride, sent', decoder', start, bits)
  {
    if bits != [] {
      var end :| 0 <= start < end <= |sent| && start <= Max(0, decoder.lastDecoded)
                 && Carries(stride, sent, start, end, bits);
      assert sent[start..end] == sent'[start..end];
      assert Carries(stride, sent', start, end, bits);
    }
  }

  lemma PacketsStayGenuine(stride: nat, l: Link, l': Link)
    requires LinkInvariant(stride, l) && Sized(l'.sent, stride)
    requires l.sent <= l'.sent && l.decoder.lastDecoded <= l'.decoder.lastDecoded
    ensures forall p | p in l.packets :: Genuine(stride, l'.sent, l'.decoder, p.start, p.bits)
  {
    forall p | p in l.packets
      ensures Genuine(stride, l'.sent, l'.decoder, p.start, p.bits)
    {
      GenuineStays(stride, l.sent, l'.sent, l.decoder, l'.decoder, p.start, p.bits);
    }
  }

  lemma {:induction false} ArrivalKeepsInvariant(stride: nat, l: Link, packet: Packet)
    requires 0 < stride && LinkInvariant(stride, l) && packet in l.packets
    ensures LinkInvariant(stride, Next(stride, l, PacketArrives(packet)))
  {
    hide Genuine, Decoder.Decode;
    DecodeDelivers(stride, l.sent, l.decoder, packet.start, packet.bits);
    var l' := Next(stride, l, PacketArrives(packet));
    PacketsStayGenuine(stride, l, l');
    assert l'.delivered == Slice(l.sent, 0, l'.decoder.lastDecoded + 1);
  }

  lemma {:induction false} NextKeepsInvariant(stride: nat, l: Link, step: Step)
    requires 0 < stride && LinkInvariant(stride, l) && Possible(stride, l, step)
    ensures LinkInvariant(stride, Next(stride, l, step))
  {
    hide Genuine;
    match step {
      case PushInput(value) =>
        PushKeepsLinked(l.sent, l.encoder, l.decoder, value);
        PacketsStayGenuine(stride, l, Next(stride, l, step));
      case SendPending =>
        EncodeKeepsLinked(stride, l.sent, l.encoder, l.decoder);
      case PacketArrives(packet) =>
        ArrivalKeepsInvariant(stride, l, packet);
      case SendAck =>
      case AckArrives(frame) =>
        AcknowledgeKeepsLinked(l.sent, l.encoder, l.decoder, frame);
    }
  }

  ghost predicate PossibleRun(stride: nat, l: Link, steps: seq<Step>)
    requires 0 < stride
    decreases |steps|
  {
    steps != [] ==> Possible(stride, l, steps[0]) && PossibleRun(stride, Next(stride, l, steps[0]), steps[1..])
  }

  ghost function RunLink(stride: nat, l: Link, steps: seq<Step>): Link
    requires 0 < stride && PossibleRun(stride, l, steps)
    decreases |steps|
  {
    if steps == [] then l else RunLink(stride, Next(stride, l, steps[0]), steps[1..])
  }

  lemma {:induction false} RunKeepsInvariant(stride: nat, l: Link, steps: seq<Step>)
    requires 0 < stride && LinkInvariant(stride, l) && PossibleRun(stride, l, steps)
    ensures LinkInvariant(stride, RunLink(stride, l, steps))
    decreases |steps|
  {
    if steps != [] {
      NextKeepsInvariant(stride, l, steps[0]);
      RunKeepsInvariant(stride, Next(stride, l, steps[0]), steps[1..]);
    }
  }

  /**
   Exactly-once, in-order, gap-free delivery: over any run, what the receiver has emitted in all its batches together is
   exactly the first frames of what the sender has pushed, each once, in order, up to the last frame decoded.
   */
  lemma {:induction false} DeliveryIsExactlyOnce(stride: nat, steps: seq<Step>)
    requires 0 < stride && PossibleRun(stride, IDLE, steps)
    ensures var l := RunLink(stride, IDLE, steps);
            && l.decoder.lastDecoded < |l.sent|
            && |l.delivered| == l.decoder.lastDecoded + 1
            && forall i | 0 <= i < |l.delivered| :: l.delivered[i] == FrameInput(i, l.sent[i])
  {
    RunKeepsInvariant(stride, IDLE, steps);
  }
}
