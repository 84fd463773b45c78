/** The input queue as the program keeps it: a 120-slot ring with a head, a tail and a length, updated in place. */
module InputQueues {
  import opened Frames
  import opened QueueModel

  function PreviousFrame(offset: nat): (r: nat) {
    if offset == 0 then MAX_ROLLBACK_FRAMES - 1 else offset - 1
  }

  function Slot(frame: nat): (r: nat)
    ensures r < MAX_ROLLBACK_FRAMES
  {
    frame % MAX_ROLLBACK_FRAMES
  }

  /** Frames less than one ring apart never share a slot. */
  lemma SlotsDiffer(a: nat, b: nat)
    requires a < b < a + MAX_ROLLBACK_FRAMES
    ensures Slot(a) != Slot(b)
  {
  }

  lemma SlotStep(frame: nat, offset: nat)
    ensures (Slot(frame) + offset) % MAX_ROLLBACK_FRAMES == Slot(frame + offset)
    ensures 0 < frame ==> PreviousFrame(Slot(frame)) == Slot(frame - 1)
  {
  }

  /** Every slot holds the latest entry that went there; slots never written hold the default entry. */
  ghost predicate RingHolds<I>(zero: I, stream: seq<I>, slots: seq<FrameInput<I>>)
    requires |slots| == MAX_ROLLBACK_FRAMES
  {
    && (forall g | Max(0, |stream| - MAX_ROLLBACK_FRAMES) <= g < |stream| :: slots[Slot(g)] == FrameInput(g, stream[g]))
    && (forall j | |stream| <= j < MAX_ROLLBACK_FRAMES :: slots[j] == FrameInput(NULL_FRAME, zero))
  }

  /** Writing the slot of the next frame leaves the rest of the window alone. */
  lemma RingKept<I>(zero: I, stream: seq<I>, slots: seq<FrameInput<I>>, input: I)
    requires |slots| == MAX_ROLLBACK_FRAMES && RingHolds(zero, stream, slots)
    ensures RingHolds(zero, stream + [input], slots[Slot(|stream|) := FrameInput(|stream|, input)])
  {
    var stream', slots' := stream + [input], slots[Slot(|stream|) := FrameInput(|stream|, input)];
    forall g | Max(0, |stream'| - MAX_ROLLBACK_FRAMES) <= g < |stream'|
      ensures slots'[Slot(g)] == FrameInput(g, stream'[g])
    {
      if g < |stream| {
        SlotsDiffer(g, |stream|);
      }
    }
  }

  /** The slot before the head holds the latest entry, or the default one while there is none. */
  lemma LatestEntry<I>(zero: I, stream: seq<I>, slots: seq<FrameInput<I>>)
    requires |slots| == MAX_ROLLBACK_FRAMES && RingHolds(zero, stream, slots)
    ensures slots[PreviousFrame(Slot(|stream|))] ==
            FrameInput(|stream| - 1, if stream == [] then zero else stream[|stream| - 1])
  {
    if stream != [] {
      SlotStep(|stream|, 0);
      assert slots[Slot(|stream| - 1)] == FrameInput(|stream| - 1, stream[|stream| - 1]);
    }
  }

  lemma KeptEntry<I>(zero: I, stream: seq<I>, slots: seq<FrameInput<I>>, frame: nat)
    requires |slots| == MAX_ROLLBACK_FRAMES && RingHolds(zero, stream, slots)
    requires frame < |stream| <= frame + MAX_ROLLBACK_FRAMES
    ensures slots[Slot(frame)] == FrameInput(frame, stream[frame])
  {
  }

  /** The tail points at the oldest kept entry; once everything is discarded, at an old one or one never written. */
  lemma TailEntry<I>(zero: I, stream: seq<I>, slots: seq<FrameInput<I>>, discarded: nat)
    requires |slots| == MAX_ROLLBACK_FRAMES && RingHolds(zero, stream, slots)
    requires discarded <= |stream| <= discarded + MAX_ROLLBACK_FRAMES
    ensures discarded < |stream| ==> slots[Slot(discarded)].frame == discarded
    ensures discarded == |stream| ==> slots[Slot(discarded)].frame < discarded
  {
    var g := if discarded < |stream| then discarded else |stream| - MAX_ROLLBACK_FRAMES;
    if 0 <= g {
      assert Slot(g) == Slot(discarded);
      assert slots[Slot(g)] == FrameInput(g, stream[g]);
    }
  }

  class InputQueue<I(==)> {
    const zero: I
    var head: nat
    var tail: nat
    var length: nat
    var firstFrame: bool

    var lastUserAddedFrame: Frame
    var lastAddedFrame: Frame
    var firstIncorrectFrame: Frame
    var lastFrameRequested: Frame

    var frameDelay: nat

    const inputs: array<FrameInput<I>>
    var prediction: FrameInput<I>

    // The unbounded stream the ring is a window on, and how much of it has been given up.
    ghost var stream: seq<I>
    ghost var discarded: nat

    ghost predicate Valid()
      reads this, inputs
    {
      Stored() && (IsNull(prediction.frame) || prediction.frame == |stream|)
    }

    /** The ring holds the stream. */
    ghost predicate Stored()
      reads this, inputs
    {
      && inputs.Length == MAX_ROLLBACK_FRAMES
      && discarded <= |stream|
      && head == Slot(|stream|) && tail == Slot(discarded)
      && length == |stream| - discarded <= MAX_ROLLBACK_FRAMES
      && (firstFrame <==> stream == [])
      && lastAddedFrame == |stream| - 1
      && RingHolds(zero, stream, inputs[..])
    }

    ghost function Model(): Queue<I>
      reads this
    {
      Queue(zero, stream, discarded, frameDelay, lastUserAddedFrame,
            if IsNull(prediction.frame) then None else Some(prediction.input),
            firstIncorrectFrame, lastFrameRequested)
    }

    constructor (zero: I, frameDelay: nat)
      ensures Valid() && Model() == Fresh(zero, frameDelay) && fresh(inputs)
    {
      this.zero := zero;
      inputs := new FrameInput<I>[MAX_ROLLBACK_FRAMES](_ => FrameInput(NULL_FRAME, zero));
      head, tail, length, firstFrame := 0, 0, 0, true;
      this.frameDelay := frameDelay;
      lastUserAddedFrame, lastAddedFrame := NULL_FRAME, NULL_FRAME;
      firstIncorrectFrame, lastFrameRequested := NULL_FRAME, NULL_FRAME;
      prediction := FrameInput(NULL_FRAME, zero);
      stream, discarded := [], 0;
    }

    method SetFrameDelay(delay: nat)
      requires Valid()
      modifies this`frameDelay
      ensures Valid() && Model() == old(Model()).SetFrameDelay(delay)
    {
      frameDelay := delay;
    }

    /** Moves the tail past every frame up to `frame`. The caller must not name a frame before what is already gone. */
    method DiscardConfirmedFrames(frame: nat)
      requires Valid()
      requires discarded <= Model().DiscardLimit(frame) + 1
      modifies this`tail, this`length, this`discarded
      ensures Valid() && Model() == old(Model()).Discard(frame)
    {
      hide RingHolds, Slot;
      var limit: Frame := frame;
      if IsNull(lastFrameRequested) {
        limit := Min(limit, lastFrameRequested);
      }
      if limit >= lastAddedFrame {
        tail := head;
        length := 0;
        discarded := |stream|;
      } else {
        TailEntry(zero, stream, inputs[..], discarded);
        var offset := limit - inputs[tail].frame + 1;
        SlotStep(discarded, offset);
        tail := (tail + offset) % MAX_ROLLBACK_FRAMES;
        length := length - offset;
        discarded := limit + 1;
      }
    }

    method ResetPrediction(ghost frame: nat)
      requires Valid()
      requires IsNull(firstIncorrectFrame) || frame <= firstIncorrectFrame
      modifies this`prediction, this`firstIncorrectFrame, this`lastFrameRequested
      ensures Valid() && Model() == old(Model()).ResetPrediction()
    {
      prediction := prediction.(frame := NULL_FRAME);
      firstIncorrectFrame := NULL_FRAME;
      lastFrameRequested := NULL_FRAME;
    }

    /** Nobody fetches past a prediction error, or a frame that has been discarded. */
    method GetInput(frame: nat) returns (fetched: FetchedInput<I>)
      requires Valid()
      requires IsNull(firstIncorrectFrame) && discarded <= frame
      modifies this`lastFrameRequested, this`prediction
      ensures Valid() && (Model(), fetched) == old(Model()).GetInput(frame)
    {
      lastFrameRequested := frame;

      hide RingHolds, Slot;
      if IsNull(prediction.frame) {
        TailEntry(zero, stream, inputs[..], discarded);
        assert frame >= inputs[tail].frame;
        var offset := frame - inputs[tail].frame;
        if offset < length {
          SlotStep(discarded, offset);
          offset := (offset + tail) % MAX_ROLLBACK_FRAMES;
          KeptEntry(zero, stream, inputs[..], frame);
          var input := inputs[offset];
          assert input == inputs[..][Slot(frame)] && input.frame == frame;
          return Normal(input);
        }

        if frame == 0 {
          prediction := prediction.(input := zero);
        } else if IsNull(lastAddedFrame) {
          prediction := prediction.(input := zero);
        } else {
          LatestEntry(zero, stream, inputs[..]);
          prediction := inputs[PreviousFrame(head)];
        }
        prediction := prediction.(frame := prediction.frame + 1);
      }

      return Prediction(prediction.(frame := frame));
    }

    /** The caller leaves room for the input and for the padding in front of it. */
    method AddInput(input: FrameInput<I>) returns (newFrame: Frame)
      requires Valid() && !IsNull(input.frame)
      requires IsNull(lastUserAddedFrame) || input.frame == lastUserAddedFrame + 1
      requires input.frame + frameDelay + 1 - discarded <= MAX_ROLLBACK_FRAMES
      modifies this, inputs
      ensures Valid() && (Model(), newFrame) == old(Model()).AddInput(input)
    {
      hide RingHolds, Slot, Queue.PadTo, Queue.Push;
      lastUserAddedFrame := input.frame;
      newFrame := AdvanceQueueHead(input.frame);
      if !IsNull(newFrame) {
        AddDelayedInput(newFrame, input);
      }
    }

    method AddDelayedInput(frame: nat, input: FrameInput<I>)
      requires Valid() && frame == |stream| && length < MAX_ROLLBACK_FRAMES
      modifies this, inputs
      ensures Valid() && Model() == old(Model()).Push(input)
    {
      hide RingHolds, Slot;
      Store(frame, input);
      if !IsNull(prediction.frame) {
        assert frame == prediction.frame;
        if IsNull(firstIncorrectFrame) && prediction != input {
          firstIncorrectFrame := frame;
        }
        if prediction.frame == lastFrameRequested && IsNull(firstIncorrectFrame) {
          prediction := prediction.(frame := NULL_FRAME);
        } else {
          prediction := prediction.(frame := prediction.frame + 1);
        }
      }
    }

    /** Writes the entry at the head, under the frame it is for. */
    method Store(frame: nat, input: FrameInput<I>)
      requires Stored() && frame == |stream| && length < MAX_ROLLBACK_FRAMES
      modifies this`head, this`length, this`firstFrame, this`lastAddedFrame, this`stream, inputs
      ensures Stored() && stream == old(stream) + [input.input]
    {
      hide RingHolds, Slot;
      RingKept(zero, stream, inputs[..], input.input);
      LatestEntry(zero, stream, inputs[..]);
      SlotStep(frame, 1);
      assert IsNull(lastAddedFrame) || frame == lastAddedFrame + 1;
      assert frame == 0 || inputs[PreviousFrame(head)].frame == frame - 1;
      ghost var slots := inputs[..];
      inputs[head] := input.(frame := frame);
      assert inputs[..] == slots[Slot(frame) := FrameInput(frame, input.input)];
      head := (head + 1) % MAX_ROLLBACK_FRAMES;
      length := length + 1;
      firstFrame := false;
      lastAddedFrame := frame;
      stream := stream + [input.input];
    }

    /** Fills the gap between the last entry and the delayed frame, or reports that there is no room for it. */
    method AdvanceQueueHead(userFrame: nat) returns (frame: Frame)
      requires Valid()
      requires userFrame + frameDelay + 1 - discarded <= MAX_ROLLBACK_FRAMES
      modifies this, inputs
      ensures Valid() && discarded == old(discarded)
      ensures old(userFrame + frameDelay < |stream|) ==> frame == NULL_FRAME && Model() == old(Model())
      ensures old(userFrame + frameDelay >= |stream|) ==>
                && frame == old(userFrame + frameDelay) == |stream|
                && Model() == old(Model()).PadTo(frame)
    {
      hide RingHolds, Slot;
      LatestEntry(zero, stream, inputs[..]);
      var expectedFrame := if firstFrame then 0 else inputs[PreviousFrame(head)].frame + 1;
      frame := userFrame + frameDelay;

      if expectedFrame > frame {
        return NULL_FRAME;
      }

      PadStream(Model(), frame);
      while expectedFrame < frame
        invariant Valid()
        invariant expectedFrame == |stream| <= frame
        invariant discarded == old(discarded)
        invariant Model().PadTo(frame) == old(Model()).PadTo(frame)
      {
        LatestEntry(zero, stream, inputs[..]);
        AddDelayedInput(expectedFrame, inputs[PreviousFrame(head)]);
        expectedFrame := expectedFrame + 1;
      }
      LatestEntry(zero, stream, inputs[..]);
      assert frame == 0 || frame == inputs[PreviousFrame(head)].frame + 1;
    }

    method Len() returns (r: nat)
      requires Valid()
      ensures r == |Model().stream| - Model().discarded
    {
      r := length;
    }
  }
}
