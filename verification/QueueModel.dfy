/**
 One player's input queue without its ring: an unbounded stream of inputs, indexed by frame, with the prediction being
 handed out and the first frame caught predicting wrongly. `InputQueue` refines it.
 */
module QueueModel {
  import opened Frames

  datatype Queue<I(==)> = Queue(
    zero: I,
    stream: seq<I>,         // padding included: frame g plays stream[g]
    discarded: nat,         // frames below this one can no longer be fetched
    delay: nat,
    lastUser: Frame,
    guess: Option<I>,       // the value being predicted for frame |stream| and later
    firstIncorrect: Frame,
    lastRequested: Frame)
  {
    /** The latest input of the stream, on which every new prediction is based. */
    function Last(): I {
      if stream == [] then zero else stream[|stream| - 1]
    }

    /** What a client with all of this queue's knowledge and no history would play at frame g. */
    function Belief(g: nat): I {
      if g < |stream| then stream[g] else Last()
    }

    /** Appends one entry. The comparison with the guess includes the number the entry arrived with. */
    function Push(entry: FrameInput<I>): Queue<I> {
      var frame := |stream|;
      var wrong := if guess.Some? && IsNull(firstIncorrect) && FrameInput(frame, guess.value) != entry
                   then frame else firstIncorrect;
      var settled := frame == lastRequested && IsNull(wrong);
      this.(stream := stream + [entry.input], firstIncorrect := wrong, guess := if settled then None else guess)
    }

    /** Repeats the latest entry, old frame number and all, until `frame` is the next free one. */
    function PadTo(frame: nat): Queue<I>
      decreases frame - |stream|
    {
      if frame <= |stream| then this else Push(FrameInput(|stream| - 1, Last())).PadTo(frame)
    }

    function AddInput(user: FrameInput<I>): (Queue<I>, Frame)
      requires !IsNull(user.frame)
    {
      var q := this.(lastUser := user.frame);
      var frame := user.frame + delay;
      if frame < |stream| then (q, NULL_FRAME) else (q.PadTo(frame).Push(user), frame)
    }

    function GetInput(frame: nat): (Queue<I>, FetchedInput<I>) {
      var q := this.(lastRequested := frame);
      if guess.None? && frame < |stream| then
        (q, Normal(FrameInput(frame, stream[frame])))
      else
        var value := if guess.Some? then guess.value else Last();
        (q.(guess := Some(value)), Prediction(FrameInput(frame, value)))
    }

    function ResetPrediction(): Queue<I> {
      this.(guess := None, firstIncorrect := NULL_FRAME, lastRequested := NULL_FRAME)
    }

    /** The last frame a discard up to `frame` really drops: none while nothing has been requested. */
    function DiscardLimit(frame: nat): Frame {
      if IsNull(lastRequested) then Min(frame, lastRequested) else frame
    }

    function Discard(frame: nat): Queue<I> {
      var limit := DiscardLimit(frame);
      this.(discarded := if limit >= |stream| - 1 then |stream| else limit + 1)
    }

    function SetFrameDelay(delay': nat): Queue<I> {
      this.(delay := delay')
    }

    /**
     `handed` records what was handed out for each frame. The queue's account of it is sound: with no error flagged
     all of it agrees with what the queue now believes, and with an error at frame e everything below e was right.
     */
    ghost predicate Sound(handed: map<int, I>) {
      && (forall g | g in handed :: 0 <= g)
      && (guess.Some? ==> forall g | g in handed :: g <= lastRequested)
      && if IsNull(firstIncorrect) then
           && (forall g | g in handed :: handed[g] == Belief(g))
           && (guess.Some? ==> guess.value == Last() && |stream| <= lastRequested)
         else
           && guess.Some?
           && firstIncorrect <= lastRequested
           && firstIncorrect < |stream|
           && (forall g | g in handed && g < firstIncorrect :: handed[g] == stream[g])
    }

    /** Whatever was handed out ahead of the stream is being watched by a guess. */
    ghost predicate Watched(handed: map<int, I>) {
      guess.None? ==> forall g | g in handed :: g < |stream|
    }

    /** A flagged frame was handed out, and wrongly so; no frame the guess covers has been skipped. */
    ghost predicate Exact(handed: map<int, I>) {
      && (!IsNull(firstIncorrect) ==>
            firstIncorrect < |stream| && firstIncorrect in handed && handed[firstIncorrect] != stream[firstIncorrect])
      && (IsNull(firstIncorrect) && guess.Some? ==> forall g | |stream| <= g <= lastRequested :: g in handed)
    }
  }

  function Fresh<I>(zero: I, delay: nat): Queue<I> {
    Queue(zero, [], 0, delay, NULL_FRAME, None, NULL_FRAME, NULL_FRAME)
  }

  // ---------------------------------------------------------------------------------------------
  // The stream
  // ---------------------------------------------------------------------------------------------

  /** Padding repeats the last input, the default one if there is none, and touches only stream and prediction. */
  lemma {:induction false} PadStream<I>(q: Queue<I>, frame: nat)
    ensures var latest := if q.stream == [] then q.zero else q.stream[|q.stream| - 1];
            q.PadTo(frame).stream ==
            q.stream + Repeat(if frame <= |q.stream| then 0 else frame - |q.stream|, latest)
    ensures var p := q.PadTo(frame);
            p == q.(stream := p.stream, guess := p.guess, firstIncorrect := p.firstIncorrect)
    decreases frame - |q.stream|
  {
    if |q.stream| < frame {
      PadStream(q.Push(FrameInput(|q.stream| - 1, q.Last())), frame);
    }
  }

  /**
   Adding an input drops it when its delayed frame already exists; otherwise the last value fills the gap up to that
   frame and the input lands exactly there. Nothing already in the stream changes.
   */
  lemma {:induction false} AddInputStream<I>(q: Queue<I>, user: FrameInput<I>)
    requires !IsNull(user.frame)
    ensures var (q', frame) := q.AddInput(user);
            var latest := if q.stream == [] then q.zero else q.stream[|q.stream| - 1];
            if user.frame + q.delay < |q.stream| then
              frame == NULL_FRAME && q' == q.(lastUser := user.frame)
            else
              && frame == user.frame + q.delay == |q'.stream| - 1
              && q'.stream == q.stream + Repeat(frame - |q.stream|, latest) + [user.input]
              && q' == q.(stream := q'.stream, lastUser := user.frame,
                          guess := q'.guess, firstIncorrect := q'.firstIncorrect)
  {
    if |q.stream| <= user.frame + q.delay {
      PadStream(q.(lastUser := user.frame), user.frame + q.delay);
    }
  }

  /** What a queue with a constant delay holds after the raw inputs of frames 0, 1, ... */
  function Delayed<I>(zero: I, delay: nat, raw: seq<I>): seq<I> {
    if raw == [] then [] else Repeat(delay, zero) + raw
  }

  /** With a constant delay d the stream is d zeros followed by the raw inputs. */
  lemma {:induction false} ConstantDelay<I>(q: Queue<I>, raw: seq<I>, v: I)
    requires q.stream == Delayed(q.zero, q.delay, raw)
    ensures var (q', frame) := q.AddInput(FrameInput(|raw|, v));
            frame == |raw| + q.delay && q'.stream == Delayed(q.zero, q.delay, raw + [v])
  {
    AddInputStream(q, FrameInput(|raw|, v));
  }

  // ---------------------------------------------------------------------------------------------
  // Prediction and misprediction
  // ---------------------------------------------------------------------------------------------

  lemma {:induction false} PushIsSound<I>(q: Queue<I>, handed: map<int, I>, entry: FrameInput<I>)
    requires q.Sound(handed) && q.Watched(handed)
    ensures q.Push(entry).Sound(handed) && q.Push(entry).Watched(handed)
  {
  }

  lemma {:induction false} PadIsSound<I>(q: Queue<I>, handed: map<int, I>, frame: nat)
    requires q.Sound(handed) && q.Watched(handed)
    ensures q.PadTo(frame).Sound(handed) && q.PadTo(frame).Watched(handed)
    decreases frame - |q.stream|
  {
    if |q.stream| < frame {
      var entry := FrameInput(|q.stream| - 1, q.Last());
      PushIsSound(q, handed, entry);
      PadIsSound(q.Push(entry), handed, frame);
    }
  }

  /** Arriving inputs, whatever their delay, keep the account of everything handed out so far sound. */
  lemma {:induction false} AddIsSound<I>(q: Queue<I>, handed: map<int, I>, user: FrameInput<I>)
    requires !IsNull(user.frame)
    requires q.Sound(handed) && q.Watched(handed)
    ensures q.AddInput(user).0.Sound(handed) && q.AddInput(user).0.Watched(handed)
  {
    var q1 := q.(lastUser := user.frame);
    if |q.stream| <= user.frame + q.delay {
      PadIsSound(q1, handed, user.frame + q.delay);
      PushIsSound(q1.PadTo(user.frame + q.delay), handed, user);
    }
  }

  /**
   With requests never going back and no error flagged, a fetch answers with the input there is for the frame, or else
   predicts the latest input, the default one if there is none.
   */
  lemma {:induction false} GetIsSound<I>(q: Queue<I>, handed: map<int, I>, frame: nat)
    requires q.Sound(handed) && IsNull(q.firstIncorrect)
    requires forall g | g in handed :: g <= frame
    requires q.lastRequested <= frame
    ensures var (q', r) := q.GetInput(frame);
            && r == (if frame < |q.stream| then Normal(FrameInput(frame, q.stream[frame]))
                     else if q.stream != [] then Prediction(FrameInput(frame, q.stream[|q.stream| - 1]))
                     else Prediction(FrameInput(frame, q.zero)))
            && q'.Sound(handed[frame := r.entry.input])
            && q'.Watched(handed[frame := r.entry.input])
  {
  }

  /** Resetting forgets what was handed out from `frame` on and trusts the rest. */
  lemma {:induction false} ResetIsSound<I>(q: Queue<I>, handed: map<int, I>, kept: map<int, I>, frame: nat)
    requires q.Sound(handed)
    requires IsNull(q.firstIncorrect) || frame <= q.firstIncorrect
    requires forall g | g in kept :: g in handed && g < frame && kept[g] == handed[g]
    ensures q.ResetPrediction().Sound(kept)
  {
  }

  /** A reset leaves no trace of what has been asked for: fetching first makes no difference, and a new queue none. */
  lemma ResetForgets<I>(q: Queue<I>, frame: nat, zero: I, delay: nat)
    ensures q.GetInput(frame).0.ResetPrediction() == q.ResetPrediction()
    ensures Fresh(zero, delay).ResetPrediction() == Fresh(zero, delay)
    ensures var r := q.ResetPrediction();
            && r.stream == q.stream && r.zero == q.zero && r.discarded == q.discarded && r.delay == q.delay
            && r.lastUser == q.lastUser
  {
  }

  // Runs of one queue.

  datatype Op<I> =
    | Add(user: FrameInput<I>)
    | Get(frame: nat)
    | Reset(frame: nat)
    | Discard(frame: nat)
    | SetDelay(delay: nat)

  /** The caller's side of the contract: never fetch past an error, never go back without a reset. */
  ghost predicate Permitted<I(!new)>(q: Queue<I>, handed: map<int, I>, op: Op<I>) {
    match op
    case Add(user) => !IsNull(user.frame)
    case Get(frame) => IsNull(q.firstIncorrect) && q.lastRequested <= frame && q.discarded <= frame
    case Reset(frame) => IsNull(q.firstIncorrect) || frame <= q.firstIncorrect
    case Discard(frame) => true
    case SetDelay(_) => true
  }

  /** One operation; the record of what was handed out starts afresh at every reset. */
  ghost function After<I(!new)>(q: Queue<I>, handed: map<int, I>, op: Op<I>): (Queue<I>, map<int, I>)
    requires Permitted(q, handed, op)
  {
    match op
    case Add(user) => (q.AddInput(user).0, handed)
    case Get(frame) => var (q', r) := q.GetInput(frame); (q', handed[frame := r.entry.input])
    case Reset(frame) => (q.ResetPrediction(), map[])
    case Discard(frame) => (q.Discard(frame), handed)
    case SetDelay(delay) => (q.SetFrameDelay(delay), handed)
  }

  /** The invariant of a run: a sound account of requests that never went back. */
  ghost predicate Account<I>(q: Queue<I>, handed: map<int, I>) {
    q.Sound(handed) && q.Watched(handed) && forall g | g in handed :: g <= q.lastRequested
  }

  lemma {:induction false} StepKeepsAccount<I(!new)>(q: Queue<I>, handed: map<int, I>, op: Op<I>)
    requires Account(q, handed) && Permitted(q, handed, op)
    ensures var (q', handed') := After(q, handed, op); Account(q', handed')
  {
    match op {
      case Add(user) => AddIsSound(q, handed, user); AddInputStream(q, user);
      case Get(frame) => GetIsSound(q, handed, frame);
      case Reset(frame) => ResetIsSound(q, handed, map[], frame);
      case Discard(_) =>
      case SetDelay(_) =>
    }
  }

  ghost predicate PermittedRun<I(!new)>(q: Queue<I>, handed: map<int, I>, ops: seq<Op<I>>)
    decreases |ops|
  {
    ops != [] ==>
      && Permitted(q, handed, ops[0])
      && var (q', handed') := After(q, handed, ops[0]); PermittedRun(q', handed', ops[1..])
  }

  ghost function Final<I(!new)>(q: Queue<I>, handed: map<int, I>, ops: seq<Op<I>>): (Queue<I>, map<int, I>)
    requires PermittedRun(q, handed, ops)
    decreases |ops|
  {
    if ops == [] then (q, handed)
    else var (q', handed') := After(q, handed, ops[0]); Final(q', handed', ops[1..])
  }

  /**
   Over any legal run, every value handed out since the last reset for a frame that has since been confirmed is the
   confirmed one, up to the first flagged frame if there is one; and a flagged frame was requested.
   */
  lemma {:induction false} DetectionIsSound<I(!new)>(q: Queue<I>, handed: map<int, I>, ops: seq<Op<I>>)
    requires Account(q, handed) && PermittedRun(q, handed, ops)
    ensures var (q', handed') := Final(q, handed, ops);
            && (forall g | g in handed' && g < |q'.stream| && (IsNull(q'.firstIncorrect) || g < q'.firstIncorrect) ::
                  0 <= g && handed'[g] == q'.stream[g])
            && q'.firstIncorrect <= q'.lastRequested
            && q'.Sound(handed')
    decreases |ops|
  {
    if ops != [] {
      var (q', handed') := After(q, handed, ops[0]);
      StepKeepsAccount(q, handed, ops[0]);
      DetectionIsSound(q', handed', ops[1..]);
    }
  }

  /**
   What an arriving input does to a queue that is predicting and has no error yet: the error is avoided exactly when
   the input is undelayed, lands on the next frame and equals the guess. Any delay or padding flags the next frame,
   right or wrong.
   */
  lemma {:induction false} AddFlagsIff<I>(q: Queue<I>, user: FrameInput<I>)
    requires !IsNull(user.frame)
    requires q.guess.Some? && IsNull(q.firstIncorrect) && |q.stream| <= user.frame + q.delay
    ensures var q' := q.AddInput(user).0;
            if q.delay == 0 && user.frame == |q.stream| && user.input == q.guess.value
            then IsNull(q'.firstIncorrect)
            else q'.firstIncorrect == |q.stream|
  {
    var frame := user.frame + q.delay;
    if |q.stream| < frame {
      var padded := q.(lastUser := user.frame).Push(FrameInput(|q.stream| - 1, q.Last()));
      PadKeepsError(padded, frame);
    }
  }

  lemma {:induction false} PadKeepsError<I>(q: Queue<I>, frame: nat)
    requires !IsNull(q.firstIncorrect)
    ensures q.PadTo(frame).firstIncorrect == q.firstIncorrect
    decreases frame - |q.stream|
  {
    if |q.stream| < frame {
      PadKeepsError(q.Push(FrameInput(|q.stream| - 1, q.Last())), frame);
    }
  }

  /** A caller that never delays inputs and never fetches past a frame it has not fetched. */
  ghost predicate Undelayed<I(!new)>(q: Queue<I>, handed: map<int, I>, op: Op<I>) {
    match op
    case Add(user) => user.frame == |q.stream|
    case Get(frame) => forall g | |q.stream| <= g < frame :: g in handed
    case SetDelay(delay) => delay == 0
    case _ => true
  }

  ghost predicate UndelayedRun<I(!new)>(q: Queue<I>, handed: map<int, I>, ops: seq<Op<I>>)
    requires PermittedRun(q, handed, ops)
    decreases |ops|
  {
    ops != [] ==>
      && Undelayed(q, handed, ops[0])
      && var (q', handed') := After(q, handed, ops[0]); UndelayedRun(q', handed', ops[1..])
  }

  lemma {:induction false} StepIsExact<I(!new)>(q: Queue<I>, handed: map<int, I>, op: Op<I>)
    requires Account(q, handed) && q.Exact(handed) && q.delay == 0
    requires Permitted(q, handed, op) && Undelayed(q, handed, op)
    ensures var (q', handed') := After(q, handed, op); q'.Exact(handed') && q'.delay == 0
  {
    if op.Add? {
      AddInputStream(q, op.user);
      assert q.AddInput(op.user).0 == q.(lastUser := op.user.frame).Push(op.user);
    }
  }

  /** Some handed-out prediction for frame g has been refuted by a confirmed input. */
  ghost predicate Refuted<I>(q: Queue<I>, handed: map<int, I>, g: int) {
    g in handed && 0 <= g < |q.stream| && handed[g] != q.stream[g]
  }

  /** Without delay an error is flagged exactly when a prediction was wrong, and at the least such frame. */
  lemma {:induction false} DetectionIsExact<I(!new)>(q: Queue<I>, handed: map<int, I>, ops: seq<Op<I>>)
    requires Account(q, handed) && q.Exact(handed) && q.delay == 0
    requires PermittedRun(q, handed, ops) && UndelayedRun(q, handed, ops)
    ensures var (q', handed') := Final(q, handed, ops);
            && (IsNull(q'.firstIncorrect) <==> forall g :: !Refuted(q', handed', g))
            && (!IsNull(q'.firstIncorrect) ==>
                  && Refuted(q', handed', q'.firstIncorrect)
                  && forall g | Refuted(q', handed', g) :: q'.firstIncorrect <= g)
    decreases |ops|
  {
    if ops == [] {
      if !IsNull(q.firstIncorrect) {
        assert Refuted(q, handed, q.firstIncorrect);
      }
    } else {
      var (q', handed') := After(q, handed, ops[0]);
      StepKeepsAccount(q, handed, ops[0]);
      StepIsExact(q, handed, ops[0]);
      DetectionIsExact(q', handed', ops[1..]);
    }
  }

  /** Undelayed inputs for the next frames, one after the other. */
  function Feed<I>(q: Queue<I>, values: seq<I>): Queue<I>
    decreases |values|
  {
    if values == [] then q else Feed(q.AddInput(FrameInput(|q.stream|, values[0])).0, values[1..])
  }

  /** Feeding a queue what it predicts flags nothing and appends just that. */
  lemma {:induction false} FeedPredicted<I>(q: Queue<I>, v: I, k: nat)
    requires q.delay == 0 && IsNull(q.firstIncorrect) && q.guess == Some(v) && |q.stream| + k <= q.lastRequested
    ensures var r := Feed(q, Repeat(k, v));
            r == q.(stream := q.stream + Repeat(k, v), lastUser := r.lastUser)
    decreases k
  {
    if 0 < k {
      var next := q.AddInput(FrameInput(|q.stream|, v)).0;
      assert next == q.(stream := q.stream + [v], lastUser := |q.stream|);
      assert Repeat(k, v)[1..] == Repeat(k - 1, v);
      FeedPredicted(next, v, k - 1);
      assert q.stream + [v] + Repeat(k - 1, v) == q.stream + Repeat(k, v);
    } else {
      assert q.stream + Repeat(0, v) == q.stream;
    }
  }

  lemma {:induction false} FeedAppend<I>(q: Queue<I>, a: seq<I>, v: I)
    ensures var r := Feed(q, a); Feed(q, a + [v]) == r.AddInput(FrameInput(|r.stream|, v)).0
    decreases |a|
  {
    if a == [] {
      assert a + [v] == [v] && [v][1..] == [];
      assert Feed(q, [v]) == Feed(q.AddInput(FrameInput(|q.stream|, v)).0, []);
    } else {
      assert (a + [v])[1..] == a[1..] + [v];
      FeedAppend(q.AddInput(FrameInput(|q.stream|, a[0])).0, a[1..], v);
    }
  }

  /**
   Skipping a frame loses exactness: once frame f has been asked for, a frame g before it that was never handed out is
   flagged all the same when its input differs from the prediction, although nothing handed out has been refuted.
   */
  lemma {:induction false} SkippedFrameIsFlagged<I>(q: Queue<I>, handed: map<int, I>, f: nat, g: nat, v: I)
    requires Account(q, handed) && q.delay == 0 && IsNull(q.firstIncorrect) && q.lastRequested <= f
    requires |q.stream| <= g < f && g !in handed && v != q.Belief(f)
    ensures var (q1, r) := q.GetInput(f);
            var handed1 := handed[f := r.entry.input];
            var q2 := Feed(q1, Repeat(g - |q.stream|, q.Belief(f)) + [v]);
            && q2.firstIncorrect == g && g !in handed1
            && forall h :: !Refuted(q2, handed1, h)
  {
    var (q1, _) := q.GetInput(f);
    var k := g - |q.stream|;
    var q3 := Feed(q1, Repeat(k, q.Belief(f)));
    FeedPredicted(q1, q.Belief(f), k);
    FeedAppend(q1, Repeat(k, q.Belief(f)), v);
    AddFlagsIff(q3, FrameInput(g, v));
    AddInputStream(q3, FrameInput(g, v));
  }

  /** Whatever inputs come in next, undelayed, an error is flagged exactly when a handed-out prediction was wrong. */
  ghost predicate StaysExact<I(!new)>(q: Queue<I>, handed: map<int, I>) {
    forall values: seq<I> ::
      var r := Feed(q, values);
      && (IsNull(r.firstIncorrect) <==> forall g :: !Refuted(r, handed, g))
      && (!IsNull(r.firstIncorrect) ==> Refuted(r, handed, r.firstIncorrect))
  }

  lemma ExactMeansRefuted<I>(q: Queue<I>, handed: map<int, I>)
    requires q.Sound(handed) && q.Exact(handed)
    ensures IsNull(q.firstIncorrect) <==> forall g :: !Refuted(q, handed, g)
    ensures !IsNull(q.firstIncorrect) ==> Refuted(q, handed, q.firstIncorrect)
  {
    if !IsNull(q.firstIncorrect) {
      assert Refuted(q, handed, q.firstIncorrect);
    }
  }

  lemma {:induction false} FeedIsExact<I(!new)>(q: Queue<I>, handed: map<int, I>, values: seq<I>)
    requires Account(q, handed) && q.Exact(handed) && q.delay == 0
    ensures var r := Feed(q, values); Account(r, handed) && r.Exact(handed)
    decreases |values|
  {
    if values != [] {
      var op: Op<I> := Add(FrameInput(|q.stream|, values[0]));
      StepKeepsAccount(q, handed, op);
      StepIsExact(q, handed, op);
      FeedIsExact(q.AddInput(op.user).0, handed, values[1..]);
    }
  }

  /**
   Detection is exact from a fetch on, whatever comes in, if and only if the fetch skips no frame: every frame from the
   end of the stream up to it has been handed out. `other` is any input that is not the predicted one.
   */
  lemma {:induction false} ExactIffNothingSkipped<I(!new)>(q: Queue<I>, handed: map<int, I>, f: nat, other: I)
    requires Account(q, handed) && q.Exact(handed) && q.delay == 0
    requires Permitted(q, handed, Get(f)) && other != q.Belief(f)
    ensures var (q1, r) := q.GetInput(f);
            StaysExact(q1, handed[f := r.entry.input]) <==> forall g | |q.stream| <= g < f :: g in handed
  {
    var (q1, r) := q.GetInput(f);
    var handed1 := handed[f := r.entry.input];
    if g: nat :| |q.stream| <= g < f && g !in handed {
      SkippedFrameIsFlagged(q, handed, f, g, other);
      var values := Repeat(g - |q.stream|, q.Belief(f)) + [other];
      assert !IsNull(Feed(q1, values).firstIncorrect);
    } else {
      StepKeepsAccount(q, handed, Get(f));
      StepIsExact(q, handed, Get(f));
      forall values: seq<I>
        ensures var r := Feed(q1, values);
                && (IsNull(r.firstIncorrect) <==> forall g :: !Refuted(r, handed1, g))
                && (!IsNull(r.firstIncorrect) ==> Refuted(r, handed1, r.firstIncorrect))
      {
        FeedIsExact(q1, handed1, values);
        ExactMeansRefuted(Feed(q1, values), handed1);
      }
    }
  }
}
