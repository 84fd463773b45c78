/**
 When a session rolls back. Undelayed inputs make it do so exactly when they differ from what frames already played were
 played with; delayed ones whenever they come in late, right or wrong.
 */
module Mispredictions {
  import opened Frames
  import opened QueueModel
  import opened SyncModel
  import opened Rollback
  import opened SessionModel
  import opened SessionInvariant
  import opened SessionProofs
  import opened Openings

  /** The batches of undelayed players follow their last frames, the very first one starting at frame 0. */
  ghost predicate Seamless<S, I(!new)>(s: Session<S, I>, arrivals: seq<Arrival<I>>)
    requires s.Shaped() && ArrivalsFit(s, arrivals)
    decreases |arrivals|
  {
    arrivals != [] ==>
      && Joins(s, arrivals[0])
      && Seamless(s.HandleEvent(arrivals[0].player, arrivals[0].event).0, arrivals[1..])
  }

  ghost predicate Joins<S, I(!new)>(s: Session<S, I>, a: Arrival<I>)
    requires s.Shaped() && a.player < s.Players()
  {
    a.event.Inputs? && a.event.batch != [] && s.sync.queues[a.player].delay == 0 ==>
      a.event.batch[0].frame == s.lastFrame[a.player] + 1
  }

  // ---------------------------------------------------------------------------------------------
  // What a queue flags
  // ---------------------------------------------------------------------------------------------

  /** The queue has taken in an entry that it lacked when a frame at or beyond it was played. */
  ghost predicate TookLate<I>(before: Queue<I>, after: Queue<I>, n: nat) {
    |before.stream| < n && |before.stream| < |after.stream|
  }

  /**
   What makes a queue flag an error: without delay, that a frame already played has turned out to be another input than
   was played for it; with a delay, any late entry.
   */
  ghost predicate Disturbed<I>(before: Queue<I>, after: Queue<I>, n: nat) {
    if before.delay == 0 then exists g: nat | g < n :: before.Belief(g) != after.Belief(g)
    else TookLate(before, after, n)
  }

  /** While entries come in: an undelayed queue flags what was played wrongly, a delayed one what came in late. */
  ghost predicate Judged<I>(before: Queue<I>, after: Queue<I>, n: nat) {
    && after.delay == before.delay
    && if after.delay == 0 then after.Exact(BeliefMap(before, n))
       else
         && |before.stream| <= |after.stream|
         && (IsNull(after.firstIncorrect) <==> !TookLate(before, after, n))
         && (IsNull(after.firstIncorrect) ==> (after.guess.Some? <==> |before.stream| < n))
  }

  ghost predicate AllJudged<I>(before: seq<Queue<I>>, after: seq<Queue<I>>, n: nat) {
    |before| == |after| && forall i | 0 <= i < |before| :: Judged(before[i], after[i], n)
  }

  lemma SettledIsJudged<S, I>(s: Session<S, I>)
    requires Sane(s)
    ensures AllJudged(s.sync.queues, s.sync.queues, s.sync.frameCount)
  {
    assert forall i | 0 <= i < s.Players() :: Settled(s.sync.queues[i], s.sync.frameCount);
  }

  lemma {:induction false} AddKeepsJudged<I>(before: Queue<I>, q: Queue<I>, n: nat, user: FrameInput<I>)
    requires Judged(before, q, n) && Grown(before, q, n)
    requires !IsNull(user.frame) && (q.delay == 0 ==> user.frame <= |q.stream|)
    ensures Judged(before, q.AddInput(user).0, n)
  {
    AddInputStream(q, user);
    var frame := user.frame + q.delay;
    if |q.stream| <= frame {
      var q1 := q.(lastUser := user.frame);
      if q.delay == 0 {
        assert q.AddInput(user).0 == q1.Push(user);
      } else if !IsNull(q.firstIncorrect) {
        PadKeepsError(q1, frame);
      } else if q.guess.Some? {
        AddFlagsIff(q, user);
      } else {
        PadKeepsNoGuess(q1, frame);
      }
    }
  }

  lemma {:induction false} BatchKeepsJudged<S, I(!new)>(
    s: Session<S, I>, before: seq<Queue<I>>, player: nat, batch: seq<FrameInput<I>>)
    requires Growing(s, before) && player < s.Players() && !s.local[player]
    requires BatchFits(s.sync.queues[player], s.lastFrame[player], batch)
    requires batch != [] && s.sync.queues[player].delay == 0 ==> batch[0].frame == s.lastFrame[player] + 1
    requires AllJudged(before, s.sync.queues, s.sync.frameCount)
    ensures AllJudged(before, s.ReceiveAll(player, batch).sync.queues, s.sync.frameCount)
    decreases |batch|
  {
    if batch != [] {
      var q := s.sync.queues[player];
      assert Grown(before[player], q, s.sync.frameCount) && Tracked(s, player);
      AddKeepsJudged(before[player], q, s.sync.frameCount, batch[0]);
      ReceiveKeepsGrowing(s, before, player, batch[0]);
      BatchTail(q, s.Receive(player, batch[0]).sync.queues[player], s.lastFrame[player], batch);
      hide Growing, Judged;
      BatchKeepsJudged(s.Receive(player, batch[0]), before, player, batch[1..]);
    }
  }

  lemma {:induction false} FlushKeepsJudged<S, I(!new)>(
    s: Session<S, I>, before: seq<Queue<I>>, arrivals: seq<Arrival<I>>)
    requires Growing(s, before) && ArrivalsFit(s, arrivals) && s.WellFormed(arrivals) && Seamless(s, arrivals)
    requires AllJudged(before, s.sync.queues, s.sync.frameCount)
    ensures AllJudged(before, s.FlushEvents(arrivals).0.sync.queues, s.sync.frameCount)
    decreases |arrivals|
  {
    if arrivals != [] {
      var a := arrivals[0];
      var s1 := s.HandleEvent(a.player, a.event).0;
      EventKeepsGrowing(s, before, a);
      if a.event.Inputs? {
        BatchKeepsJudged(s, before, a.player, a.event.batch);
        ReceiveKeepsEngine(s, a.player, a.event.batch);
      }
      assert s1.sync.frameCount == s.sync.frameCount && AllJudged(before, s1.sync.queues, s.sync.frameCount);
      hide Growing, AllJudged;
      FlushKeepsJudged(s1, before, arrivals[1..]);
    }
  }

  lemma {:induction false} JudgedFlags<I>(before: Queue<I>, after: Queue<I>, n: nat)
    requires Judged(before, after, n) && Grown(before, after, n)
    ensures !IsNull(after.firstIncorrect) <==> Disturbed(before, after, n)
    ensures IsNull(after.firstIncorrect) ==> forall g: nat | g < n :: before.Belief(g) == after.Belief(g)
    ensures !IsNull(after.firstIncorrect) && after.delay == 0 ==>
              var e := after.firstIncorrect; e < n && before.Belief(e) != after.Belief(e)
  {
    var handed := BeliefMap(before, n);
    assert forall g: nat | g < n :: g in handed && handed[g] == before.Belief(g);
  }

  /** The check issues commands exactly when a frame has been flagged. */
  lemma ChecksWhenFlagged<S, I>(s: Sync<S, I>)
    requires s.saved.Valid() && CanCheck(s)
    requires var e := FirstIncorrect(s.queues); e.Some? ==> e.value < s.frameCount && s.HasFrame(e.value)
    ensures s.CheckSimulation().1 != [] <==> FirstIncorrect(s.queues).Some?
  {
    var e := FirstIncorrect(s.queues);
    if e.Some? {
      AdjustUnfolds(s, e.value);
    }
  }

  // ---------------------------------------------------------------------------------------------
  // When a session rolls back
  // ---------------------------------------------------------------------------------------------

  /** What a poll has made of the session by the time it checks the simulation. */
  ghost predicate Polled<S, I(!new)>(s: Session<S, I>, arrivals: seq<Arrival<I>>, after: Sync<S, I>) {
    && s.Shaped() && s.WellFormed(arrivals) && after == s.FlushEvents(arrivals).0.sync
    && after.saved.Valid() && CanCheck(after) && |after.queues| == |s.sync.queues|
  }

  /** Whatever the delays: a poll rolls back exactly when some queue has been disturbed. */
  lemma {:induction false} RollbackIff<S, I(!new)>(s: Session<S, I>, arrivals: seq<Arrival<I>>)
    requires Sane(s) && ArrivalsFit(s, arrivals) && s.WellFormed(arrivals) && Seamless(s, arrivals)
    ensures var after := s.FlushEvents(arrivals).0.sync;
            && Polled(s, arrivals, after)
            && (after.CheckSimulation().1 != [] <==>
                  exists i | 0 <= i < s.Players() :: Disturbed(s.sync.queues[i], after.queues[i], s.sync.frameCount))
  {
    var (n, before, flushed) := (s.sync.frameCount, s.sync.queues, s.FlushEvents(arrivals).0);
    FlushIsJudged(s, arrivals);
    FlaggedFrameIsRecent(flushed, before);
    ChecksWhenFlagged(flushed.sync);
    forall i | 0 <= i < s.Players()
      ensures !IsNull(flushed.sync.queues[i].firstIncorrect) <==> Disturbed(before[i], flushed.sync.queues[i], n)
    {
      JudgedFlags(before[i], flushed.sync.queues[i], n);
    }
  }

  lemma FlushIsJudged<S, I(!new)>(s: Session<S, I>, arrivals: seq<Arrival<I>>)
    requires Sane(s) && ArrivalsFit(s, arrivals) && s.WellFormed(arrivals) && Seamless(s, arrivals)
    ensures var flushed := s.FlushEvents(arrivals).0;
            && Growing(flushed, s.sync.queues) && flushed.sync.frameCount == s.sync.frameCount
            && flushed.local == s.local && |flushed.sync.queues| == |s.sync.queues|
            && forall i | 0 <= i < s.Players() ::
                 && Judged(s.sync.queues[i], flushed.sync.queues[i], s.sync.frameCount)
                 && Grown(s.sync.queues[i], flushed.sync.queues[i], s.sync.frameCount)
  {
    SaneStartsGrowing(s);
    SettledIsJudged(s);
    FlushKeepsGrowing(s, s.sync.queues, arrivals);
    FlushKeepsJudged(s, s.sync.queues, arrivals);
    FlushKeepsEngine(s, arrivals);
  }

  /** A remote player's next input can come in for a frame that has been played without it. */
  ghost predicate Outstanding<S, I>(s: Session<S, I>, i: nat)
    requires s.Shaped() && i < s.Players()
  {
    !s.local[i] && |s.sync.queues[i].stream| < s.sync.frameCount && Room(s.sync.queues[i], s.lastFrame[i] + 1)
  }

  /** Nobody whose next input can come in late has a delay. */
  ghost predicate Prompt<S, I>(s: Session<S, I>)
    requires s.Shaped()
  {
    forall i | 0 <= i < s.Players() && Outstanding(s, i) :: s.sync.queues[i].delay == 0
  }

  /** Nothing can come in for a local player, or where there is no room for the next input. */
  lemma {:induction false} FlushKeepsQueue<S, I(!new)>(s: Session<S, I>, arrivals: seq<Arrival<I>>, i: nat)
    requires s.Shaped() && ArrivalsFit(s, arrivals) && s.WellFormed(arrivals) && i < s.Players()
    requires s.local[i] || !Room(s.sync.queues[i], s.lastFrame[i] + 1)
    ensures s.FlushEvents(arrivals).0.sync.queues[i] == s.sync.queues[i]
    decreases |arrivals|
  {
    if arrivals != [] {
      var a := arrivals[0];
      if a.event.Inputs? {
        BatchKeepsOthers(s, a.player, a.event.batch, i);
      }
      FlushKeepsQueue(s.HandleEvent(a.player, a.event).0, arrivals[1..], i);
    }
  }

  lemma {:induction false} BatchKeepsOthers<S, I>(s: Session<S, I>, player: nat, batch: seq<FrameInput<I>>, i: nat)
    requires player < |s.sync.queues| == |s.lastFrame| && i < |s.lastFrame|
    requires forall k | 0 <= k < |batch| :: !IsNull(batch[k].frame)
    ensures var r := s.ReceiveAll(player, batch);
            i != player || batch == [] ==> r.sync.queues[i] == s.sync.queues[i] && r.lastFrame[i] == s.lastFrame[i]
    decreases |batch|
  {
    if batch != [] {
      BatchKeepsOthers(s.Receive(player, batch[0]), player, batch[1..], i);
    }
  }

  /**
   If nobody whose next input can come in late has a delay, a poll rolls back exactly when what has arrived changes the
   inputs of frames already played, and then to the first frame whose inputs changed.
   */
  lemma {:induction false} RollbackIffMispredicted<S, I(!new)>(s: Session<S, I>, arrivals: seq<Arrival<I>>)
    requires Sane(s) && Prompt(s)
    requires ArrivalsFit(s, arrivals) && s.WellFormed(arrivals) && Seamless(s, arrivals)
    ensures var (n, after) := (s.sync.frameCount, s.FlushEvents(arrivals).0.sync);
            && Polled(s, arrivals, after)
            && (after.CheckSimulation().1 != [] <==> Rows(s.sync.queues, n) != Rows(after.queues, n))
            && (after.CheckSimulation().1 != [] ==>
                  && FirstIncorrect(after.queues).Some?
                  && var e := FirstIncorrect(after.queues).value;
                     && Row(s.sync.queues, e) != Row(after.queues, e)
                     && forall g: nat | g < e :: Row(s.sync.queues, g) == Row(after.queues, g))
  {
    var (n, before, flushed) := (s.sync.frameCount, s.sync.queues, s.FlushEvents(arrivals).0);
    FlushIsJudged(s, arrivals);
    FlaggedFrameIsRecent(flushed, before);
    forall i | 0 <= i < s.Players()
      ensures !IsNull(flushed.sync.queues[i].firstIncorrect) ==>
                var e := flushed.sync.queues[i].firstIncorrect;
                0 <= e < n && before[i].Belief(e) != flushed.sync.queues[i].Belief(e)
    {
      JudgedFlags(before[i], flushed.sync.queues[i], n);
      if s.local[i] || !Room(before[i], s.lastFrame[i] + 1) {
        FlushKeepsQueue(s, arrivals, i);
      }
    }
    RollsBackWhenFlagged(flushed, before, n);
  }

  lemma {:induction false} RollsBackWhenFlagged<S, I(!new)>(s: Session<S, I>, before: seq<Queue<I>>, n: nat)
    requires Growing(s, before) && CanCheck(s.sync) && n == s.sync.frameCount && |before| == |s.sync.queues|
    requires forall i | 0 <= i < |before| && !IsNull(s.sync.queues[i].firstIncorrect) ::
               var e := s.sync.queues[i].firstIncorrect;
               0 <= e < n && before[i].Belief(e) != s.sync.queues[i].Belief(e)
    ensures (s.sync.CheckSimulation().1 != []) == FirstIncorrect(s.sync.queues).Some?
         == (Rows(before, n) != Rows(s.sync.queues, n))
    ensures var e := FirstIncorrect(s.sync.queues);
            e.Some? ==>
              && Row(before, e.value) != Row(s.sync.queues, e.value)
              && forall g: nat | g < e.value :: Row(before, g) == Row(s.sync.queues, g)
  {
    FlaggedFrameIsRecent(s, before);
    ChecksWhenFlagged(s.sync);
    assert AllGrown(before, s.sync.queues, n);
    var e := FirstIncorrect(s.sync.queues);
    hide Growing, AllGrown, Sync.CheckSimulation, CanCheck;
    if e.None? {
      RowsBeforeError(before, s.sync.queues, n, n);
      assert Rows(before, n)[..n] == Rows(before, n);
    } else {
      var i :| 0 <= i < |before| && s.sync.queues[i].firstIncorrect == e.value;
      assert Row(before, e.value)[i] != Row(s.sync.queues, e.value)[i];
      assert Rows(before, n)[e.value] != Rows(s.sync.queues, n)[e.value];
      RowsBeforeError(before, s.sync.queues, n, e.value);
      forall g: nat | g < e.value ensures Row(before, g) == Row(s.sync.queues, g) {
        assert Rows(before, n)[..e.value][g] == Rows(s.sync.queues, e.value)[g];
      }
    }
  }

  /** Some queue has taken in something late. */
  ghost predicate Late<I>(before: seq<Queue<I>>, after: seq<Queue<I>>, n: nat)
    requires |before| == |after|
  {
    exists i | 0 <= i < |before| :: TookLate(before[i], after[i], n)
  }

  ghost predicate Delaying<S, I>(s: Session<S, I>)
    requires s.Shaped()
  {
    forall i | 0 <= i < s.Players() && !s.local[i] :: 0 < s.sync.queues[i].delay
  }

  /**
   With a delay on every remote player a poll rolls back exactly when some queue takes in an entry for a frame that has
   been played already, whether or not it was predicted correctly.
   */
  lemma {:induction false} RollbackIffLate<S, I(!new)>(s: Session<S, I>, arrivals: seq<Arrival<I>>)
    requires Sane(s) && Delaying(s) && ArrivalsFit(s, arrivals) && s.WellFormed(arrivals)
    ensures var after := s.FlushEvents(arrivals).0.sync;
            && Polled(s, arrivals, after)
            && (after.CheckSimulation().1 != [] <==> Late(s.sync.queues, after.queues, s.sync.frameCount))
  {
    DelayedIsSeamless(s, arrivals);
    RollbackIff(s, arrivals);
    forall i | 0 <= i < s.Players() && s.local[i]
      ensures s.FlushEvents(arrivals).0.sync.queues[i] == s.sync.queues[i]
    {
      FlushKeepsQueue(s, arrivals, i);
    }
  }

  lemma {:induction false} DelayedIsSeamless<S, I(!new)>(s: Session<S, I>, arrivals: seq<Arrival<I>>)
    requires s.Shaped() && Delaying(s) && ArrivalsFit(s, arrivals) && s.WellFormed(arrivals)
    ensures Seamless(s, arrivals)
    decreases |arrivals|
  {
    if arrivals != [] {
      var a := arrivals[0];
      if a.event.Inputs? {
        BatchKeepsDelays(s, a.player, a.event.batch);
      }
      DelayedIsSeamless(s.HandleEvent(a.player, a.event).0, arrivals[1..]);
    }
  }

  lemma {:induction false} BatchKeepsDelays<S, I>(s: Session<S, I>, player: nat, batch: seq<FrameInput<I>>)
    requires player < |s.sync.queues| == |s.lastFrame|
    requires forall k | 0 <= k < |batch| :: !IsNull(batch[k].frame)
    ensures SameDelays(s.sync.queues, s.ReceiveAll(player, batch).sync.queues)
    decreases |batch|
  {
    if batch != [] {
      AddInputStream(s.sync.queues[player], batch[0]);
      BatchKeepsDelays(s.Receive(player, batch[0]), player, batch[1..]);
    }
  }

  // ---------------------------------------------------------------------------------------------
  // The delay decides
  // ---------------------------------------------------------------------------------------------

  /** A poll that rolls back exactly when what arrives changes the inputs of frames already played. */
  ghost predicate RollsBackExactly<S, I(!new)>(s: Session<S, I>, arrivals: seq<Arrival<I>>)
    requires s.Shaped() && s.WellFormed(arrivals)
  {
    var after := s.FlushEvents(arrivals).0.sync;
    && after.saved.Valid() && CanCheck(after)
    && (after.CheckSimulation().1 != [] <==>
          Rows(s.sync.queues, s.sync.frameCount) != Rows(after.queues, s.sync.frameCount))
  }

  /** Every poll does, whatever its arrivals. */
  ghost predicate AlwaysExact<S, I(!new)>(s: Session<S, I>)
    requires s.Shaped()
  {
    forall arrivals | s.WellFormed(arrivals) && ArrivalsFit(s, arrivals) && Seamless(s, arrivals) ::
      RollsBackExactly(s, arrivals)
  }

  /** The next inputs of a player up to the first that is not dropped, each of them as predicted. */
  function Expected<I>(q: Queue<I>, last: Frame): seq<FrameInput<I>> {
    seq(Max(1, |q.stream| - q.delay - last) as nat, (k: nat) => FrameInput(last + 1 + k, q.Last()))
  }

  lemma {:induction false} ExpectedFits<I>(q: Queue<I>, last: Frame)
    requires Room(q, last + 1) && |q.stream| < MAX_ROLLBACK_FRAMES + q.discarded
    ensures BatchFits(q, last, Expected(q, last))
  {
  }

  /** They come in late, and although they are all as predicted the queue flags an error. */
  lemma {:induction false} ExpectedIsFlagged<S, I>(s: Session<S, I>, i: nat, n: nat)
    requires i < |s.sync.queues| == |s.lastFrame|
    requires var q := s.sync.queues[i]; Settled(q, n) && |q.stream| < n && 0 < q.delay
    ensures var (q, r) := (s.sync.queues[i], s.ReceiveAll(i, Expected(s.sync.queues[i], s.lastFrame[i])));
            && !IsNull(r.sync.queues[i].firstIncorrect) && (forall g: nat :: r.sync.queues[i].Belief(g) == q.Belief(g))
            && r.sync.queues == s.sync.queues[i := r.sync.queues[i]]
    decreases |s.sync.queues[i].stream| - s.lastFrame[i]
  {
    var (q, last) := (s.sync.queues[i], s.lastFrame[i]);
    var batch := Expected(q, last);
    var r := s.Receive(i, batch[0]);
    AddInputStream(q, batch[0]);
    if |q.stream| <= last + 1 + q.delay {
      AddFlagsIff(q, batch[0]);
      assert batch[1..] == [] && s.ReceiveAll(i, batch) == r.ReceiveAll(i, []) == r;
    } else {
      var rest := Expected(r.sync.queues[i], last + 1);
      assert r.sync.queues[i] == q.(lastUser := last + 1) && |rest| == |batch| - 1;
      forall k | 0 <= k < |rest| ensures batch[1..][k] == rest[k] {
        assert batch[k + 1] == FrameInput(last + 1 + (k + 1), q.Last());
      }
      assert batch[1..] == rest;
      ExpectedIsFlagged(r, i, n);
      assert s.ReceiveAll(i, batch) == r.ReceiveAll(i, batch[1..]);
    }
  }

  /** Delayed inputs that come in late as predicted cost a rollback, though nothing that was played changes. */
  lemma {:induction false} CorrectPredictionRollsBack<S, I(!new)>(s: Session<S, I>, i: nat)
    requires Sane(s) && i < s.Players() && Outstanding(s, i) && 0 < s.sync.queues[i].delay
    ensures var arrivals := [Arrival(i, Inputs(Expected(s.sync.queues[i], s.lastFrame[i])))];
            && ArrivalsFit(s, arrivals) && Seamless(s, arrivals)
            && var after := s.FlushEvents(arrivals).0.sync;
               && Polled(s, arrivals, after) && after.CheckSimulation().1 != []
               && Rows(s.sync.queues, s.sync.frameCount) == Rows(after.queues, s.sync.frameCount)
  {
    var (q, n) := (s.sync.queues[i], s.sync.frameCount);
    var batch := Expected(q, s.lastFrame[i]);
    var arrivals := [Arrival(i, Inputs(batch))];
    assert Settled(q, n) && Tracked(s, i);
    assert s.HasRemote() by { assert s.local[i] == false; }
    ExpectedFits(q, s.lastFrame[i]);
    BatchArrives(s, i, batch);
    assert Seamless(s, arrivals) by { assert arrivals[1..] == []; }
    ExpectedIsFlagged(s, i, n);
    var r := s.ReceiveAll(i, batch);
    SaneStartsGrowing(s);
    ReceiveAllKeepsGrowing(s, s.sync.queues, i, batch);
    FlaggedFrameIsRecent(r, s.sync.queues);
    ReceiveKeepsEngine(s, i, batch);
    ChecksWhenFlagged(r.sync);
    BeliefsMakeRows(s.sync.queues, r.sync.queues, n);
  }

  lemma BeliefsMakeRows<I>(a: seq<Queue<I>>, b: seq<Queue<I>>, n: nat)
    requires |a| == |b| && forall k, g: nat | 0 <= k < |a| :: a[k].Belief(g) == b[k].Belief(g)
    ensures Rows(a, n) == Rows(b, n)
  {
    forall g: nat | g < n ensures Row(a, g) == Row(b, g) {}
  }

  /**
   In every state a session can be in: polls roll back exactly when they have to, whatever arrives, if and only if
   nobody whose next input can come in late has a delay.
   */
  lemma {:induction false} ExactIffPrompt<S, I(!new)>(s: Session<S, I>)
    requires Sane(s)
    ensures AlwaysExact(s) <==> Prompt(s)
  {
    if Prompt(s) {
      forall arrivals | s.WellFormed(arrivals) && ArrivalsFit(s, arrivals) && Seamless(s, arrivals)
        ensures RollsBackExactly(s, arrivals)
      {
        RollbackIffMispredicted(s, arrivals);
      }
    } else {
      var i :| 0 <= i < s.Players() && Outstanding(s, i) && s.sync.queues[i].delay != 0;
      CorrectPredictionRollsBack(s, i);
      assert !RollsBackExactly(s, [Arrival(i, Inputs(Expected(s.sync.queues[i], s.lastFrame[i])))]);
    }
  }

  // ---------------------------------------------------------------------------------------------
  // A run that pays for a correct prediction
  // ---------------------------------------------------------------------------------------------

  /** Two players, the second remote; one frame is played before any input of the second has arrived. */
  function OneFrame<I>(zero: I): seq<Action<I>> {
    [Shaken(1)] + ([LocalInput(0, zero)] + [Advance([])])
  }

  /** What holds of the session on the way: nothing of the second player, `given` inputs of the first. */
  ghost predicate Begun<S, I>(s: Session<S, I>, zero: I, delay: nat, given: nat, played: nat) {
    && s.Shaped() && s.local == [true, false] && !s.synchronizing && s.sync.frameCount == played && given <= 1
    && IsNull(s.sync.lastConfirmed) && s.lastFrame == [given - 1, NULL_FRAME]
    && (forall i | 0 <= i < 2 ::
          && s.sync.queues[i].zero == zero && s.sync.queues[i].delay == delay && s.sync.queues[i].discarded == 0
          && IsNull(s.sync.queues[i].firstIncorrect) && (played == 0 ==> s.sync.queues[i].guess.None?))
    && |s.sync.queues[0].stream| == (if given == 0 then 0 else delay + 1)
    && s.sync.queues[1].stream == []
  }

  lemma {:induction false} BegunSettles<S, I>(s: Session<S, I>, zero: I, delay: nat, given: nat, played: nat)
    requires Begun(s, zero, delay, given, played)
    ensures FirstIncorrect(s.sync.queues).None? && s.Settle().0 == s
  {
    assert false in s.local by { assert !s.local[1]; }
    assert s.local[..1] == [true] && Remotes([true]) == 0 && Remotes(s.local) == 1;
    assert Least(s.lastFrame) <= s.lastFrame[1] == NULL_FRAME;
  }

  lemma {:induction false} BegunGives<S, I(!new)>(game: Game<S, I>, w: World<S, I>, zero: I, delay: nat)
    requires w.World? && Begun(w.session, zero, delay, 0, 0) && delay < MAX_ROLLBACK_FRAMES
    ensures var action := LocalInput(0, zero);
            && Fits(w.session, action) && Legal(w.session, action)
            && var w' := Take(game, w, action); w'.World? && Begun(w'.session, zero, delay, 1, 0)
  {
    AddInputStream(w.session.sync.queues[0], FrameInput(0, zero));
    AddUnpredicted(w.session.sync.queues[0], FrameInput(0, zero));
  }

  lemma AddUnpredicted<I>(q: Queue<I>, user: FrameInput<I>)
    requires IsNull(q.firstIncorrect) && q.guess.None? && !IsNull(user.frame)
    ensures IsNull(q.AddInput(user).0.firstIncorrect) && q.AddInput(user).0.guess.None?
  {
    PadKeepsNoGuess(q.(lastUser := user.frame), user.frame + q.delay);
  }

  lemma {:induction false} BegunPlays<S, I(!new)>(game: Game<S, I>, w: World<S, I>, zero: I, delay: nat)
    requires w.World? && Begun(w.session, zero, delay, 1, 0)
    ensures Fits(w.session, Advance([])) && Legal(w.session, Advance([]))
    ensures var w' := Take(game, w, Advance([])); w'.World? && Begun(w'.session, zero, delay, 1, 1)
  {
    var s := Incremented(w.session);
    assert Begun(s, zero, delay, 1, 1);
    BegunSettles(s, zero, delay, 1, 1);
    hide Sync.IncrementFrame;
    QuietAdvance(game, w);
  }

  /**
   With any delay the ring has room for, a session can be in a state in which an input that is exactly as predicted
   makes it roll back for nothing, unless the delay is 0: the states the previous lemma speaks of do occur.
   */
  lemma {:induction false} CorrectPredictionCosts<S, I(!new)>(game: Game<S, I>, zero: I, delay: nat)
    requires delay < MAX_ROLLBACK_FRAMES
    ensures var w := Start(game, zero, delay, [true, false]);
            && LegalRun(game, w, OneFrame(zero))
            && var end := RunAll(game, w, OneFrame(zero));
               && end.World? && Sane(end.session) && end.session.Players() == 2
               && (forall i | 0 <= i < 2 :: end.session.sync.queues[i].delay == delay)
               && (AlwaysExact(end.session) <==> delay == 0)
  {
    var w := Start(game, zero, delay, [true, false]);
    var sync: Action<I> := Shaken(1);
    HandshakesStart(game, zero, delay, [true, false], 1);
    var w1 := Started(game, zero, delay, [true, false]);
    assert Begun(w1.session, zero, delay, 0, 0);
    BegunGives(game, w1, zero, delay);
    var w2 := Take(game, w1, LocalInput(0, zero));
    BegunPlays(game, w2, zero, delay);
    RunOfOne(game, w2, Advance([]));
    RunOfMore(game, w1, LocalInput(0, zero), [Advance([])]);
    RunOfMore(game, w, sync, [LocalInput(0, zero)] + [Advance([])]);
    RollbackRefinesReplay(game, zero, delay, [true, false], OneFrame(zero));
    var end := Take(game, w2, Advance([]));
    assert Outstanding(end.session, 1);
    ExactIffPrompt(end.session);
  }
}
