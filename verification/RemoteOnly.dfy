/**
 Sessions without any local player. With one or two players they give up inputs before playing them, with more they run
 away from their saved states. With a local player neither happens.
 */
module RemoteOnly {
  import opened Frames
  import opened QueueModel
  import opened SyncModel
  import opened SavedRing
  import opened Rollback
  import opened SessionModel
  import opened SessionInvariant
  import opened SessionProofs
  import opened Openings
  import opened TooMany
  import opened RemoteRuns

  /** No queue has given up the frame that is to be played next. */
  ghost predicate Playable<S, I>(s: Session<S, I>) {
    forall i | 0 <= i < |s.sync.queues| :: s.sync.queues[i].discarded <= s.sync.frameCount
  }

  ghost predicate AlwaysPlayable<S, I(!new)>(game: Game<S, I>, zero: I, delay: nat, local: seq<bool>)
    requires Buildable(local)
  {
    forall actions | LegalRun(game, Start(game, zero, delay, local), actions) ::
      EndsPlayable(game, Start(game, zero, delay, local), actions)
  }

  ghost predicate EndsPlayable<S, I(!new)>(game: Game<S, I>, w: World<S, I>, actions: seq<Action<I>>)
    requires LegalRun(game, w, actions)
  {
    var end := RunAll(game, w, actions); end.World? && Playable(end.session)
  }

  /**
   No legal run ever panics or gives up a frame still to be played, if and only if somebody is local and no more than
   eight play.
   */
  lemma {:induction false} AlwaysPlayableIff<S, I(!new)>(
    game: Game<S, I>, zero: I, delay: nat, local: seq<bool>)
    requires 0 < |local| && Buildable(local)
    ensures AlwaysPlayable(game, zero, delay, local) <==> true in local && |local| <= MAX_PLAYERS
  {
    var start := Start(game, zero, delay, local);
    hide StuckRun, LostRun, LegalRun, RunAll, Start, Buildable;
    if MAX_PLAYERS < |local| {
      var actions := FirstFramePanics(game, zero, delay, local);
      assert !EndsPlayable(game, start, actions);
    } else if true in local {
      forall actions | LegalRun(game, start, actions) ensures EndsPlayable(game, start, actions) {
        RollbackRefinesReplay(game, zero, delay, local, actions);
        CurrentFrameIsKept(RunAll(game, start, actions).session);
      }
    } else if |local| <= 2 {
      RunGetsStuck(game, zero, delay, local);
      assert RunAll(game, start, StuckRun(zero, |local|)).session.sync.queues[0].discarded == 2;
      assert !EndsPlayable(game, start, StuckRun(zero, |local|));
    } else {
      RunGetsLost(game, zero, delay, local);
      assert !EndsPlayable(game, start, LostRun(zero));
    }
  }

  /** One or two players: after this run one frame has been played, and the next one is gone from every queue. */
  lemma {:induction false} RunGetsStuck<S, I(!new)>(game: Game<S, I>, zero: I, delay: nat, local: seq<bool>)
    requires Buildable(local) && 0 < |local| <= 2 && true !in local
    ensures var (w, actions) := (Start(game, zero, delay, local), StuckRun(zero, |local|));
            && LegalRun(game, w, actions)
            && var end := RunAll(game, w, actions);
               && end.World? && end.session.sync.frameCount == 1
               && |end.session.sync.queues| == |local|
               && forall i | 0 <= i < |local| :: end.session.sync.queues[i].discarded == 2
  {
    var w0 := Start(game, zero, 0, local);
    PollGetsAhead(game, zero, local);
    var (poll, advance) := (Poll(Arriving(zero, |local|)), Advance([]));
    var w1 := Take(game, w0, poll);
    AdvanceGetsStuck(game, w1, zero);
    assert w1.session.Shaped();
    AllDelaysDrop(game, zero, delay, local);
    hide Start, Take, Arriving, HasThree, Drops;
    RunOfOne(game, w1, advance);
    RunOfMore(game, w0, poll, [advance]);
    RunAppend(game, Start(game, zero, delay, local), Drops(0, |local|), [poll] + [advance]);
  }

  /** Three to eight: nothing is ever confirmed, so nothing stops the session; its first late input then panics. */
  lemma {:induction false} RunGetsLost<S, I(!new)>(game: Game<S, I>, zero: I, delay: nat, local: seq<bool>)
    requires Buildable(local) && 2 < |local| <= MAX_PLAYERS && true !in local
    ensures var w := Start(game, zero, delay, local);
            LegalRun(game, w, LostRun(zero)) && RunAll(game, w, LostRun(zero)).Panicked?
  {
    var w := Start(game, zero, delay, local);
    var (drop, late) := (Action.SetDelay(0, 1), Poll([Arrival(0, Inputs([FrameInput(0, zero)]))]));
    assert !local[0] by { assert local[0] in local; }
    HandshakesStart(game, zero, delay, local, 0);
    var w1 := Started(game, zero, delay, local);
    assert Alone(w1.session, zero, delay, 0);
    var w2 := AloneIdles(game, w1, zero, delay, 0, 10, [drop] + [late]);
    AloneIsShaped(w2.session, zero, delay, 10);
    LateInputPanics(game, w2, zero, delay);
    DelaySet(game, w2, 0, 1);
    var w3 := w2.(session := w2.session.SetFrameDelay(0, 1));
    assert w3.session.Shaped();
    hide Alone, Start, Started, Take, Session.SetFrameDelay, Idling;
    RunOfOne(game, w3, late);
    RunOfMore(game, w2, drop, [late]);
    RunOfMore(game, w, Shaken(0), Idling(10) + ([drop] + [late]));
  }
}
