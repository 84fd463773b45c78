/** Sessions with more players than a frame's input has slots for: they can be built, and panic on their first frame. */
module TooMany {
  import opened Frames
  import opened QueueModel
  import opened SyncModel
  import opened SessionModel
  import opened SessionInvariant
  import opened SessionProofs
  import opened Openings

  /** Not one frame is ever played. */
  lemma {:induction false} NothingIsPlayed<S, I(!new)>(
    game: Game<S, I>, zero: I, delay: nat, local: seq<bool>, actions: seq<Action<I>>)
    requires Buildable(local) && MAX_PLAYERS < |local|
    requires LegalRun(game, Start(game, zero, delay, local), actions)
    ensures var end := RunAll(game, Start(game, zero, delay, local), actions);
            end.World? ==> end.session.sync.frameCount == 0
  {
    RunPlaysNothing(game, Start(game, zero, delay, local), actions);
  }

  lemma {:induction false} RunPlaysNothing<S, I(!new)>(game: Game<S, I>, w: World<S, I>, actions: seq<Action<I>>)
    requires w.World? ==> w.session.sync.frameCount == 0 && MAX_PLAYERS < w.session.Players()
    requires LegalRun(game, w, actions)
    ensures var end := RunAll(game, w, actions); end.World? ==> end.session.sync.frameCount == 0
    decreases |actions|
  {
    if actions != [] {
      CallPlaysNothing(game, w, actions[0]);
      TakeKeepsPlayers(game, w, actions[0]);
      hide Take, Legal, Fits;
      RunPlaysNothing(game, Take(game, w, actions[0]), actions[1..]);
    }
  }

  lemma {:induction false} CallPlaysNothing<S, I(!new)>(game: Game<S, I>, w: World<S, I>, action: Action<I>)
    requires w.World? && w.session.Shaped() && Fits(w.session, action)
    requires w.session.sync.frameCount == 0 && MAX_PLAYERS < w.session.Players()
    ensures var end := Take(game, w, action); end.World? ==> end.session.sync.frameCount == 0
  {
    match action {
      case Poll(arrivals) => FlushKeepsEngine(w.session, arrivals);
      case Advance(arrivals) => FlushKeepsEngine(w.session, arrivals);
      case _ =>
    }
  }

  /** And some legal run panics: everybody gives an input for frame 0, and the session advances. */
  lemma {:induction false} FirstFramePanics<S, I(!new)>(game: Game<S, I>, zero: I, delay: nat, local: seq<bool>)
    returns (actions: seq<Action<I>>)
    requires Buildable(local) && MAX_PLAYERS < |local|
    ensures var w := Start(game, zero, delay, local); LegalRun(game, w, actions) && RunAll(game, w, actions).Panicked?
  {
    var r := if r: nat :| r < |local| && !local[r] then r else 0;
    var opening: seq<Action<I>> := Drops(0, |local|) + Opening(local, r);
    RunStarts(game, zero, delay, local, r);
    var rest := GiveAndPanic(game, Started(game, zero, 0, local), zero, 0);
    RunAppend(game, Start(game, zero, delay, local), opening, rest);
    actions := opening + rest;
  }

  /** A running session before its first frame, with the inputs of the local ones among the first k players. */
  ghost predicate Given<S, I>(s: Session<S, I>, k: nat) {
    && s.Shaped() && MAX_PLAYERS < s.Players() && !s.synchronizing && s.sync.frameCount == 0 && k <= s.Players()
    && forall i | 0 <= i < s.Players() ::
         s.sync.queues[i].delay == 0 && s.lastFrame[i] == if i < k && s.local[i] then 0 else NULL_FRAME
  }

  lemma {:induction false} GiveAndPanic<S, I(!new)>(game: Game<S, I>, w: World<S, I>, zero: I, k: nat)
    returns (actions: seq<Action<I>>)
    requires w.World? && Given(w.session, k)
    ensures LegalRun(game, w, actions) && RunAll(game, w, actions).Panicked?
    decreases w.session.Players() - k
  {
    var s := w.session;
    if k == s.Players() {
      RunOfOne(game, w, Advance([]));
      actions := [Advance([])];
    } else if s.local[k] {
      AddInputStream(s.sync.queues[k], FrameInput(0, zero));
      var next := Take(game, w, LocalInput(k, zero));
      assert next.World? && Given(next.session, k + 1);
      var rest := GiveAndPanic(game, next, zero, k + 1);
      RunOfMore(game, w, LocalInput(k, zero), rest);
      actions := [LocalInput(k, zero)] + rest;
    } else {
      actions := GiveAndPanic(game, w, zero, k + 1);
    }
  }
}
