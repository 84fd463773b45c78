/**
 How many remote players a session can play with. With more than two it never confirms a frame, so that after eight
 frames the prediction barrier refuses every input for good; with at most two it can go on.
 */
module Crowds {
  import opened Frames
  import opened QueueModel
  import opened SyncModel
  import opened Rollback
  import opened SessionModel
  import opened SessionInvariant
  import opened SessionProofs
  import opened Openings
  import opened TooMany
  import opened Lockstep

  /** Some legal run plays beyond frame 8. */
  ghost predicate PassesEight<S, I(!new)>(game: Game<S, I>, zero: I, delay: nat, local: seq<bool>)
    requires Buildable(local)
  {
    exists actions | LegalRun(game, Start(game, zero, delay, local), actions) ::
      EndsBeyondEight(game, Start(game, zero, delay, local), actions)
  }

  /**
   With more than two remote players nothing is ever confirmed, the session never gets beyond frame 8, and there it
   refuses every input.
   */
  lemma {:induction false} CrowdStopsAtEight<S, I(!new)>(
    game: Game<S, I>, zero: I, delay: nat, local: seq<bool>, actions: seq<Action<I>>, player: nat, input: I)
    requires Buildable(local) && true in local && 2 < Remotes(local) && |local| <= MAX_PLAYERS && player < |local|
    requires LegalRun(game, Start(game, zero, delay, local), actions)
    ensures var w := RunAll(game, Start(game, zero, delay, local), actions);
            && w.World? && IsNull(w.session.sync.lastConfirmed) && w.session.sync.frameCount <= 8
            && |w.session.sync.queues| == |w.session.lastFrame| == w.session.Players() == |local|
            && (w.session.sync.frameCount == 8 ==>
                  w.session.AddLocalInput(player, input) == (w.session, ReachedPredictionBarrier))
  {
    var w := Start(game, zero, delay, local);
    StartIsHealthy(game, zero, delay, local);
    RunKeepsHealthy(game, w, actions);
    RunKeepsPlayers(game, w, actions);
    hide RunAll, LegalRun, Start, Faithful, RingShape, AllSettled;
    InputIsAcceptedIff(RunAll(game, w, actions).session, player, input);
  }

  /**
   A session with a local player can play beyond frame 8 exactly when at most two players are remote and at most eight
   play.
   */
  lemma {:induction false} PassesEightIff<S, I(!new)>(
    game: Game<S, I>, zero: I, delay: nat, local: seq<bool>)
    requires Buildable(local) && true in local
    ensures PassesEight(game, zero, delay, local) <==> Remotes(local) <= 2 && |local| <= MAX_PLAYERS
  {
    if MAX_PLAYERS < |local| {
      forall actions | LegalRun(game, Start(game, zero, delay, local), actions)
        ensures !EndsBeyondEight(game, Start(game, zero, delay, local), actions)
      {
        NothingIsPlayed(game, zero, delay, local, actions);
      }
    } else if 2 < Remotes(local) {
      forall actions | LegalRun(game, Start(game, zero, delay, local), actions)
        ensures !EndsBeyondEight(game, Start(game, zero, delay, local), actions)
      {
        CrowdStopsAtEight(game, zero, delay, local, actions, 0, zero);
      }
    } else {
      var actions := RunBeyondEight(game, zero, delay, local);
      assert EndsBeyondEight(game, Start(game, zero, delay, local), actions);
    }
  }
}
