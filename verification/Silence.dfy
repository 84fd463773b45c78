/** How far a session can play while its peers say nothing. */
module Silence {
  import opened Frames
  import opened QueueModel
  import opened SyncModel
  import opened Rollback
  import opened SessionModel
  import opened SessionInvariant
  import opened SessionProofs
  import opened Openings
  import opened SilentRuns

  /** The prediction barrier stands at frame 8: with silent peers all frames before it can be played, and none after. */
  lemma {:induction false} PlaysInSilenceIff<S, I(!new)>(
    game: Game<S, I>, zero: I, delay: nat, local: seq<bool>, n: nat)
    requires Buildable(local) && true in local && false in local && |local| <= MAX_PLAYERS
    ensures PlaysInSilence(game, zero, delay, local, n) <==> n <= 8
  {
    var w := Start(game, zero, delay, local);
    if n <= 8 {
      var actions := SilentRun(game, zero, delay, local, n);
      assert EndsAt(game, w, actions, n);
    } else {
      StartIsHealthy(game, zero, delay, local);
      forall actions | LegalRun(game, w, actions) && Silent(actions) ensures !EndsAt(game, w, actions, n) {
        SilenceIsKept(game, w, actions);
        RunKeepsHealthy(game, w, actions);
      }
    }
  }
}
