/** Two peers agree on the game, whatever the network does, exactly when they have set the same delays. */
module Agreement {
  import opened Frames
  import opened QueueModel
  import opened SyncModel
  import opened SessionModel
  import opened SessionInvariant
  import opened SessionProofs
  import opened Openings
  import opened Compression
  import opened InputBuffer
  import opened TwoPeers
  import opened Pairs
  import opened PairSteps
  import opened Convergence
  import opened Progress
  import opened DelaysTell

  ghost predicate AlwaysSameRows<S>(game: Game<S, Value>, stride: nat, delays: Delays) {
    forall turns, n: nat | FairRun(game, stride, Some(NewMatch(game, stride, delays)), turns) ::
      SameRows(RunMatch(game, stride, Some(NewMatch(game, stride, delays)), turns), n)
  }

  /** A delay is never told to the other peer: their inputs agree over all runs if and only if their delays do. */
  lemma {:induction false} InputsAgreeIffSameDelay<S>(game: Game<S, Value>, stride: nat, delays: Delays)
    requires Sensible(stride, delays)
    ensures AlwaysSameRows(game, stride, delays) <==> SameDelay(delays)
  {
    var m := NewMatch(game, stride, delays);
    if SameDelay(delays) {
      forall turns, n: nat | FairRun(game, stride, Some(m), turns)
        ensures SameRows(RunMatch(game, stride, Some(m), turns), n)
      {
        NewMatchIsPair(game, stride, delays);
        RunKeepsPair(game, stride, delays, m, turns);
        var final := RunMatch(game, stride, Some(m), turns).value;
        if Complete(final.a, n) && Complete(final.b, n) {
          SameInputs(game, stride, delays, final.a, 0, final.b, n);
        }
      }
    } else {
      var i: nat :| i < 2 && delays(0, i) != delays(1, i);
      var turns, n := DifferentDelaysShow(game, stride, delays, i);
      assert !SameRows(RunMatch(game, stride, Some(m), turns), n);
    }
  }

  // ---------------------------------------------------------------------------------------------
  // Replays
  // ---------------------------------------------------------------------------------------------

  /** The game whose state is everything it has been played with. */
  function Recorder(): Game<seq<seq<Value>>, Value> {
    Game([], (state: seq<seq<Value>>, row: seq<Value>) => state + [row])
  }

  lemma {:induction false} RecorderRecords(rows: seq<seq<Value>>)
    ensures SyncModel.Play(Recorder(), rows) == rows
    decreases |rows|
  {
    if rows != [] {
      RecorderRecords(rows[..|rows| - 1]);
    }
  }

  /** Whenever both hold everybody's inputs for all frames below n, their games play alike up to n. */
  ghost predicate SameReplay<S>(game: Game<S, Value>, final: Option<Match<S>>, n: nat) {
    && final.Some?
    && var (a, b) := (final.value.a, final.value.b);
       Complete(a, n) && Complete(b, n) ==>
         Replay(game, a.session.sync.queues, n) == Replay(game, b.session.sync.queues, n)
  }

  ghost predicate AlwaysSameReplay<S>(game: Game<S, Value>, stride: nat, delays: Delays) {
    forall turns, n: nat | FairRun(game, stride, Some(NewMatch(game, stride, delays)), turns) ::
      SameReplay(game, RunMatch(game, stride, Some(NewMatch(game, stride, delays)), turns), n)
  }

  /** No game goes apart with the same delays; with others, a game that remembers its inputs does. */
  lemma {:induction false} ReplaysAgreeIffSameDelay<S>(game: Game<S, Value>, stride: nat, delays: Delays)
    requires Sensible(stride, delays)
    ensures SameDelay(delays) ==> AlwaysSameReplay(game, stride, delays)
    ensures AlwaysSameReplay(Recorder(), stride, delays) <==> SameDelay(delays)
  {
    if SameDelay(delays) {
      SameDelaySameReplay(game, stride, delays);
      SameDelaySameReplay(Recorder(), stride, delays);
    }
    InputsAgreeIffSameDelay(Recorder(), stride, delays);
    hide FairRun, NewMatch, Sensible, RunMatch, SameRows, SameReplay, SameDelay, Recorder;
    if AlwaysSameReplay(Recorder(), stride, delays) {
      var m := NewMatch(Recorder(), stride, delays);
      forall turns, n: nat | FairRun(Recorder(), stride, Some(m), turns)
        ensures SameRows(RunMatch(Recorder(), stride, Some(m), turns), n)
      {
        ReplayTellsRows(RunMatch(Recorder(), stride, Some(m), turns), n);
      }
    }
  }

  lemma {:induction false} SameDelaySameReplay<S>(game: Game<S, Value>, stride: nat, delays: Delays)
    requires Sensible(stride, delays) && SameDelay(delays)
    ensures AlwaysSameReplay(game, stride, delays)
  {
    InputsAgreeIffSameDelay(game, stride, delays);
    hide FairRun, NewMatch, Sensible, RunMatch, SameRows, SameReplay, SameDelay;
    var m := NewMatch(game, stride, delays);
    forall turns, n: nat | FairRun(game, stride, Some(m), turns)
      ensures SameReplay(game, RunMatch(game, stride, Some(m), turns), n)
    {
      RowsMakeReplay(game, RunMatch(game, stride, Some(m), turns), n);
    }
  }

  lemma RowsMakeReplay<S>(game: Game<S, Value>, final: Option<Match<S>>, n: nat)
    requires SameRows(final, n)
    ensures SameReplay(game, final, n)
  {
    hide Complete, Rows;
  }

  lemma ReplayTellsRows(final: Option<Match<seq<seq<Value>>>>, n: nat)
    requires SameReplay(Recorder(), final, n)
    ensures SameRows(final, n)
  {
    RecorderRecords(Rows(final.value.a.session.sync.queues, n));
    RecorderRecords(Rows(final.value.b.session.sync.queues, n));
    hide Complete, Rows;
  }
}
