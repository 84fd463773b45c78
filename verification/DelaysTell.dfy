/**
 A run that tells different delays apart. Both handshakes complete, the player for whom the delays differ gives an input
 that is not the default one, and both peers play on, which they can, until they have exchanged everything up to the
 frame that gets this input at one peer and still the default one at the other. There their rows of inputs differ.
 */
module DelaysTell {
  import opened Frames
  import opened QueueModel
  import opened SyncModel
  import opened SessionModel
  import opened SessionInvariant
  import opened SessionProofs
  import opened Openings
  import opened Compression
  import opened InputBuffer
  import opened TwoPeers
  import opened Pairs
  import opened PairSteps
  import opened Convergence
  import opened Progress
  import opened Continuing

  /** Whenever both hold everybody's inputs for all frames below n, they hold the same ones. */
  ghost predicate SameRows<S>(final: Option<Match<S>>, n: nat) {
    && final.Some?
    && var (a, b) := (final.value.a, final.value.b);
       Complete(a, n) && Complete(b, n) ==> Rows(a.session.sync.queues, n) == Rows(b.session.sync.queues, n)
  }

  /** An input that is not the default one. */
  function One(stride: nat): (r: Value)
    requires 0 < stride
    ensures |r| == stride && r != Zero(stride)
  {
    assert Repeat(stride, 1 as Varint.byte)[0] != Zero(stride)[0];
    Repeat(stride, 1)
  }

  lemma {:induction false} DifferentDelaysShow<S>(game: Game<S, Value>, stride: nat, delays: Delays, i: nat)
    returns (turns: seq<Turn>, n: nat)
    requires Sensible(stride, delays) && i < 2 && delays(0, i) != delays(1, i)
    ensures var m := NewMatch(game, stride, delays);
            && FairRun(game, stride, Some(m), turns)
            && !SameRows(RunMatch(game, stride, Some(m), turns), n)
  {
    n := Min(delays(0, i), delays(1, i)) + 1;
    assert 0 < stride;
    hide Pair, LeadsTo, Sensible, FairRun, RunMatch, NewMatch, SameRows, Going, Runs, Synced, Continues;
    var opening, m := BothStart(game, stride, delays);
    var end := InputAndMore(game, stride, delays, m, i, n);
    Disagree(game, stride, delays, end, i, n);
    hide *;
    var rest := LeadingTurns(game, stride, m, end);
    TurnsAppend(game, stride, NewMatch(game, stride, delays), opening, m, rest, end);
    turns := opening + rest;
    ReachingIs(game, stride, NewMatch(game, stride, delays), turns, end);
  }

  lemma LeadingTurns<S>(game: Game<S, Value>, stride: nat, m: Match<S>, end: Match<S>) returns (turns: seq<Turn>)
    requires LeadsTo(game, stride, m, end)
    ensures Reaches(game, stride, m, turns, end)
  {
    hide Reaches;
    turns :| Continues(game, stride, m, turns, end);
  }

  lemma ReachingIs<S>(game: Game<S, Value>, stride: nat, m: Match<S>, turns: seq<Turn>, end: Match<S>)
    requires Reaches(game, stride, m, turns, end)
    ensures FairRun(game, stride, Some(m), turns) && RunMatch(game, stride, Some(m), turns) == Some(end)
  {
    hide FairRun, RunMatch;
  }

  /** Player i gives its first input, both play on to frame n, and both come to hold everything. */
  lemma {:induction false} InputAndMore<S>(
    game: Game<S, Value>, stride: nat, delays: Delays, m: Match<S>, i: nat, n: nat)
    returns (end: Match<S>)
    requires Going(game, stride, delays, m) && Sensible(stride, delays) && 0 < stride && i < 2
    requires m.a.raw == m.b.raw == [] && FrameOf(m, false) == FrameOf(m, true) == 0
    ensures LeadsTo(game, stride, m, end) && Synced(game, stride, delays, end)
    ensures n <= |end.a.raw| && n <= |end.b.raw| && [One(stride)] <= RawOf(end, i)
  {
    hide Pair, LeadsTo, Sensible, Going, Runs, Synced, Informed, One;
    var m1 := FirstInput(game, stride, delays, m, i == 1);
    var m2 := PlayOn(game, stride, delays, m1, n, n + 1 + FrameOf(m1, false) + FrameOf(m1, true));
    end := Exchange(game, stride, delays, m2);
    LeadsOn(game, stride, m, m1, m2);
    LeadsOn(game, stride, m, m2, end);
    LeadsOn(game, stride, m1, m2, end);
    RawsGrow(game, stride, m1, end);
    SyncedPlayed(game, stride, delays, end, n);
  }

  lemma SyncedPlayed<S>(game: Game<S, Value>, stride: nat, delays: Delays, m: Match<S>, n: nat)
    requires Synced(game, stride, delays, m) && n <= FrameOf(m, false) && n <= FrameOf(m, true)
    ensures n <= |m.a.raw| && n <= |m.b.raw|
  {
  }

  /** Both handshakes complete. */
  lemma {:induction false} BothStart<S>(game: Game<S, Value>, stride: nat, delays: Delays)
    returns (turns: seq<Turn>, end: Match<S>)
    requires Sensible(stride, delays)
    ensures Reaches(game, stride, NewMatch(game, stride, delays), turns, end)
    ensures Going(game, stride, delays, end) && end.a.raw == end.b.raw == []
    ensures FrameOf(end, false) == FrameOf(end, true) == 0
  {
    var m := NewMatch(game, stride, delays);
    NewMatchIsPair(game, stride, delays);
    var a := Begun(m.a);
    var b := Begun(m.b);
    OneStarts(game, stride, m, false);
    OneStarts(game, stride, m.(a := a), true);
    end := m.(a := a, b := b);
    turns := Starting(false) + Starting(true);
    TurnsAppend(game, stride, m, Starting(false), m.(a := a), Starting(true), end);
    RunKeepsPair(game, stride, delays, m, turns);
    hide Pair, FairRun, RunMatch;
    PairSwaps(game, stride, delays, a, 0, b);
    OwnRuns(game, stride, delays, a, 0, b);
    OwnRuns(game, stride, delays, b, 1, a);
  }

  function Starting(second: bool): seq<Turn> {
    [Turn(second, Shake)] + [Turn(second, Look)]
  }

  function Begun<S>(x: Peer<S>): Peer<S> {
    x.(session := x.session.(synchronizing := false))
  }

  /** A peer as it was made. */
  ghost predicate Unshaken<S>(x: Peer<S>, p: nat) {
    && p < 2 && x.session.Shaped() && x.session.local == [p == 0, p == 1] && x.session.synchronizing
    && x.inbox == [] && x.encoder.pending == [] && x.session.lastFrame == Repeat(2, NULL_FRAME)
    && FirstIncorrect(x.session.sync.queues).None?
  }

  lemma {:induction false} OneStarts<S>(game: Game<S, Value>, stride: nat, m: Match<S>, second: bool)
    requires 0 < stride && Unshaken(Me(m, second), Seat(second)) && |Me(m, !second).session.lastFrame| == 2
    ensures Reaches(game, stride, m, Starting(second), With(m, second, Begun(Me(m, second))))
  {
    var (x, p) := (Me(m, second), Seat(second));
    var shaken := x.(inbox := [Arrival(1 - p, PeerSynchronized(true))]);
    var (m1, end) := (With(m, second, shaken), With(m, second, Begun(x)));
    assert x.inbox + [Arrival(1 - p, PeerSynchronized(true))] == shaken.inbox;
    OneTurn(game, stride, m, Turn(second, Shake), m1);
    assert !x.session.local[1 - p];
    HandshakeStarts(game, World(x.session, x.state), 1 - p);
    OneTurn(game, stride, m1, Turn(second, Look), end);
    TurnsAppend(game, stride, m, [Turn(second, Shake)], m1, [Turn(second, Look)], end);
  }

  /** Then one peer gives an input that is not the default one. */
  lemma {:induction false} FirstInput<S>(
    game: Game<S, Value>, stride: nat, delays: Delays, m: Match<S>, second: bool)
    returns (end: Match<S>)
    requires Going(game, stride, delays, m) && Sensible(stride, delays)
    requires Me(m, second).raw == [] && FrameOf(m, second) == 0
    ensures LeadsTo(game, stride, m, end) && Going(game, stride, delays, end)
    ensures Me(end, second).raw == [One(stride)]
  {
    var (x, y, p, input) := (Me(m, second), Me(m, !second), Seat(second), One(stride));
    assert !x.session.AtBarrier();
    hide *;
    SeatIs(m, second);
    GoingSides(game, stride, delays, m, second);
    RunsIsRunning(x, p);
    PlayDoes(game, stride, delays, x, p, y, input);
    PlayIsNext(stride, x, p, y, input);
    ActLeads(game, stride, delays, m, second, Play(input));
    end := With(m, second, Do(game, stride, x, p, Play(input)).value);
    SidesGo(game, stride, delays, end, second);
  }

  /** Nothing given is ever taken back. */
  lemma {:induction false} RawsGrow<S>(game: Game<S, Value>, stride: nat, m: Match<S>, end: Match<S>)
    requires LeadsTo(game, stride, m, end)
    ensures m.a.raw <= end.a.raw && m.b.raw <= end.b.raw
  {
    var turns :| Continues(game, stride, m, turns, end);
    RunKeepsRaws(game, stride, m, turns, end);
  }

  lemma {:induction false} RunKeepsRaws<S>(
    game: Game<S, Value>, stride: nat, m: Match<S>, turns: seq<Turn>, end: Match<S>)
    requires Reaches(game, stride, m, turns, end)
    ensures m.a.raw <= end.a.raw && m.b.raw <= end.b.raw
    decreases |turns|
  {
    if turns != [] {
      var turn := turns[0];
      if turn.second {
        DoKeepsRaw(game, stride, m.b, 1, turn.act);
      } else {
        DoKeepsRaw(game, stride, m.a, 0, turn.act);
      }
      hide Do, MayDo, Prepared;
      var next := Move(game, stride, m, turn);
      assert FairRun(game, stride, next, turns[1..]) && RunMatch(game, stride, next, turns[1..]) == Some(end);
      assert next.Some?;
      RunKeepsRaws(game, stride, next.value, turns[1..], end);
    }
  }

  lemma DoKeepsRaw<S>(game: Game<S, Value>, stride: nat, x: Peer<S>, p: nat, act: Act)
    requires Prepared(stride, x, act) && p < 2
    ensures var done := Do(game, stride, x, p, act); done.Some? ==> x.raw <= done.value.raw
  {
    hide Take, Decoder.Decode, Encoder.Encode, Session.AddLocalInput;
  }

  function RawOf<S>(m: Match<S>, i: nat): seq<Value> {
    if i == 0 then m.a.raw else m.b.raw
  }

  lemma InformedStreams<S>(game: Game<S, Value>, stride: nat, delays: Delays, x: Peer<S>, p: nat, y: Peer<S>)
    requires Pair(game, stride, delays, x, p, y) && Informed(x, p, y)
    ensures p < 2 && |x.session.sync.queues| == 2
    ensures x.session.sync.queues[p].stream == Delayed(Zero(stride), delays(p, p), x.raw)
    ensures x.session.sync.queues[1 - p].stream == Delayed(Zero(stride), delays(p, 1 - p), y.raw)
  {
    Parts(game, stride, delays, x, p, y);
    assert y.raw[..|y.raw|] == y.raw;
    hide Pair, Half, Sending, Runs, Healthy, Confirmed, Delayed, Waiting, Slice, AllFrom;
  }

  lemma StreamOf<S>(game: Game<S, Value>, stride: nat, delays: Delays, m: Match<S>, second: bool, i: nat)
    requires Synced(game, stride, delays, m) && i < 2
    ensures var queues := Me(m, second).session.sync.queues;
            && |queues| == 2
            && queues[i].stream == Delayed(Zero(stride), delays(Seat(second), i), RawOf(m, i))
  {
    hide Pair, Informed, Runs, Delayed;
    PairSwaps(game, stride, delays, m.a, 0, m.b);
    if second {
      InformedStreams(game, stride, delays, m.b, 1, m.a);
    } else {
      InformedStreams(game, stride, delays, m.a, 0, m.b);
    }
  }

  /** With an input that one of them has further back than the other, they disagree where it comes first. */
  lemma {:induction false} Disagree<S>(
    game: Game<S, Value>, stride: nat, delays: Delays, m: Match<S>, i: nat, n: nat)
    requires 0 < stride && Synced(game, stride, delays, m) && i < 2 && delays(0, i) != delays(1, i)
    requires n == Min(delays(0, i), delays(1, i)) + 1 && n <= |m.a.raw| && n <= |m.b.raw|
    requires [One(stride)] <= RawOf(m, i)
    ensures !SameRows(Some(m), n)
  {
    forall k: nat | k < 2
      ensures |m.a.session.sync.queues| == |m.b.session.sync.queues| == 2
      ensures m.a.session.sync.queues[k].stream == Delayed(Zero(stride), delays(0, k), RawOf(m, k))
      ensures m.b.session.sync.queues[k].stream == Delayed(Zero(stride), delays(1, k), RawOf(m, k))
    {
      StreamOf(game, stride, delays, m, false, k);
      StreamOf(game, stride, delays, m, true, k);
    }
    assert RawOf(m, i)[0] == One(stride);
    hide Synced, Delayed, Rows;
    StreamsDisagree(m.a.session.sync.queues, m.b.session.sync.queues, Zero(stride), delays, [m.a.raw, m.b.raw], i, n);
  }

  lemma {:induction false} StreamsDisagree(
    a: seq<Queue<Value>>, b: seq<Queue<Value>>, zero: Value, delays: Delays, raws: seq<seq<Value>>, i: nat, n: nat)
    requires |a| == |b| == |raws| == 2 && i < 2 && delays(0, i) != delays(1, i)
    requires forall k: nat | k < 2 ::
               && a[k].stream == Delayed(zero, delays(0, k), raws[k])
               && b[k].stream == Delayed(zero, delays(1, k), raws[k])
               && n <= |raws[k]|
    requires n == Min(delays(0, i), delays(1, i)) + 1 && raws[i][0] != zero
    ensures forall k: nat | k < 2 :: n <= |a[k].stream| && n <= |b[k].stream|
    ensures Rows(a, n) != Rows(b, n)
  {
    hide Delayed, Rows;
    forall k: nat | k < 2 ensures n <= |a[k].stream| && n <= |b[k].stream| {
      DelayedIsLonger(zero, delays(0, k), raws[k]);
      DelayedIsLonger(zero, delays(1, k), raws[k]);
    }
    DelaysShow(zero, delays(0, i), delays(1, i), raws[i]);
    RowsDiffer(a, b, n, n - 1, i);
  }

  lemma DelayedIsLonger(zero: Value, delay: nat, raw: seq<Value>)
    ensures |raw| <= |Delayed(zero, delay, raw)|
  {
  }

  lemma DelaysShow(zero: Value, c: nat, d: nat, raw: seq<Value>)
    requires c != d && raw != [] && raw[0] != zero && Min(c, d) < |raw|
    ensures var (g, x, y) := (Min(c, d), Delayed(zero, c, raw), Delayed(zero, d, raw));
            0 <= g < |x| && g < |y| && x[g] != y[g]
  {
  }

  lemma RowsDiffer<I>(a: seq<Queue<I>>, b: seq<Queue<I>>, n: nat, g: nat, i: nat)
    requires g < n && i < |a| == |b| && g < |a[i].stream| && g < |b[i].stream| && a[i].stream[g] != b[i].stream[g]
    ensures Rows(a, n) != Rows(b, n)
  {
    assert Rows(a, n)[g][i] != Rows(b, n)[g][i];
  }
}
