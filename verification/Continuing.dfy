/**
 How a run of two peers goes on. What each act of a peer does to the few things the argument about progress needs of it:
 its frame, how many inputs it has and whether it runs; how turns follow one another; and that a retransmission, once it
 has been heard and polled, leaves a peer with all inputs there are. The two theorems about whole runs that need to
 continue a run build on these steps.
 */
module Continuing {
  import opened Frames
  import opened QueueModel
  import opened SyncModel
  import opened SessionModel
  import opened SessionInvariant
  import opened SessionProofs
  import opened Compression
  import opened InputBuffer
  import opened TwoPeers
  import opened Pairs
  import opened PairSteps
  import opened Convergence

  // ---------------------------------------------------------------------------------------------
  // What a call of a running session does
  // ---------------------------------------------------------------------------------------------

  /** A session that runs keeps running. */
  lemma {:induction false} FlushKeepsRunning<S>(s: Session<S, Value>, inbox: seq<Arrival<Value>>)
    requires s.Shaped() && s.WellFormed(inbox) && !s.synchronizing
    ensures !s.FlushEvents(inbox).0.synchronizing
    decreases |inbox|
  {
    if inbox != [] {
      if inbox[0].event.Inputs? {
        ReceiveKeepsEngine(s, inbox[0].player, inbox[0].event.batch);
      }
      FlushKeepsRunning(s.HandleEvent(inbox[0].player, inbox[0].event).0, inbox[1..]);
    }
  }

  /** The least of two frames. */
  lemma LeastOfTwo(frames: seq<Frame>, p: nat)
    requires |frames| == 2 && p < 2
    ensures Least(frames) == Min(frames[p], frames[1 - p])
  {
  }

  lemma OneRemote(local: seq<bool>, p: nat)
    requires p < 2 && local == [p == 0, p == 1]
    ensures false in local && Remotes(local) == 1
  {
    assert local[1 - p] == false;
    assert local[..1] == [p == 0];
    assert Remotes([p == 0]) == if p == 0 then 0 else 1;
  }

  /** After polling or advancing, a running session has confirmed the lesser of the two players' last frames. */
  ghost predicate Confirmed<S>(s: Session<S, Value>) {
    && !s.synchronizing && |s.lastFrame| == 2
    && (0 <= Min(s.lastFrame[0], s.lastFrame[1]) ==> s.sync.lastConfirmed == Min(s.lastFrame[0], s.lastFrame[1]))
  }

  lemma {:induction false} CallConfirms<S>(
    game: Game<S, Value>, w: World<S, Value>, action: Action<Value>, p: nat, s: Session<S, Value>)
    requires Healthy(game, w) && !w.session.synchronizing && p < 2 && w.session.local == [p == 0, p == 1]
    requires action.Poll? || (action.Advance? && w.session.lastFrame[p] == w.session.sync.frameCount)
    requires s == if action.Poll? then w.session else Incremented(w.session)
    requires ArrivalsFit(s, action.arrivals) && Fits(w.session, action) && Legal(w.session, action)
    ensures var w' := Take(game, w, action);
            && w'.World? && Confirmed(w'.session) && w'.session.sync.frameCount == s.sync.frameCount
  {
    if action.Advance? {
      IncrementStaysSane(w.session);
    }
    assert Sane(s) && !s.synchronizing && s.local == w.session.local;
    hide Sane, Faithful, Healthy;
    SaneIsShaped(s);
    FittingIsWellFormed(s, action.arrivals);
    var r := s.FlushEvents(action.arrivals).0;
    SaneStartsGrowing(s);
    FlushKeepsGrowing(s, s.sync.queues, action.arrivals);
    FlushKeepsEngine(s, action.arrivals);
    FlushKeepsRunning(s, action.arrivals);
    FlaggedFrameIsRecent(r, s.sync.queues);
    CallSettles(w.session, action, s);
    hide Growing, Legal, ArrivalsFit, Session.WellFormed, Session.FlushEvents, SettlesFrom;
    CallLeaves(game, w, action, r, s.sync.queues);
    OneRemote(r.local, p);
    LeastOfTwo(r.lastFrame, 0);
  }

  lemma CallSettles<S>(w: Session<S, Value>, action: Action<Value>, s: Session<S, Value>)
    requires w.Shaped() && w.Players() == 2 && !w.synchronizing && (action.Poll? || action.Advance?)
    requires Fits(w, action)
    requires s == if action.Poll? then w else Incremented(w)
    requires s.WellFormed(action.arrivals)
    requires var r := s.FlushEvents(action.arrivals).0; r.Shaped() && CanCheck(r.sync) && !r.synchronizing
    ensures SettlesFrom(w, action, s.FlushEvents(action.arrivals).0)
  {
  }

  // ---------------------------------------------------------------------------------------------
  // What each act does
  // ---------------------------------------------------------------------------------------------

  /** What the argument needs of a peer: its frame, how many inputs it has, and that it runs. */
  ghost predicate Runs<S>(x: Peer<S>, p: nat) {
    && p < 2 && |x.session.lastFrame| == 2 && !x.session.synchronizing
    && x.session.sync.frameCount <= |x.raw| <= x.session.sync.frameCount + 1
    && x.session.lastFrame[p] + 1 == |x.raw|
  }

  lemma OwnRuns<S>(game: Game<S, Value>, stride: nat, delays: Delays, x: Peer<S>, p: nat, y: Peer<S>)
    requires Pair(game, stride, delays, x, p, y) && !x.session.synchronizing
    ensures Runs(x, p)
  {
    assert Tracked(x.session, p);
  }

  /** Polling and advancing. */
  lemma {:induction false} CallDoes<S>(
    game: Game<S, Value>, stride: nat, delays: Delays, x: Peer<S>, p: nat, y: Peer<S>, act: Act)
    requires Pair(game, stride, delays, x, p, y) && Sensible(stride, delays) && Runs(x, p)
    requires act == Look || (act == Tick && x.session.lastFrame[p] == x.session.sync.frameCount)
    ensures Prepared(stride, x, act)
    ensures var done := Do(game, stride, x, p, act);
            && done.Some?
            && var x' := done.value;
               && x' == x.(session := x'.session, state := x'.state, inbox := [])
               && Confirmed(x'.session)
               && x'.session.sync.frameCount == x.session.sync.frameCount + (if act == Look then 0 else 1)
  {
    PairIsReady(game, stride, delays, x, p, y, act);
    ActIsSafe(game, stride, delays, x, p, y, act);
    assert Healthy(game, World(x.session, x.state)) && x.session.local == [p == 0, p == 1];
    hide Pair, Healthy, Legal, RingsHold, Confirmed;
    var w := World(x.session, x.state);
    var action := if act == Look then Poll(x.inbox) else Advance(x.inbox);
    var s := if act == Look then x.session else Incremented(x.session);
    LegalArrives(x.session, action);
    CallConfirms(game, w, action, p, s);
    IncrementCounts(x.session);
  }

  lemma LegalArrives<S>(s: Session<S, Value>, action: Action<Value>)
    requires s.Shaped() && !s.synchronizing && (action.Poll? || action.Advance?) && Legal(s, action)
    ensures ArrivalsFit(if action.Poll? then s else Incremented(s), action.arrivals)
  {
  }

  lemma IncrementCounts<S>(s: Session<S, Value>)
    requires s.Shaped()
    ensures Incremented(s).sync.frameCount == s.sync.frameCount + 1
  {
  }

  /** What the other peer has once it hears a retransmission: all inputs there are. */
  lemma {:induction false} ResendReaches<S>(stride: nat, x: Peer<S>, y: Peer<S>, p: nat)
    returns (m: Message)
    requires 0 < stride && Sized(x.raw, stride) && Linked(x.raw, x.encoder, y.decoder)
    requires |x.encoder.pending| * stride < MAX_BUFFER_SIZE
    ensures Sized(Payloads(x.encoder.pending), stride)
    ensures var sent := Send(stride, x);
            && sent.Some? && m in sent.value.net
            && sent.value == x.(encoder := sent.value.encoder, net := sent.value.net)
    ensures var y' := Receive(stride, y, p, m);
            && y' == y.(encoder := y'.encoder, decoder := y'.decoder, inbox := y'.inbox, net := y'.net)
            && y'.decoder.lastDecoded == |x.raw| - 1
  {
    hide Compression.Encode, Compression.Decode;
    EncodeKeepsLinked(stride, x.raw, x.encoder, y.decoder);
    var (_, start, bits) := x.encoder.Encode(stride);
    m := InputMessage(start, x.decoder.lastDecoded, bits.bytes);
    var first := |x.raw| - |x.encoder.pending|;
    if x.encoder.pending == [] {
      DecodeNothing(stride, y.decoder, start);
    } else {
      assert Payloads(x.encoder.pending) == x.raw[first..|x.raw|];
      DecodeCarried(stride, x.raw, y.decoder, first, |x.raw|, bits.bytes);
    }
  }

  /** An input for the current frame is taken when the session is not far ahead of what it has confirmed. */
  lemma {:induction false} PlayDoes<S>(
    game: Game<S, Value>, stride: nat, delays: Delays, x: Peer<S>, p: nat, y: Peer<S>, input: Value)
    requires Pair(game, stride, delays, x, p, y) && Sensible(stride, delays) && Runs(x, p) && |input| == stride
    requires |x.raw| == x.session.sync.frameCount && !x.session.AtBarrier()
    ensures Prepared(stride, x, Play(input))
    ensures var done := Do(game, stride, x, p, Play(input));
            && done.Some?
            && var x' := done.value;
               && Runs(x', p) && x'.raw == x.raw + [input] && x'.session.sync.frameCount == x.session.sync.frameCount
  {
    PairIsReady(game, stride, delays, x, p, y, Play(input));
    DoKeepsPair(game, stride, delays, x, p, y, Play(input));
    assert x.session.local == [p == 0, p == 1] && x.session.Shaped();
    hide Pair, Compression.Encode;
  }

  // ---------------------------------------------------------------------------------------------
  // Continuing a run
  // ---------------------------------------------------------------------------------------------

  function Me<S>(m: Match<S>, second: bool): Peer<S> {
    if second then m.b else m.a
  }

  function With<S>(m: Match<S>, second: bool, x: Peer<S>): Match<S> {
    if second then m.(b := x) else m.(a := x)
  }

  function Seat(second: bool): nat {
    if second then 1 else 0
  }

  /** Both peers run, and the invariant of a pair holds between them. */
  ghost predicate Going<S>(game: Game<S, Value>, stride: nat, delays: Delays, m: Match<S>) {
    Pair(game, stride, delays, m.a, 0, m.b) && Runs(m.a, 0) && Runs(m.b, 1)
  }

  lemma GoingSides<S>(game: Game<S, Value>, stride: nat, delays: Delays, m: Match<S>, second: bool)
    requires Going(game, stride, delays, m)
    ensures Pair(game, stride, delays, Me(m, second), Seat(second), Me(m, !second))
    ensures Runs(Me(m, second), Seat(second)) && Runs(Me(m, !second), 1 - Seat(second))
  {
    hide Pair;
    PairSwaps(game, stride, delays, m.a, 0, m.b);
  }

  lemma SidesGo<S>(game: Game<S, Value>, stride: nat, delays: Delays, m: Match<S>, second: bool)
    requires Pair(game, stride, delays, Me(m, second), Seat(second), Me(m, !second))
    requires Runs(Me(m, second), Seat(second)) && Runs(Me(m, !second), 1 - Seat(second))
    ensures Going(game, stride, delays, m)
  {
    hide Pair;
    PairSwaps(game, stride, delays, Me(m, second), Seat(second), Me(m, !second));
  }

  /** Turns that lead from one match to another. */
  ghost predicate Reaches<S>(game: Game<S, Value>, stride: nat, m: Match<S>, turns: seq<Turn>, end: Match<S>) {
    FairRun(game, stride, Some(m), turns) && RunMatch(game, stride, Some(m), turns) == Some(end)
  }

  /** No further handshakes are needed. */
  ghost predicate Continues<S>(game: Game<S, Value>, stride: nat, m: Match<S>, turns: seq<Turn>, end: Match<S>) {
    (forall t | t in turns :: !t.act.Shake?) && Reaches(game, stride, m, turns, end)
  }

  ghost predicate LeadsTo<S>(game: Game<S, Value>, stride: nat, m: Match<S>, end: Match<S>) {
    exists turns :: Continues(game, stride, m, turns, end)
  }

  lemma StaysPut<S>(game: Game<S, Value>, stride: nat, m: Match<S>)
    ensures LeadsTo(game, stride, m, m)
  {
    assert Continues(game, stride, m, [], m);
  }

  lemma {:induction false} TurnsAppend<S>(
    game: Game<S, Value>, stride: nat, m: Match<S>, a: seq<Turn>, mid: Match<S>, b: seq<Turn>, end: Match<S>)
    requires Reaches(game, stride, m, a, mid) && Reaches(game, stride, mid, b, end)
    ensures Reaches(game, stride, m, a + b, end)
    decreases |a|
  {
    hide Move, MayDo, Prepared;
    if a == [] {
      assert a + b == b;
    } else {
      var next := Move(game, stride, m, a[0]);
      assert (a + b)[1..] == a[1..] + b;
      assert FairRun(game, stride, next, a[1..]) && RunMatch(game, stride, next, a[1..]) == Some(mid);
      assert next.Some?;
      TurnsAppend(game, stride, next.value, a[1..], mid, b, end);
      assert (a + b)[0] == a[0];
    }
  }

  lemma OneTurn<S>(game: Game<S, Value>, stride: nat, m: Match<S>, turn: Turn, end: Match<S>)
    requires MayMove(stride, m, turn) && Move(game, stride, m, turn) == Some(end)
    ensures Reaches(game, stride, m, [turn], end)
  {
    hide Move, MayMove;
    assert [turn][1..] == [] && FairRun(game, stride, Some(end), []);
    assert FairRun(game, stride, Some(m), [turn]);
    assert RunMatch(game, stride, Some(m), [turn]) == RunMatch(game, stride, Some(end), []) == Some(end);
  }

  lemma LeadsOn<S>(game: Game<S, Value>, stride: nat, m: Match<S>, mid: Match<S>, end: Match<S>)
    requires LeadsTo(game, stride, m, mid) && LeadsTo(game, stride, mid, end)
    ensures LeadsTo(game, stride, m, end)
  {
    var a :| Continues(game, stride, m, a, mid);
    var b :| Continues(game, stride, mid, b, end);
    TurnsAppend(game, stride, m, a, mid, b, end);
    assert Continues(game, stride, m, a + b, end);
  }

  /** One act of one peer. */
  lemma {:induction false} ActLeads<S>(
    game: Game<S, Value>, stride: nat, delays: Delays, m: Match<S>, second: bool, act: Act)
    requires Going(game, stride, delays, m) && Sensible(stride, delays) && !act.Shake?
    requires Seat(second) < |Me(m, second).session.lastFrame|
    requires MayDo(stride, Me(m, second), Seat(second), Me(m, !second), act)
    ensures Prepared(stride, Me(m, second), act)
    ensures var done := Do(game, stride, Me(m, second), Seat(second), act);
            && done.Some?
            && LeadsTo(game, stride, m, With(m, second, done.value))
            && Pair(game, stride, delays, done.value, Seat(second), Me(m, !second))
  {
    GoingSides(game, stride, delays, m, second);
    hide Pair, MayDo, Do, Prepared;
    DoKeepsPair(game, stride, delays, Me(m, second), Seat(second), Me(m, !second), act);
    var turn := Turn(second, act);
    var end := With(m, second, Do(game, stride, Me(m, second), Seat(second), act).value);
    OneTurn(game, stride, m, turn, end);
    assert Continues(game, stride, m, [turn], end);
  }

  // ---------------------------------------------------------------------------------------------
  // Exchanging everything
  // ---------------------------------------------------------------------------------------------

  /** A peer that has taken in all the other has given. */
  ghost predicate Informed<S>(x: Peer<S>, p: nat, y: Peer<S>) {
    && Runs(x, p) && Confirmed(x.session) && x.session.lastFrame[1 - p] + 1 == |y.raw|
  }

  /** The same frames and inputs as before, and still going. */
  ghost predicate SameProgress<S>(m: Match<S>, end: Match<S>) {
    && end.a.raw == m.a.raw && end.b.raw == m.b.raw
    && end.a.session.sync.frameCount == m.a.session.sync.frameCount
    && end.b.session.sync.frameCount == m.b.session.sync.frameCount
  }

  /** A peer retransmits what it has pending. */
  lemma {:induction false} SendOut<S>(game: Game<S, Value>, stride: nat, delays: Delays, m: Match<S>, second: bool)
    returns (end: Match<S>, message: Message)
    requires Going(game, stride, delays, m) && Sensible(stride, delays)
    ensures LeadsTo(game, stride, m, end) && Going(game, stride, delays, end)
    ensures var (x, x') := (Me(m, second), Me(end, second));
            && end == With(m, second, x') && x' == x.(encoder := x'.encoder, net := x'.net) && message in x'.net
            && Receive(stride, Me(m, !second), Seat(second), message).decoder.lastDecoded == |x.raw| - 1
  {
    hide *;
    var (x, y, p) := (Me(m, second), Me(m, !second), Seat(second));
    SeatIs(m, second);
    GoingSides(game, stride, delays, m, second);
    RunsIsRunning(x, p);
    PendingFits(game, stride, delays, x, p, y);
    message := ResendReaches(stride, x, y, p);
    ResendIs(game, stride, x, p, y);
    ActLeads(game, stride, delays, m, second, Resend);
    end := With(m, second, Send(stride, x).value);
    RunsStays(x, Me(end, second), p);
    SidesGo(game, stride, delays, end, second);
  }

  lemma PendingFits<S>(game: Game<S, Value>, stride: nat, delays: Delays, x: Peer<S>, p: nat, y: Peer<S>)
    requires Pair(game, stride, delays, x, p, y) && Sensible(stride, delays)
    ensures 0 < stride && Sized(x.raw, stride) && Linked(x.raw, x.encoder, y.decoder)
    ensures |x.encoder.pending| * stride < MAX_BUFFER_SIZE
  {
    Parts(game, stride, delays, x, p, y);
    PendingIsShort(game, stride, delays, x, p, y);
    hide Pair, Received, Linked, Sound;
    NoMore(|x.encoder.pending|, MAX_PENDING, stride);
  }

  lemma NoMore(a: nat, b: nat, stride: nat)
    requires a <= b
    ensures a * stride <= b * stride
  {
  }

  lemma SeatIs<S>(m: Match<S>, second: bool)
    ensures Seat(second) == (if second then 1 else 0) && Seat(!second) == 1 - Seat(second) < 2
    ensures forall x: Peer<S> ::
              Me(With(m, second, x), second) == x && Me(With(m, second, x), !second) == Me(m, !second)
  {
  }

  lemma ResendIs<S>(game: Game<S, Value>, stride: nat, x: Peer<S>, p: nat, y: Peer<S>)
    ensures p < |x.session.lastFrame| ==> MayDo(stride, x, p, y, Resend)
    ensures Prepared(stride, x, Resend) && p < 2 ==> Do(game, stride, x, p, Resend) == Send(stride, x)
  {
  }

  lemma HearIs<S>(game: Game<S, Value>, stride: nat, x: Peer<S>, p: nat, y: Peer<S>, message: Message)
    requires message in y.net
    ensures p < |x.session.lastFrame| ==> MayDo(stride, x, p, y, Hear(message))
    ensures Prepared(stride, x, Hear(message)) && p < 2 ==>
              Do(game, stride, x, p, Hear(message)) == Some(Receive(stride, x, 1 - p, message))
  {
  }

  /** A peer hears a message that has been sent to it. */
  lemma {:induction false} TakeIn<S>(
    game: Game<S, Value>, stride: nat, delays: Delays, m: Match<S>, second: bool, message: Message)
    returns (end: Match<S>)
    requires Going(game, stride, delays, m) && Sensible(stride, delays) && message in Me(m, !second).net
    ensures LeadsTo(game, stride, m, end) && Going(game, stride, delays, end)
    ensures var (x, x') := (Me(m, second), Me(end, second));
            && end == With(m, second, x') && x' == Receive(stride, x, 1 - Seat(second), message)
            && x'.session == x.session && x'.raw == x.raw
  {
    hide *;
    var (x, p) := (Me(m, second), Seat(second));
    SeatIs(m, second);
    GoingSides(game, stride, delays, m, second);
    RunsIsRunning(x, p);
    PendingFits(game, stride, delays, x, p, Me(m, !second));
    ReceiveKeepsSession(stride, x, 1 - p, message);
    HearIs(game, stride, x, p, Me(m, !second), message);
    ActLeads(game, stride, delays, m, second, Hear(message));
    end := With(m, second, Receive(stride, x, 1 - p, message));
    RunsStays(x, Me(end, second), p);
    SidesGo(game, stride, delays, end, second);
  }

  lemma ReceiveKeepsSession<S>(stride: nat, x: Peer<S>, other: nat, message: Message)
    requires 0 < stride
    ensures var x' := Receive(stride, x, other, message); x'.session == x.session && x'.raw == x.raw
  {
    hide Decoder.Decode;
  }

  /** A peer polls. */
  lemma {:induction false} LookUp<S>(game: Game<S, Value>, stride: nat, delays: Delays, m: Match<S>, second: bool)
    returns (end: Match<S>)
    requires Going(game, stride, delays, m) && Sensible(stride, delays)
    ensures LeadsTo(game, stride, m, end) && Going(game, stride, delays, end)
    ensures var (x, x') := (Me(m, second), Me(end, second));
            && end == With(m, second, x') && x'.raw == x.raw
            && x'.session.sync.frameCount == x.session.sync.frameCount
            && (x.decoder.lastDecoded + 1 == |Me(m, !second).raw| ==> Informed(x', Seat(second), Me(m, !second)))
  {
    var (x, y, p) := (Me(m, second), Me(m, !second), Seat(second));
    GoingSides(game, stride, delays, m, second);
    RunsIsRunning(x, p);
    hide Pair, Runs, LeadsTo, Going, Do, Confirmed;
    ActLeads(game, stride, delays, m, second, Look);
    CallDoes(game, stride, delays, x, p, y, Look);
    var x' := Do(game, stride, x, p, Look).value;
    end := With(m, second, x');
    RunsOfPair(game, stride, delays, x', p, y);
    if x.decoder.lastDecoded + 1 == |y.raw| {
      LookedIsInformed(game, stride, delays, x', p, y);
    }
    SidesGo(game, stride, delays, end, second);
  }

  /** One peer retransmits, the other hears it and polls. */
  lemma {:induction false} Inform<S>(game: Game<S, Value>, stride: nat, delays: Delays, m: Match<S>, second: bool)
    returns (end: Match<S>)
    requires Going(game, stride, delays, m) && Sensible(stride, delays)
    ensures LeadsTo(game, stride, m, end) && Going(game, stride, delays, end) && SameProgress(m, end)
    ensures Informed(Me(end, !second), 1 - Seat(second), Me(end, second))
    ensures Me(end, second).session == Me(m, second).session
  {
    hide Pair, LeadsTo, Going, Informed, Receive, Sensible;
    var m1, message := SendOut(game, stride, delays, m, second);
    var m2 := TakeIn(game, stride, delays, m1, !second, message);
    end := LookUp(game, stride, delays, m2, !second);
    LeadsOn(game, stride, m, m1, m2);
    LeadsOn(game, stride, m, m2, end);
    InformedOf(Me(end, !second), 1 - Seat(second), Me(m2, second), Me(end, second));
  }

  lemma InformedOf<S>(x: Peer<S>, p: nat, y: Peer<S>, y': Peer<S>)
    requires Informed(x, p, y) && |y'.raw| == |y.raw|
    ensures Informed(x, p, y')
  {
  }

  lemma RunsStays<S>(x: Peer<S>, x': Peer<S>, p: nat)
    requires Runs(x, p) && x'.session == x.session && x'.raw == x.raw
    ensures Runs(x', p)
  {
  }

  lemma RunsIsRunning<S>(x: Peer<S>, p: nat)
    requires Runs(x, p)
    ensures p < |x.session.lastFrame|
  {
  }

  lemma RunsOfPair<S>(game: Game<S, Value>, stride: nat, delays: Delays, x: Peer<S>, p: nat, y: Peer<S>)
    requires Pair(game, stride, delays, x, p, y) && Confirmed(x.session)
    ensures Runs(x, p)
  {
    OwnRuns(game, stride, delays, x, p, y);
  }

  /** With an empty inbox a peer's session has all that its connection has decoded. */
  lemma LookedIsInformed<S>(game: Game<S, Value>, stride: nat, delays: Delays, x: Peer<S>, p: nat, y: Peer<S>)
    requires Pair(game, stride, delays, x, p, y) && Confirmed(x.session)
    requires x.inbox == [] && x.decoder.lastDecoded + 1 == |y.raw|
    ensures Informed(x, p, y)
  {
    OwnRuns(game, stride, delays, x, p, y);
    assert |Slice(y.raw, x.session.lastFrame[1 - p] + 1, x.decoder.lastDecoded + 1)| == |Waiting([])|;
  }
}
