/** Two connected peers keep their invariant, and so they converge. */
module Convergence {
  import opened Frames
  import opened QueueModel
  import opened SyncModel
  import opened SavedRing
  import opened Rollback
  import opened SessionModel
  import opened SessionInvariant
  import opened SessionProofs
  import opened Compression
  import opened InputBuffer
  import opened TwoPeers
  import opened Pairs
  import opened PairSteps
  import Bitfield

  // ---------------------------------------------------------------------------------------------
  // Every act keeps the invariant
  // ---------------------------------------------------------------------------------------------

  /** Sending what is pending never fails, and what it sends is sound. */
  lemma {:induction false} SendKeepsPair<S>(
    game: Game<S, Value>, stride: nat, delays: Delays, x: Peer<S>, p: nat, y: Peer<S>)
    requires Pair(game, stride, delays, x, p, y) && MAX_PENDING * stride < MAX_BUFFER_SIZE
    ensures Sized(Payloads(x.encoder.pending), stride)
    ensures var sent := Send(stride, x); sent.Some? && Pair(game, stride, delays, sent.value, p, y)
  {
    hide *;
    Parts(game, stride, delays, x, p, y);
    PendingIsShort(game, stride, delays, x, p, y);
    ReachIsShort(game, stride, delays, x, p, y);
    assert |x.encoder.pending| * stride <= MAX_PENDING * stride;
    SendKeepsSending(stride, x, y);
    var x' := Send(stride, x).value;
    OwnStays(game, stride, delays, x, x', p);
    ReceivedStays(stride, delays, x, x', p, y);
    OthersView(game, stride, delays, x, x', p, y);
    Whole(game, stride, delays, x', p, y);
  }

  /** An accepted local input. */
  lemma {:induction false} PlayKeepsPair<S>(
    game: Game<S, Value>, stride: nat, delays: Delays, x: Peer<S>, p: nat, y: Peer<S>, input: Value)
    requires Pair(game, stride, delays, x, p, y) && |input| == stride
    requires x.session.lastFrame[p] == x.session.sync.frameCount - 1 && Moderate(delays)
    requires x.session.AddLocalInput(p, input).1.Accepted?
    ensures Legal(x.session, LocalInput(p, input))
    ensures var s := x.session.AddLocalInput(p, input).0;
            var n := x.session.sync.frameCount;
            Pair(game, stride, delays,
                 x.(session := s, encoder := x.encoder.Push(FrameInput(n, input)), raw := x.raw + [input]), p, y)
  {
    hide *;
    Parts(game, stride, delays, x, p, y);
    QueuesAreShort(game, stride, delays, x, p, y);
    PlayIsLegal(game, stride, delays, x, p, input);
    PlayKeepsOwn(game, stride, delays, x, p, input);
    var s := x.session.AddLocalInput(p, input).0;
    var x' := x.(session := s, encoder := x.encoder.Push(FrameInput(x.session.sync.frameCount, input)),
                 raw := x.raw + [input]);
    PlayKeepsSending(stride, x, x', y, input);
    PlayKeepsReceived(stride, delays, x, x', p, y, FrameInput(|x.raw|, input));
    OwnStays(game, stride, delays, x.(session := s, raw := x.raw + [input]), x', p);
    OthersView(game, stride, delays, x, x', p, y);
    Whole(game, stride, delays, x', p, y);
  }

  /** A message comes in: whatever it is and whenever it was sent, only missing inputs are taken from it. */
  lemma {:induction false} HearKeepsPair<S>(
    game: Game<S, Value>, stride: nat, delays: Delays, x: Peer<S>, p: nat, y: Peer<S>, m: Message)
    requires Pair(game, stride, delays, x, p, y) && 0 < stride && m in y.net
    ensures Pair(game, stride, delays, Receive(stride, x, 1 - p, m), p, y)
  {
    var x' := Receive(stride, x, 1 - p, m);
    assert Sound(stride, y.raw, x.decoder, m) && m.ack <= y.decoder.lastDecoded;
    hide *;
    Parts(game, stride, delays, x, p, y);
    HearDelivers(stride, x, p, y.raw, m);
    OwnStays(game, stride, delays, x, x', p);
    HearKeepsReceived(stride, delays, x, x', p, y);
    HearKeepsSending(stride, x, x', y, m.ack);
    OthersView(game, stride, delays, x, x', p, y);
    Whole(game, stride, delays, x', p, y);
  }

  lemma {:induction false} ShakeKeepsPair<S>(
    game: Game<S, Value>, stride: nat, delays: Delays, x: Peer<S>, p: nat, y: Peer<S>)
    requires Pair(game, stride, delays, x, p, y)
    ensures Pair(game, stride, delays, x.(inbox := x.inbox + [Arrival(1 - p, PeerSynchronized(true))]), p, y)
  {
    hide *;
    Parts(game, stride, delays, x, p, y);
    var x' := x.(inbox := x.inbox + [Arrival(1 - p, PeerSynchronized(true))]);
    OwnStays(game, stride, delays, x, x', p);
    ShakeKeepsReceived(stride, delays, x, p, y);
    SendingStays(stride, x, x', y);
    OthersView(game, stride, delays, x, x', p, y);
    Whole(game, stride, delays, x', p, y);
  }

  lemma {:induction false} CallKeepsPair<S>(
    game: Game<S, Value>, stride: nat, delays: Delays, x: Peer<S>, p: nat, y: Peer<S>, action: Action<Value>)
    requires Pair(game, stride, delays, x, p, y) && Moderate(delays)
    requires x.session.Shaped() && p < 2 && x.session.Players() == 2
    requires action == Poll(x.inbox)
             || (&& action == Advance(x.inbox)
                 && (!x.session.synchronizing ==> x.session.lastFrame[p] == x.session.sync.frameCount))
    ensures Fits(x.session, action)
    ensures var called := Drain(game, x, action); called.Some? && Pair(game, stride, delays, called.value, p, y)
  {
    hide *;
    Parts(game, stride, delays, x, p, y);
    InboxDrains(game, stride, delays, x, p, y);
    SessionParts(game, stride, delays, x, p, y, action);
    DrainTakes(game, x, action);
    var x' := Drain(game, x, action).value;
    MovedOwn(game, stride, delays, x, x', p, y.raw, x.decoder.lastDecoded + 1);
    MovedReceived(stride, delays, x, x', p, x.raw, y);
    SendingStays(stride, x, x', y);
    OthersView(game, stride, delays, x, x', p, y);
    Whole(game, stride, delays, x', p, y);
  }

  /** For a peer of a pair, in the middle of polling and of advancing. */
  lemma {:induction false} CallsAreShort<S>(
    game: Game<S, Value>, stride: nat, delays: Delays, x: Peer<S>, p: nat, y: Peer<S>)
    requires Pair(game, stride, delays, x, p, y) && Moderate(delays)
    ensures x.session.Shaped() && ArrivalsFit(x.session, x.inbox) && RingsHold(x.session, x.inbox, delays, p)
    ensures p < |x.session.lastFrame|
    ensures !x.session.synchronizing && x.session.lastFrame[p] == x.session.sync.frameCount ==>
              ArrivalsFit(Incremented(x.session), x.inbox) && RingsHold(Incremented(x.session), x.inbox, delays, p)
  {
    QueuesAreShort(game, stride, delays, x, p, y);
    InboxDrains(game, stride, delays, x, p, y);
    Parts(game, stride, delays, x, p, y);
    var hi := x.decoder.lastDecoded + 1;
    assert Sane(x.session) && Holds(x.session.sync.queues[p], stride, delays(p, p), x.raw);
    assert x.session.local == [p == 0, p == 1];
    hide Pair, Half, Own, Received, Sending, Draining, Holds, Sane, RingsHold, ArrivalsFit;
    FlushIsShort(x.session, x.inbox, p, stride, delays, x.raw, y.raw, hi);
    if !x.session.synchronizing && x.session.lastFrame[p] == x.session.sync.frameCount {
      IncrementStaysSane(x.session);
      IncrementHolds(x.session, x.inbox, p, stride, delays, x.raw, y.raw, hi);
      IncrementMovesOn(x.session);
      FlushIsShort(Incremented(x.session), x.inbox, p, stride, delays, x.raw, y.raw, hi);
    }
  }

  // ---------------------------------------------------------------------------------------------
  // Runs
  // ---------------------------------------------------------------------------------------------

  /** The rules: one input per frame, given before the frame is advanced; and only messages that were sent arrive. */
  ghost predicate MayDo<S>(stride: nat, x: Peer<S>, p: nat, y: Peer<S>, act: Act)
    requires p < |x.session.lastFrame|
  {
    match act
    case Play(input) => |input| == stride && x.session.lastFrame[p] == x.session.sync.frameCount - 1
    case Tick => x.session.synchronizing || x.session.lastFrame[p] == x.session.sync.frameCount
    case Hear(message) => message in y.net
    case _ => true
  }

  /** Values small enough for fifteen of them to fit one packet's buffer. */
  ghost predicate Sensible(stride: nat, delays: Delays) {
    0 < stride && MAX_PENDING * stride < MAX_BUFFER_SIZE && Moderate(delays)
  }

  lemma PairIsReady<S>(game: Game<S, Value>, stride: nat, delays: Delays, x: Peer<S>, p: nat, y: Peer<S>, act: Act)
    requires Pair(game, stride, delays, x, p, y) && Sensible(stride, delays)
    requires act.Play? ==> |act.input| == stride
    ensures Prepared(stride, x, act)
  {
    hide Draining, Session.FlushEvents, Compression.Encode;
    InboxDrains(game, stride, delays, x, p, y);
    FlushHolds(x.session, x.inbox, 1 - p, stride, delays(p, 1 - p), y.raw, x.decoder.lastDecoded + 1);
    EncodeKeepsLinked(stride, x.raw, x.encoder, y.decoder);
  }

  /** Whatever a peer does, nothing panics and the pair's invariant holds again. */
  lemma {:induction false} DoKeepsPair<S>(
    game: Game<S, Value>, stride: nat, delays: Delays, x: Peer<S>, p: nat, y: Peer<S>, act: Act)
    requires Pair(game, stride, delays, x, p, y) && Sensible(stride, delays)
    requires p < |x.session.lastFrame| && MayDo(stride, x, p, y, act)
    ensures Prepared(stride, x, act) && p < 2
    ensures var done := Do(game, stride, x, p, act); done.Some? && Pair(game, stride, delays, done.value, p, y)
  {
    hide Pair, Half, Own, Received, Sending, Send, Drain, Receive, Healthy, Session.AddLocalInput;
    PairIsReady(game, stride, delays, x, p, y, act);
    Parts(game, stride, delays, x, p, y);
    match act {
      case Play(input) =>
        if x.session.AddLocalInput(p, input).1.Accepted? {
          PlayKeepsPair(game, stride, delays, x, p, y, input);
          var n := x.session.sync.frameCount;
          AcceptedFrame(x.session, p, input);
          SendKeepsPair(game, stride, delays,
            x.(session := x.session.AddLocalInput(p, input).0, encoder := x.encoder.Push(FrameInput(n, input)),
               raw := x.raw + [input]), p, y);
        }
      case Tick => CallKeepsPair(game, stride, delays, x, p, y, Advance(x.inbox));
      case Look => CallKeepsPair(game, stride, delays, x, p, y, Poll(x.inbox));
      case Resend => SendKeepsPair(game, stride, delays, x, p, y);
      case Hear(message) => HearKeepsPair(game, stride, delays, x, p, y, message);
      case Shake => ShakeKeepsPair(game, stride, delays, x, p, y);
    }
  }

  lemma AcceptedFrame<S>(s: Session<S, Value>, p: nat, input: Value)
    requires s.Shaped() && s.AddLocalInput(p, input).1.Accepted?
    ensures s.AddLocalInput(p, input).1.frame == s.sync.frameCount
  {
  }

  datatype Match<S> = Match(a: Peer<S>, b: Peer<S>)

  datatype Turn = Turn(second: bool, act: Act)

  /** One peer acts. None: it panics. */
  function Move<S>(game: Game<S, Value>, stride: nat, m: Match<S>, turn: Turn): Option<Match<S>>
    requires Prepared(stride, if turn.second then m.b else m.a, turn.act)
  {
    if turn.second then
      match Do(game, stride, m.b, 1, turn.act)
      case None => None
      case Some(b) => Some(m.(b := b))
    else
      match Do(game, stride, m.a, 0, turn.act)
      case None => None
      case Some(a) => Some(m.(a := a))
  }

  ghost predicate MayMove<S>(stride: nat, m: Match<S>, turn: Turn) {
    && |m.a.session.lastFrame| == |m.b.session.lastFrame| == 2
    && if turn.second then Prepared(stride, m.b, turn.act) && MayDo(stride, m.b, 1, m.a, turn.act)
       else Prepared(stride, m.a, turn.act) && MayDo(stride, m.a, 0, m.b, turn.act)
  }

  /** Every move is allowed; a run goes on only while nobody has panicked. */
  ghost predicate FairRun<S>(game: Game<S, Value>, stride: nat, m: Option<Match<S>>, turns: seq<Turn>)
    decreases |turns|
  {
    turns == [] ||
    (&& m.Some? && MayMove(stride, m.value, turns[0])
     && FairRun(game, stride, Move(game, stride, m.value, turns[0]), turns[1..]))
  }

  ghost function RunMatch<S>(game: Game<S, Value>, stride: nat, m: Option<Match<S>>, turns: seq<Turn>): Option<Match<S>>
    requires FairRun(game, stride, m, turns)
    decreases |turns|
  {
    if turns == [] then m else RunMatch(game, stride, Move(game, stride, m.value, turns[0]), turns[1..])
  }

  function NewMatch<S>(game: Game<S, Value>, stride: nat, delays: Delays): Match<S> {
    Match(NewPeer(game, stride, delays, 0), NewPeer(game, stride, delays, 1))
  }

  /** A new peer's session is built with one delay and then given another for the second player. */
  lemma NewPeerIsBuilt<S>(game: Game<S, Value>, stride: nat, delays: Delays, p: nat)
    requires p < 2
    ensures var me := NewPeer(game, stride, delays, p);
            var w := Start(game, Zero(stride), delays(p, 0), me.session.local);
            World(me.session, me.state) == w.(session := w.session.SetFrameDelay(1, delays(p, 1)))
  {
    var me := NewPeer(game, stride, delays, p);
    assert false in me.session.local by {
      assert !me.session.local[1 - p];
    }
  }

  lemma NewPeerIsOwn<S>(game: Game<S, Value>, stride: nat, delays: Delays, p: nat)
    requires p < 2
    ensures Own(game, stride, delays, NewPeer(game, stride, delays, p), p)
  {
    var me := NewPeer(game, stride, delays, p);
    assert false in me.session.local && true in me.session.local by {
      assert me.session.local[p] && !me.session.local[1 - p];
    }
    NewPeerIsBuilt(game, stride, delays, p);
    var w := Start(game, Zero(stride), delays(p, 0), me.session.local);
    StartIsHealthy(game, Zero(stride), delays(p, 0), me.session.local);
    SetDelayKeepsHealthy(game, w, 1, delays(p, 1));
    DelaySet(game, w, 1, delays(p, 1));
  }

  lemma NewMatchIsPair<S>(game: Game<S, Value>, stride: nat, delays: Delays)
    ensures var m := NewMatch(game, stride, delays); Pair(game, stride, delays, m.a, 0, m.b)
  {
    NewPeerIsOwn(game, stride, delays, 0);
    NewPeerIsOwn(game, stride, delays, 1);
    assert Slice([], 0, 0) == [];
    hide Healthy;
  }

  lemma PairSwaps<S>(game: Game<S, Value>, stride: nat, delays: Delays, x: Peer<S>, p: nat, y: Peer<S>)
    requires Pair(game, stride, delays, x, p, y)
    ensures Pair(game, stride, delays, y, 1 - p, x)
  {
    hide Half;
  }

  lemma {:induction false} RunKeepsPair<S>(
    game: Game<S, Value>, stride: nat, delays: Delays, m: Match<S>, turns: seq<Turn>)
    requires Sensible(stride, delays) && Pair(game, stride, delays, m.a, 0, m.b)
    requires FairRun(game, stride, Some(m), turns)
    ensures var final := RunMatch(game, stride, Some(m), turns);
            final.Some? && Pair(game, stride, delays, final.value.a, 0, final.value.b)
    decreases |turns|
  {
    hide Pair, MayDo, Do, Prepared;
    if turns != [] {
      var turn := turns[0];
      if turn.second {
        PairSwaps(game, stride, delays, m.a, 0, m.b);
        DoKeepsPair(game, stride, delays, m.b, 1, m.a, turn.act);
        PairSwaps(game, stride, delays, Do(game, stride, m.b, 1, turn.act).value, 1, m.a);
      } else {
        DoKeepsPair(game, stride, delays, m.a, 0, m.b, turn.act);
      }
      RunKeepsPair(game, stride, delays, Move(game, stride, m, turn).value, turns[1..]);
    }
  }

  // ---------------------------------------------------------------------------------------------
  // Theorems
  // ---------------------------------------------------------------------------------------------

  /** Two prefixes of the same inputs agree as far as both go. */
  lemma DelayedPrefix(zero: Value, delay: nat, raw: seq<Value>, k: nat, g: nat)
    requires k <= |raw| && g < |Delayed(zero, delay, raw[..k])|
    ensures g < |Delayed(zero, delay, raw)| && Delayed(zero, delay, raw)[g] == Delayed(zero, delay, raw[..k])[g]
  {
  }

  /** Both peers have the same delay for each player. */
  ghost predicate SameDelay(delays: Delays) {
    forall i: nat | i < 2 :: delays(0, i) == delays(1, i)
  }

  /** Everybody's inputs for the frames below n are in. */
  ghost predicate Complete<S>(me: Peer<S>, n: nat) {
    forall i | 0 <= i < |me.session.sync.queues| :: n <= |me.session.sync.queues[i].stream|
  }

  lemma {:induction false} SameInputs<S>(
    game: Game<S, Value>, stride: nat, delays: Delays, x: Peer<S>, p: nat, y: Peer<S>, n: nat)
    requires Pair(game, stride, delays, x, p, y) && SameDelay(delays) && Complete(x, n) && Complete(y, n)
    ensures Rows(x.session.sync.queues, n) == Rows(y.session.sync.queues, n)
  {
    Parts(game, stride, delays, x, p, y);
    PairSwaps(game, stride, delays, x, p, y);
    Parts(game, stride, delays, y, 1 - p, x);
    hide Pair, Half, Healthy, Sending;
    var (qx, qy) := (x.session.sync.queues, y.session.sync.queues);
    forall g: nat | g < n ensures Row(qx, g) == Row(qy, g) {
      DelayedPrefix(Zero(stride), delays(p, p), x.raw, y.session.lastFrame[p] + 1, g);
      DelayedPrefix(Zero(stride), delays(p, 1 - p), y.raw, x.session.lastFrame[1 - p] + 1, g);
      forall i | 0 <= i < 2 ensures qx[i].Belief(g) == qy[i].Belief(g) {
        assert i == p || i == 1 - p;
      }
    }
  }

  /**
   Convergence. Over any run of two peers, whatever the network does, neither ever panics. If both have set the same
   delay for each player, then whenever both hold everybody's inputs for all frames below n, the game both of them have
   played up to frame n is the same: as the current state of a client that stands at frame n, and in every saved state
   for it.
   */
  lemma {:induction false} PeersConverge<S>(game: Game<S, Value>, stride: nat, delays: Delays, turns: seq<Turn>, n: nat)
    requires Sensible(stride, delays)
    requires FairRun(game, stride, Some(NewMatch(game, stride, delays)), turns)
    ensures var final := RunMatch(game, stride, Some(NewMatch(game, stride, delays)), turns);
            && final.Some?
            && var (a, b) := (final.value.a, final.value.b);
               && PlaysReplay(game, a, n) && PlaysReplay(game, b, n)
               && (SameDelay(delays) && Complete(a, n) && Complete(b, n) ==>
                     Replay(game, a.session.sync.queues, n) == Replay(game, b.session.sync.queues, n))
               && (SameDelay(delays) && Complete(a, n) && Complete(b, n)
                   && a.session.sync.frameCount == b.session.sync.frameCount == n ==>
                     a.state == b.state)
  {
    NewMatchIsPair(game, stride, delays);
    RunKeepsPair(game, stride, delays, NewMatch(game, stride, delays), turns);
    var final := RunMatch(game, stride, Some(NewMatch(game, stride, delays)), turns).value;
    if SameDelay(delays) && Complete(final.a, n) && Complete(final.b, n) {
      SameInputs(game, stride, delays, final.a, 0, final.b, n);
    }
    HealthyPlaysReplay(game, final.a, n);
    HealthyPlaysReplay(game, final.b, n);
  }

  /** This peer's game at frame n is the replay: its client if it stands there, and every saved state for it. */
  ghost predicate PlaysReplay<S>(game: Game<S, Value>, me: Peer<S>, n: nat) {
    && (me.session.sync.frameCount == n ==> me.state == Replay(game, me.session.sync.queues, n))
    && forall j: nat | j < |me.session.sync.saved.cells| && me.session.sync.saved.cells[j].frame == n ::
         me.session.sync.saved.cells[j].data == Some(Replay(game, me.session.sync.queues, n))
  }

  lemma HealthyPlaysReplay<S>(game: Game<S, Value>, me: Peer<S>, n: nat)
    requires Healthy(game, World(me.session, me.state))
    ensures PlaysReplay(game, me, n)
  {
    var cells := me.session.sync.saved.cells;
    assert forall j: nat | j < |cells| && cells[j].frame == n :: j in Filled(cells);
  }

  /**
   What a peer's act asks of its session is within the session's contract: inputs go where the queue expects them,
   batches continue one another, the ring has room. In the middle of a call, when everything that arrived is in and
   nothing has been discarded, no ring holds more than 15 and its delay. A packet that comes in consists of complete
   integers and whole values.
   */
  ghost predicate SafeAct<S>(stride: nat, delays: Delays, x: Peer<S>, p: nat, act: Act) {
    match act
    case Play(input) => x.session.Shaped() && Legal(x.session, LocalInput(p, input))
    case Look =>
      x.session.Shaped() && Legal(x.session, Poll(x.inbox)) && RingsHold(x.session, x.inbox, delays, p)
    case Tick =>
      && x.session.Shaped() && Legal(x.session, Advance(x.inbox))
      && RingsHold(if x.session.synchronizing then x.session else Incremented(x.session), x.inbox, delays, p)
    case Hear(message) =>
      message.InputMessage? ==>
        0 < stride && Bitfield.DecodeLen(message.bits, 0) != Bitfield.Truncated && WholeValues(message.bits, stride)
    case _ => true
  }

  lemma HeardIsSound<S>(stride: nat, x: Peer<S>, y: Peer<S>, m: Message)
    requires 0 < stride && Sized(y.raw, stride) && Sending(stride, y, x) && m in y.net && m.InputMessage?
    ensures Bitfield.DecodeLen(m.bits, 0) != Bitfield.Truncated && WholeValues(m.bits, stride)
  {
    assert Sound(stride, y.raw, x.decoder, m);
    GenuineIsSound(stride, y.raw, x.decoder, m.start, m.bits);
  }

  lemma {:induction false} ActIsSafe<S>(
    game: Game<S, Value>, stride: nat, delays: Delays, x: Peer<S>, p: nat, y: Peer<S>, act: Act)
    requires Pair(game, stride, delays, x, p, y) && Sensible(stride, delays)
    requires p < |x.session.lastFrame| && MayDo(stride, x, p, y, act)
    ensures SafeAct(stride, delays, x, p, act)
  {
    CallsAreShort(game, stride, delays, x, p, y);
    Parts(game, stride, delays, x, p, y);
    if act.Hear? && act.message.InputMessage? {
      HeardIsSound(stride, x, y, act.message);
    }
    assert Sane(x.session) && x.session.sync.queues[p].delay == delays(p, p) && x.session.local == [p == 0, p == 1];
    hide Pair, Half, Own, Received, Sending, RingsHold, ArrivalsFit, Sane;
    if act.Play? && !x.session.AtBarrier() {
      RoomForLocal(x.session, p, delays(p, p));
    }
  }

  /**
   Over any fair run, every act that a peer may do next is safe: no assertion of a session, a queue or the packet
   decoder ever fails.
   */
  lemma {:induction false} EveryActIsSafe<S>(
    game: Game<S, Value>, stride: nat, delays: Delays, turns: seq<Turn>, turn: Turn)
    requires Sensible(stride, delays)
    requires FairRun(game, stride, Some(NewMatch(game, stride, delays)), turns)
    ensures var final := RunMatch(game, stride, Some(NewMatch(game, stride, delays)), turns);
            && final.Some?
            && (MayMove(stride, final.value, turn) ==>
                  if turn.second then SafeAct(stride, delays, final.value.b, 1, turn.act)
                  else SafeAct(stride, delays, final.value.a, 0, turn.act))
  {
    NewMatchIsPair(game, stride, delays);
    RunKeepsPair(game, stride, delays, NewMatch(game, stride, delays), turns);
    hide Pair, Prepared, MayDo, SafeAct;
    var final := RunMatch(game, stride, Some(NewMatch(game, stride, delays)), turns).value;
    PairSwaps(game, stride, delays, final.a, 0, final.b);
    if MayMove(stride, final, turn) {
      if turn.second {
        ActIsSafe(game, stride, delays, final.b, 1, final.a, turn.act);
      } else {
        ActIsSafe(game, stride, delays, final.a, 0, final.b, turn.act);
      }
    }
  }

  /**
   No ring overflows: over any such run neither peer's queues ever hold more of their 120 inputs than 15 and the delay,
   between calls or in the middle of the next one; and neither peer has more than fifteen inputs pending.
   */
  lemma {:induction false} RingsNeverOverflow<S>(game: Game<S, Value>, stride: nat, delays: Delays, turns: seq<Turn>)
    requires Sensible(stride, delays)
    requires FairRun(game, stride, Some(NewMatch(game, stride, delays)), turns)
    ensures var final := RunMatch(game, stride, Some(NewMatch(game, stride, delays)), turns);
            && final.Some? && 15 + MAX_DELAY <= MAX_ROLLBACK_FRAMES
            && RingsKept(final.value.a, 0, delays) && RingsKept(final.value.b, 1, delays)
            && |final.value.a.encoder.pending| <= MAX_PENDING && |final.value.b.encoder.pending| <= MAX_PENDING
  {
    NewMatchIsPair(game, stride, delays);
    RunKeepsPair(game, stride, delays, NewMatch(game, stride, delays), turns);
    hide Pair, Prepared, MayDo, RingsKept;
    var final := RunMatch(game, stride, Some(NewMatch(game, stride, delays)), turns).value;
    PairSwaps(game, stride, delays, final.a, 0, final.b);
    PairKeepsRings(game, stride, delays, final.a, 0, final.b);
    PairKeepsRings(game, stride, delays, final.b, 1, final.a);
  }

  /** A peer's queues as they are, once its inbox is in, and the same after playing a frame that it may play. */
  ghost predicate RingsKept<S>(x: Peer<S>, p: nat, delays: Delays) {
    && p < |x.session.lastFrame| && x.session.Shaped() && ArrivalsFit(x.session, x.inbox)
    && (forall i | 0 <= i < |x.session.sync.queues| :: InUse(x.session.sync.queues[i]) <= 15 + delays(p, i))
    && RingsHold(x.session, x.inbox, delays, p)
    && (!x.session.synchronizing && x.session.lastFrame[p] == x.session.sync.frameCount ==>
          RingsHold(Incremented(x.session), x.inbox, delays, p))
  }

  lemma PairKeepsRings<S>(game: Game<S, Value>, stride: nat, delays: Delays, x: Peer<S>, p: nat, y: Peer<S>)
    requires Pair(game, stride, delays, x, p, y) && Moderate(delays)
    ensures RingsKept(x, p, delays) && |x.encoder.pending| <= MAX_PENDING
  {
    QueuesAreShort(game, stride, delays, x, p, y);
    PendingIsShort(game, stride, delays, x, p, y);
    CallsAreShort(game, stride, delays, x, p, y);
    Parts(game, stride, delays, x, p, y);
    hide Pair, RingsHold, ArrivalsFit;
  }
}
