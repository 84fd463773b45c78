/**
 Two peers never deadlock. Their prediction barriers hold them back, but from wherever a fair run has brought them,
 retransmitting and listening lets both play on, as far as one likes.
 */
module Progress {
  import opened Frames
  import opened QueueModel
  import opened SyncModel
  import opened SessionModel
  import opened SessionInvariant
  import opened SessionProofs
  import opened Compression
  import opened InputBuffer
  import opened TwoPeers
  import opened Pairs
  import opened PairSteps
  import opened Convergence
  import opened Continuing

  // ---------------------------------------------------------------------------------------------
  // Main results
  // ---------------------------------------------------------------------------------------------

  /**
   No deadlock. Wherever a fair run has brought two peers, once both their handshakes are done, and whatever has been
   lost: there is a way to go on, by retransmitting, hearing, polling, giving inputs and advancing, in which both reach
   any frame one cares to name.
   */
  lemma {:induction false} PeersNeverDeadlock<S>(
    game: Game<S, Value>, stride: nat, delays: Delays, turns: seq<Turn>, n: nat)
    requires Sensible(stride, delays)
    requires FairRun(game, stride, Some(NewMatch(game, stride, delays)), turns)
    ensures var final := RunMatch(game, stride, Some(NewMatch(game, stride, delays)), turns);
            && final.Some?
            && (!final.value.a.session.synchronizing && !final.value.b.session.synchronizing ==>
                  exists end: Match<S> ::
                    && LeadsTo(game, stride, final.value, end)
                    && n <= end.a.session.sync.frameCount && n <= end.b.session.sync.frameCount)
  {
    NewMatchIsPair(game, stride, delays);
    RunKeepsPair(game, stride, delays, NewMatch(game, stride, delays), turns);
    hide Pair, LeadsTo, Sensible, Prepared, MayMove;
    var m := RunMatch(game, stride, Some(NewMatch(game, stride, delays)), turns).value;
    if !m.a.session.synchronizing && !m.b.session.synchronizing {
      PairSwaps(game, stride, delays, m.a, 0, m.b);
      OwnRuns(game, stride, delays, m.a, 0, m.b);
      OwnRuns(game, stride, delays, m.b, 1, m.a);
      var end := PlayOn(game, stride, delays, m, n, n + 1 + FrameOf(m, false) + FrameOf(m, true));
      assert LeadsTo(game, stride, m, end);
    }
  }

  /** Both retransmit, listen and poll. */
  lemma {:induction false} Exchange<S>(game: Game<S, Value>, stride: nat, delays: Delays, m: Match<S>)
    returns (end: Match<S>)
    requires Going(game, stride, delays, m) && Sensible(stride, delays)
    ensures LeadsTo(game, stride, m, end) && Synced(game, stride, delays, end) && SameProgress(m, end)
  {
    hide Pair, LeadsTo, Going, Informed, Sensible;
    var mid := Inform(game, stride, delays, m, false);
    end := Inform(game, stride, delays, mid, true);
    LeadsOn(game, stride, m, mid, end);
    SameSession(mid.b, end.b, 1, mid.a, end.a);
  }

  /**
   One acknowledgement is enough. When a retransmission brings the other peer anything new, the other acknowledges
   everything there is on the spot; once that is heard, only the very last input is still pending.
   */
  lemma {:induction false} OneAckIsEnough<S>(
    game: Game<S, Value>, stride: nat, delays: Delays, x: Peer<S>, p: nat, y: Peer<S>)
    returns (m: Message)
    requires Pair(game, stride, delays, x, p, y) && Sensible(stride, delays) && y.decoder.lastDecoded + 1 < |x.raw|
    ensures Sized(Payloads(x.encoder.pending), stride)
    ensures var sent := Send(stride, x);
            sent.Some? && m in sent.value.net && 0 < stride && sent.value.encoder.lastEncoded == |x.raw| - 1
    ensures InputAck(|x.raw| - 1) in Receive(stride, y, p, m).net
    ensures Receive(stride, Send(stride, x).value, 1 - p, InputAck(|x.raw| - 1)).encoder.pending ==
            [FrameInput(|x.raw| - 1, x.raw[|x.raw| - 1])]
  {
    hide *;
    Parts(game, stride, delays, x, p, y);
    PendingFits(game, stride, delays, x, p, y);
    m := ResendReaches(stride, x, y, p);
    NewsIsAcknowledged(stride, y, p, m);
    LastStaysPending(stride, x, 1 - p, y.decoder);
  }

  lemma LastStaysPending<S>(stride: nat, x: Peer<S>, other: nat, decoder: Decoder)
    requires 0 < stride && x.raw != [] && Sized(x.raw, stride) && Linked(x.raw, x.encoder, decoder)
    requires Sized(Payloads(x.encoder.pending), stride) && Send(stride, x).Some?
    ensures Receive(stride, Send(stride, x).value, other, InputAck(|x.raw| - 1)).encoder.pending ==
            [FrameInput(|x.raw| - 1, x.raw[|x.raw| - 1])]
    ensures Send(stride, x).value.encoder.lastEncoded == |x.raw| - 1
  {
    EncodeKeepsLinked(stride, x.raw, x.encoder, decoder);
    var encoder := Send(stride, x).value.encoder;
    hide Compression.Encode, Encoder.Acknowledge;
    AllDecodedStaysLinked(x.raw, encoder, decoder);
    AcknowledgeKeepsLinked(x.raw, encoder, Decoder(|x.raw| - 1), |x.raw| - 1);
  }

  lemma NewsIsAcknowledged<S>(stride: nat, y: Peer<S>, other: nat, m: Message)
    requires 0 < stride
    ensures var y' := Receive(stride, y, other, m);
            y'.decoder.lastDecoded != y.decoder.lastDecoded ==> InputAck(y'.decoder.lastDecoded) in y'.net
  {
    hide Compression.Decode, SkipTo, Number;
  }

  lemma AllDecodedStaysLinked(raw: seq<Value>, encoder: Encoder, decoder: Decoder)
    requires Linked(raw, encoder, decoder) && raw != []
    ensures Linked(raw, encoder, Decoder(|raw| - 1))
  {
  }

  /** The one with no more inputs than the other is not at its barrier. */
  lemma BehindIsFree<S>(x: Peer<S>, p: nat, y: Peer<S>)
    requires Informed(x, p, y) && |x.raw| <= |y.raw| && |x.raw| == x.session.sync.frameCount
    ensures !x.session.AtBarrier()
  {
  }

  // ---------------------------------------------------------------------------------------------
  // Playing on
  // ---------------------------------------------------------------------------------------------

  /** Both peers have all there is. */
  ghost predicate Synced<S>(game: Game<S, Value>, stride: nat, delays: Delays, m: Match<S>) {
    Going(game, stride, delays, m) && Informed(m.a, 0, m.b) && Informed(m.b, 1, m.a)
  }

  /** Being informed is a matter of the session and of how many inputs there are. */
  lemma SameSession<S>(x: Peer<S>, x': Peer<S>, p: nat, y: Peer<S>, y': Peer<S>)
    requires Informed(x, p, y) && x'.session == x.session && |x'.raw| == |x.raw| && |y'.raw| == |y.raw|
    ensures Informed(x', p, y')
  {
  }

  /** It gives its input, if it has not yet. */
  lemma {:induction false} Give<S>(game: Game<S, Value>, stride: nat, delays: Delays, m: Match<S>, second: bool)
    returns (end: Match<S>)
    requires Synced(game, stride, delays, m) && Sensible(stride, delays)
    requires |Me(m, second).raw| <= |Me(m, !second).raw|
    ensures LeadsTo(game, stride, m, end) && Going(game, stride, delays, end)
    ensures var (x, x') := (Me(m, second), Me(end, second));
            && end == With(m, second, x')
            && x'.session.sync.frameCount == x.session.sync.frameCount && |x'.raw| == x.session.sync.frameCount + 1
  {
    var (x, y, p) := (Me(m, second), Me(m, !second), Seat(second));
    SyncedSides(game, stride, delays, m, second);
    hide *;
    SeatIs(m, second);
    GoingSides(game, stride, delays, m, second);
    RunsIsRunning(x, p);
    if |x.raw| == x.session.sync.frameCount {
      var input := Zero(stride);
      BehindIsFree(x, p, y);
      PlayDoes(game, stride, delays, x, p, y, input);
      PlayIsNext(stride, x, p, y, input);
      ActLeads(game, stride, delays, m, second, Play(input));
      end := With(m, second, Do(game, stride, x, p, Play(input)).value);
      SidesGo(game, stride, delays, end, second);
    } else {
      end := m;
      StaysPut(game, stride, m);
      RunsBounds(x, p);
      WithSame(m, second);
    }
  }

  lemma SyncedSides<S>(game: Game<S, Value>, stride: nat, delays: Delays, m: Match<S>, second: bool)
    requires Synced(game, stride, delays, m)
    ensures Going(game, stride, delays, m) && Informed(Me(m, second), Seat(second), Me(m, !second))
  {
    hide Going;
  }

  lemma PlayIsNext<S>(stride: nat, x: Peer<S>, p: nat, y: Peer<S>, input: Value)
    requires Runs(x, p) && |x.raw| == x.session.sync.frameCount && |input| == stride
    ensures MayDo(stride, x, p, y, Play(input))
  {
  }

  lemma RunsBounds<S>(x: Peer<S>, p: nat)
    requires Runs(x, p)
    ensures x.session.sync.frameCount <= |x.raw| <= x.session.sync.frameCount + 1
    ensures x.session.lastFrame[p] + 1 == |x.raw|
  {
  }

  lemma WithSame<S>(m: Match<S>, second: bool)
    ensures With(m, second, Me(m, second)) == m
  {
  }

  /** Then it plays the frame. */
  lemma {:induction false} PlayFrame<S>(game: Game<S, Value>, stride: nat, delays: Delays, m: Match<S>, second: bool)
    returns (end: Match<S>)
    requires Going(game, stride, delays, m) && Sensible(stride, delays)
    requires |Me(m, second).raw| == Me(m, second).session.sync.frameCount + 1
    ensures LeadsTo(game, stride, m, end) && Going(game, stride, delays, end)
    ensures var (x, x') := (Me(m, second), Me(end, second));
            && end == With(m, second, x')
            && x'.session.sync.frameCount == x.session.sync.frameCount + 1
  {
    hide *;
    var (x, y, p) := (Me(m, second), Me(m, !second), Seat(second));
    SeatIs(m, second);
    GoingSides(game, stride, delays, m, second);
    RunsIsRunning(x, p);
    RunsBounds(x, p);
    TickIsNext(stride, x, p, y);
    ActLeads(game, stride, delays, m, second, Tick);
    CallDoes(game, stride, delays, x, p, y, Tick);
    var x' := Do(game, stride, x, p, Tick).value;
    end := With(m, second, x');
    RunsOfPair(game, stride, delays, x', p, y);
    SidesGo(game, stride, delays, end, second);
  }

  lemma TickIsNext<S>(stride: nat, x: Peer<S>, p: nat, y: Peer<S>)
    requires Runs(x, p) && x.session.lastFrame[p] == x.session.sync.frameCount
    ensures MayDo(stride, x, p, y, Tick)
  {
  }

  function FrameOf<S>(m: Match<S>, second: bool): nat {
    Me(m, second).session.sync.frameCount
  }

  /** One frame further for one peer, the other staying where it is. */
  lemma {:induction false} Step<S>(game: Game<S, Value>, stride: nat, delays: Delays, m: Match<S>, second: bool)
    returns (end: Match<S>)
    requires Synced(game, stride, delays, m) && Sensible(stride, delays)
    requires |Me(m, second).raw| <= |Me(m, !second).raw|
    ensures LeadsTo(game, stride, m, end) && Going(game, stride, delays, end)
    ensures FrameOf(end, second) == FrameOf(m, second) + 1 && FrameOf(end, !second) == FrameOf(m, !second)
  {
    hide Pair, LeadsTo, Going, Synced, Sensible;
    var mid := Give(game, stride, delays, m, second);
    end := PlayFrame(game, stride, delays, mid, second);
    LeadsOn(game, stride, m, mid, end);
  }

  /** The peer with fewer inputs plays, until both have reached frame n; `top` is out of reach for either. */
  lemma {:induction false} PlayOn<S>(
    game: Game<S, Value>, stride: nat, delays: Delays, m: Match<S>, n: nat, top: nat)
    returns (end: Match<S>)
    requires Going(game, stride, delays, m) && Sensible(stride, delays)
    requires n < top && FrameOf(m, false) <= top && FrameOf(m, true) <= top
    ensures LeadsTo(game, stride, m, end) && Going(game, stride, delays, end)
    ensures n <= FrameOf(end, false) && n <= FrameOf(end, true)
    decreases 2 * top - FrameOf(m, false) - FrameOf(m, true)
  {
    hide Pair, LeadsTo, Sensible;
    if n <= FrameOf(m, false) && n <= FrameOf(m, true) {
      StaysPut(game, stride, m);
      end := m;
    } else {
      var mid := Exchange(game, stride, delays, m);
      var second := |mid.b.raw| < |mid.a.raw|;
      RunsBounds(mid.a, 0);
      RunsBounds(mid.b, 1);
      var next := Step(game, stride, delays, mid, second);
      end := PlayOn(game, stride, delays, next, n, top);
      LeadsOn(game, stride, m, mid, next);
      LeadsOn(game, stride, m, next, end);
    }
  }
}
