/** What two connected peers keep between them. */
module Pairs {
  import opened Frames
  import opened QueueModel
  import opened SyncModel
  import opened SavedRing
  import opened Rollback
  import opened SessionModel
  import opened SessionInvariant
  import opened SessionProofs
  import opened Compression
  import opened InputBuffer
  import opened TwoPeers

  /** The largest delay for which the rings of input cannot overflow. */
  const MAX_DELAY: nat := 105

  ghost predicate Moderate(delays: Delays) {
    forall p: nat, i: nat | p < 2 && i < 2 :: delays(p, i) <= MAX_DELAY
  }

  /** The most inputs a peer ever has pending. */
  const MAX_PENDING: nat := 15

  /** A queue that has been given exactly these raw inputs, all with the same delay. */
  ghost predicate Holds(q: Queue<Value>, stride: nat, delay: nat, raw: seq<Value>) {
    q.zero == Zero(stride) && q.delay == delay && q.stream == Delayed(Zero(stride), delay, raw)
  }

  /** A peer's own affairs: session and client are healthy, and its player's queue has every input it was given. */
  ghost predicate Own<S>(game: Game<S, Value>, stride: nat, delays: Delays, me: Peer<S>, p: nat) {
    && p < 2
    && me.session.local == [p == 0, p == 1]
    && Healthy(game, World(me.session, me.state))
    && Sized(me.raw, stride)
    && Holds(me.session.sync.queues[p], stride, delays(p, p), me.raw)
    && me.session.lastFrame[p] + 1 == |me.raw|
  }

  /** All inputs waiting in an inbox. */
  ghost function Waiting(inbox: seq<Arrival<Value>>): seq<FrameInput<Value>> {
    if inbox == [] then []
    else (if inbox[0].event.Inputs? then inbox[0].event.batch else []) + Waiting(inbox[1..])
  }

  ghost predicate AllFrom(inbox: seq<Arrival<Value>>, player: nat) {
    forall k | 0 <= k < |inbox| :: inbox[k].player == player
  }

  /** What a peer has of the other's inputs: a prefix in its queue, the next stretch in its inbox, nothing else. */
  ghost predicate Received<S>(stride: nat, delays: Delays, me: Peer<S>, p: nat, other: Peer<S>)
    requires p < 2 && |me.session.lastFrame| == |me.session.sync.queues| == 2
  {
    var last := me.session.lastFrame[1 - p];
    && last <= me.decoder.lastDecoded < |other.raw|
    && Holds(me.session.sync.queues[1 - p], stride, delays(p, 1 - p), other.raw[..last + 1])
    && AllFrom(me.inbox, 1 - p)
    && Waiting(me.inbox) == Slice(other.raw, last + 1, me.decoder.lastDecoded + 1)
  }

  /**
   A message in the network: the inputs in it are ones the sender really had, they start no later than the receiver's
   next frame, and they reach at most eight frames beyond what the message acknowledges.
   */
  ghost predicate Sound(stride: nat, raw: seq<Value>, decoder: Decoder, m: Message)
    requires Sized(raw, stride)
  {
    m.InputMessage? && m.bits != [] ==>
      exists end | 0 <= m.start < end <= |raw| ::
        m.start <= Max(0, decoder.lastDecoded) && end <= 8 + Max(0, m.ack) && Carries(stride, raw, m.start, end, m.bits)
  }

  /** What a peer has on its way to the other. */
  ghost predicate Sending<S>(stride: nat, me: Peer<S>, other: Peer<S>)
    requires Sized(me.raw, stride)
  {
    && Linked(me.raw, me.encoder, other.decoder)
    && (forall m | m in me.net :: m.ack <= me.decoder.lastDecoded && Sound(stride, me.raw, other.decoder, m))
    && me.decoder.lastDecoded - 7 <= |me.raw| - |me.encoder.pending|
  }

  ghost predicate Half<S>(game: Game<S, Value>, stride: nat, delays: Delays, me: Peer<S>, p: nat, other: Peer<S>) {
    Own(game, stride, delays, me, p) && Received(stride, delays, me, p, other) && Sending(stride, me, other)
  }

  /** The invariant of two connected peers. */
  ghost predicate Pair<S>(game: Game<S, Value>, stride: nat, delays: Delays, x: Peer<S>, p: nat, y: Peer<S>) {
    p < 2 && Half(game, stride, delays, x, p, y) && Half(game, stride, delays, y, 1 - p, x)
  }

  // ---------------------------------------------------------------------------------------------
  // Bounds: the two prediction barriers together
  // ---------------------------------------------------------------------------------------------

  /** A peer is never more than eight inputs ahead of what it has confirmed, and so of what it has received. */
  lemma Barrier<S>(game: Game<S, Value>, stride: nat, delays: Delays, me: Peer<S>, p: nat)
    requires Own(game, stride, delays, me, p)
    ensures var s := me.session;
            && |me.raw| <= 8 + Max(0, s.sync.lastConfirmed)
            && s.sync.lastConfirmed <= s.lastFrame[1 - p] && s.sync.lastConfirmed < |me.raw|
            && s.sync.queues[p].discarded == s.sync.queues[1 - p].discarded == Max(0, s.sync.lastConfirmed)
  {
    assert Tracked(me.session, p) && Tracked(me.session, 1 - p);
    assert me.session.local[1 - p] == false;
  }

  /** The parts of the invariant. */
  lemma Parts<S>(game: Game<S, Value>, stride: nat, delays: Delays, x: Peer<S>, p: nat, y: Peer<S>)
    requires Pair(game, stride, delays, x, p, y)
    ensures p < 2 && Own(game, stride, delays, x, p) && Half(game, stride, delays, y, 1 - p, x)
    ensures x.session.Shaped() && |x.session.lastFrame| == |x.session.sync.queues| == x.session.Players() == 2
    ensures x.session.local[p] && !x.session.local[1 - p]
    ensures Sized(x.raw, stride) && Sized(y.raw, stride)
    ensures Received(stride, delays, x, p, y) && Sending(stride, x, y)
    ensures -1 <= x.decoder.lastDecoded < |y.raw|
  {
  }

  lemma Whole<S>(game: Game<S, Value>, stride: nat, delays: Delays, x: Peer<S>, p: nat, y: Peer<S>)
    requires p < 2 && Own(game, stride, delays, x, p) && Half(game, stride, delays, y, 1 - p, x)
    requires |x.session.lastFrame| == |x.session.sync.queues| == 2 && Sized(x.raw, stride)
    requires Received(stride, delays, x, p, y) && Sending(stride, x, y)
    ensures Pair(game, stride, delays, x, p, y)
  {
  }

  /** Neither of a peer's queues ever holds more than 15 inputs beyond its delay, waiting ones included. */
  lemma QueuesAreShort<S>(game: Game<S, Value>, stride: nat, delays: Delays, x: Peer<S>, p: nat, y: Peer<S>)
    requires Pair(game, stride, delays, x, p, y)
    ensures |x.raw| <= 8 + x.session.sync.queues[p].discarded
    ensures |y.raw| <= 15 + x.session.sync.queues[1 - p].discarded
    ensures forall i | 0 <= i < 2 ::
              |x.session.sync.queues[i].stream| - x.session.sync.queues[i].discarded <= 15 + delays(p, i)
  {
    Barrier(game, stride, delays, x, p);
    Barrier(game, stride, delays, y, 1 - p);
  }

  /** And it never has more than fifteen inputs pending. */
  lemma PendingIsShort<S>(game: Game<S, Value>, stride: nat, delays: Delays, x: Peer<S>, p: nat, y: Peer<S>)
    requires Pair(game, stride, delays, x, p, y)
    ensures |x.encoder.pending| <= MAX_PENDING
  {
    Barrier(game, stride, delays, x, p);
  }

  /** And it is never more than eight inputs ahead of the last one it acknowledges. */
  lemma ReachIsShort<S>(game: Game<S, Value>, stride: nat, delays: Delays, x: Peer<S>, p: nat, y: Peer<S>)
    requires Pair(game, stride, delays, x, p, y)
    ensures |x.raw| <= 8 + Max(0, x.decoder.lastDecoded) && x.decoder.lastDecoded < |y.raw|
  {
    Barrier(game, stride, delays, x, p);
  }
}
