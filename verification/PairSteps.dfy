/**
 The steps of the argument that two connected peers keep their invariant. A peer's inbox holds the next stretch of the
 other's inputs, so handling it moves the remote queue to the end of that stretch and always fits the ring. Each act
 changes few of a peer's parts: one lemma says what it does to its own session, one what to what is received, one what
 to what is being sent, and one how the other peer sees it.
 */
module PairSteps {
  import opened Frames
  import opened QueueModel
  import opened SyncModel
  import opened SavedRing
  import opened Rollback
  import opened SessionModel
  import opened SessionInvariant
  import opened SessionProofs
  import opened Compression
  import opened InputBuffer
  import opened TwoPeers
  import opened Pairs

  // ---------------------------------------------------------------------------------------------
  // Draining the inbox
  // ---------------------------------------------------------------------------------------------

  /** A batch that continues a queue's raw inputs. */
  lemma {:induction false} BatchHolds<S>(
    s: Session<S, Value>, r: nat, stride: nat, delay: nat, raw: seq<Value>, lo: nat, hi: nat)
    requires r < |s.sync.queues| == |s.lastFrame|
    requires lo <= hi <= |raw| && s.lastFrame[r] + 1 == lo
    requires Holds(s.sync.queues[r], stride, delay, raw[..lo])
    ensures var s' := s.ReceiveAll(r, Slice(raw, lo, hi));
            && s'.lastFrame == s.lastFrame[r := hi - 1]
            && s'.sync.queues == s.sync.queues[r := s'.sync.queues[r]]
            && Holds(s'.sync.queues[r], stride, delay, raw[..hi])
            && s'.sync.queues[r].discarded == s.sync.queues[r].discarded
    decreases hi - lo
  {
    if lo < hi {
      var batch := Slice(raw, lo, hi);
      var s1 := s.Receive(r, batch[0]);
      assert batch[1..] == Slice(raw, lo + 1, hi);
      assert raw[..lo] + [raw[lo]] == raw[..lo + 1];
      ConstantDelay(s.sync.queues[r], raw[..lo], raw[lo]);
      AddInputStream(s.sync.queues[r], batch[0]);
      BatchHolds(s1, r, stride, delay, raw, lo + 1, hi);
    } else {
      assert Slice(raw, lo, hi) == [];
    }
  }

  lemma SliceSplit(raw: seq<Value>, lo: nat, hi: nat, a: seq<FrameInput<Value>>, b: seq<FrameInput<Value>>)
    requires lo <= hi <= |raw| && a + b == Slice(raw, lo, hi)
    ensures a == Slice(raw, lo, lo + |a|) && b == Slice(raw, lo + |a|, hi)
  {
    assert forall i | 0 <= i < |a| :: a[i] == (a + b)[i];
    assert forall i | 0 <= i < |b| :: b[i] == (a + b)[|a| + i];
  }

  lemma FirstWaits(inbox: seq<Arrival<Value>>, raw: seq<Value>, lo: nat, hi: nat)
    returns (batch: seq<FrameInput<Value>>)
    requires inbox != [] && lo <= hi <= |raw| && Waiting(inbox) == Slice(raw, lo, hi)
    ensures batch == if inbox[0].event.Inputs? then inbox[0].event.batch else []
    ensures lo + |batch| <= hi
    ensures forall k | 0 <= k < |batch| :: !IsNull(batch[k].frame)
    ensures batch == Slice(raw, lo, lo + |batch|) && Waiting(inbox[1..]) == Slice(raw, lo + |batch|, hi)
  {
    batch := if inbox[0].event.Inputs? then inbox[0].event.batch else [];
    assert batch + Waiting(inbox[1..]) == Waiting(inbox);
    SliceSplit(raw, lo, hi, batch, Waiting(inbox[1..]));
  }

  lemma SliceFits(q: Queue<Value>, last: Frame, raw: seq<Value>, hi: nat)
    requires last + 1 <= hi <= |raw| && hi + q.delay - q.discarded <= MAX_ROLLBACK_FRAMES
    ensures BatchFits(q, last, Slice(raw, last + 1, hi))
  {
  }

  /** One arrival: it fits, and moves the remote queue by what it brings. */
  lemma {:induction false} EventHolds<S>(
    s: Session<S, Value>, a: Arrival<Value>, stride: nat, delay: nat, raw: seq<Value>, hi: nat)
    requires s.Shaped() && a.player < s.Players() && !s.local[a.player]
    requires s.lastFrame[a.player] + 1 <= hi <= |raw|
    requires Slice(raw, s.lastFrame[a.player] + 1, hi) == if a.event.Inputs? then a.event.batch else []
    requires Holds(s.sync.queues[a.player], stride, delay, raw[..s.lastFrame[a.player] + 1])
    requires hi + delay - s.sync.queues[a.player].discarded <= MAX_ROLLBACK_FRAMES
    ensures ArrivalFits(s, a)
    ensures var s' := s.HandleEvent(a.player, a.event).0;
            && s'.Shaped() && s'.local == s.local
            && s'.lastFrame == s.lastFrame[a.player := hi - 1]
            && s'.sync.queues == s.sync.queues[a.player := s'.sync.queues[a.player]]
            && Holds(s'.sync.queues[a.player], stride, delay, raw[..hi])
            && s'.sync.queues[a.player].discarded == s.sync.queues[a.player].discarded
  {
    var (q, last) := (s.sync.queues[a.player], s.lastFrame[a.player]);
    assert q.delay == delay && |Slice(raw, last + 1, hi)| == hi - last - 1;
    hide Holds, BatchFits, Slice, Session.ReceiveAll;
    if a.event.Inputs? {
      SliceFits(q, last, raw, hi);
      BatchHolds(s, a.player, stride, delay, raw, last + 1, hi);
    }
  }

  /** A session with an inbox that continues its remote queue up to frame `hi`, with room for all of it. */
  ghost predicate Draining<S>(
    s: Session<S, Value>, inbox: seq<Arrival<Value>>, r: nat, stride: nat, delay: nat, raw: seq<Value>, hi: nat)
  {
    && s.Shaped() && r < s.Players() && !s.local[r] && AllFrom(inbox, r)
    && s.lastFrame[r] + 1 <= hi <= |raw|
    && Waiting(inbox) == Slice(raw, s.lastFrame[r] + 1, hi)
    && Holds(s.sync.queues[r], stride, delay, raw[..s.lastFrame[r] + 1])
    && hi + delay - s.sync.queues[r].discarded <= MAX_ROLLBACK_FRAMES
  }

  lemma DrainingParts<S>(
    s: Session<S, Value>, inbox: seq<Arrival<Value>>, r: nat, stride: nat, delay: nat, raw: seq<Value>, hi: nat)
    requires Draining(s, inbox, r, stride, delay, raw, hi)
    ensures s.Shaped() && r < s.Players() == |s.lastFrame| && s.Players() == |s.local| && !s.local[r]
    ensures s.lastFrame[r] + 1 <= hi <= |raw|
    ensures Waiting(inbox) == Slice(raw, s.lastFrame[r] + 1, hi)
    ensures Holds(s.sync.queues[r], stride, delay, raw[..s.lastFrame[r] + 1])
    ensures hi + delay - s.sync.queues[r].discarded <= MAX_ROLLBACK_FRAMES
    ensures inbox != [] ==> inbox[0].player == r && AllFrom(inbox[1..], r)
  {
  }

  lemma DrainingWhole<S>(
    s: Session<S, Value>, inbox: seq<Arrival<Value>>, r: nat, stride: nat, delay: nat, raw: seq<Value>, hi: nat)
    requires s.Shaped() && r < s.Players() && !s.local[r] && AllFrom(inbox, r)
    requires s.lastFrame[r] + 1 <= hi <= |raw|
    requires Waiting(inbox) == Slice(raw, s.lastFrame[r] + 1, hi)
    requires Holds(s.sync.queues[r], stride, delay, raw[..s.lastFrame[r] + 1])
    requires hi + delay - s.sync.queues[r].discarded <= MAX_ROLLBACK_FRAMES
    ensures Draining(s, inbox, r, stride, delay, raw, hi)
  {
  }

  /** One event, and what is left of the inbox. */
  lemma {:induction false} DrainOne<S>(
    s: Session<S, Value>, inbox: seq<Arrival<Value>>, r: nat, stride: nat, delay: nat, raw: seq<Value>, hi: nat)
    requires Draining(s, inbox, r, stride, delay, raw, hi) && inbox != []
    ensures ArrivalFits(s, inbox[0]) && inbox[0].player == r && s.WellFormed([inbox[0]])
    ensures var s' := s.HandleEvent(r, inbox[0].event).0;
            && Draining(s', inbox[1..], r, stride, delay, raw, hi)
            && s'.local == s.local
            && s'.lastFrame == s.lastFrame[r := s'.lastFrame[r]]
            && s'.sync.queues == s.sync.queues[r := s'.sync.queues[r]]
  {
    hide *;
    DrainingParts(s, inbox, r, stride, delay, raw, hi);
    var batch := FirstWaits(inbox, raw, s.lastFrame[r] + 1, hi);
    var lo := s.lastFrame[r] + 1;
    EventHolds(s, inbox[0], stride, delay, raw, lo + |batch|);
    EventIsWellFormed(s, inbox[0]);
    DrainingWhole(s.HandleEvent(r, inbox[0].event).0, inbox[1..], r, stride, delay, raw, hi);
  }

  /** Handling the whole inbox: it fits, and moves the remote queue to the end of what was waiting. */
  lemma {:induction false} FlushHolds<S>(
    s: Session<S, Value>, inbox: seq<Arrival<Value>>, r: nat, stride: nat, delay: nat, raw: seq<Value>, hi: nat)
    requires Draining(s, inbox, r, stride, delay, raw, hi)
    ensures ArrivalsFit(s, inbox) && s.WellFormed(inbox)
    ensures var s' := s.FlushEvents(inbox).0;
            && Draining(s', [], r, stride, delay, raw, hi)
            && s'.local == s.local
            && s'.lastFrame == s.lastFrame[r := s'.lastFrame[r]]
            && s'.sync.queues == s.sync.queues[r := s'.sync.queues[r]]
    decreases |inbox|
  {
    if inbox != [] {
      DrainOne(s, inbox, r, stride, delay, raw, hi);
      FlushHolds(s.HandleEvent(r, inbox[0].event).0, inbox[1..], r, stride, delay, raw, hi);
      assert inbox == [inbox[0]] + inbox[1..];
      hide Draining, ArrivalFits, Session.HandleEvent;
    }
  }

  /** With nothing left to drain, the queue holds all of it. */
  lemma Drained<S>(s: Session<S, Value>, r: nat, stride: nat, delay: nat, raw: seq<Value>, hi: nat)
    requires Draining(s, [], r, stride, delay, raw, hi)
    ensures s.lastFrame[r] + 1 == hi && Holds(s.sync.queues[r], stride, delay, raw[..hi])
  {
    assert |Slice(raw, s.lastFrame[r] + 1, hi)| == |Waiting([])|;
  }

  lemma EventIsWellFormed<S>(s: Session<S, Value>, a: Arrival<Value>)
    requires s.Shaped() && ArrivalFits(s, a)
    ensures s.WellFormed([a])
  {
  }

  lemma SameHolds(a: Queue<Value>, b: Queue<Value>, stride: nat, delay: nat, raw: seq<Value>)
    requires Holds(a, stride, delay, raw) && b.stream == a.stream && b.zero == a.zero && b.delay == a.delay
    ensures Holds(b, stride, delay, raw)
  {
  }

  /** What settling leaves of the queues: everything but predictions and what was discarded. */
  lemma {:induction false} PollHolds<S>(
    s: Session<S, Value>, before: seq<Queue<Value>>, r: nat, stride: nat, delay: nat, raw: seq<Value>)
    requires Growing(s, before) && !s.synchronizing && r < s.Players()
    requires Holds(s.sync.queues[r], stride, delay, raw)
    ensures CanCheck(s.sync)
    ensures Holds(s.Settle().0.sync.queues[r], stride, delay, raw)
    ensures s.Settle().0.local == s.local && s.Settle().0.lastFrame == s.lastFrame
  {
    FlaggedFrameIsRecent(s, before);
    SettleKeepsSane(s, before);
    CheckKeepsSane(s, before);
    hide Growing, Sane, Holds, Session.Settle, Sync.CheckSimulation;
    assert SameStream(s.sync.queues[r], s.sync.CheckSimulation().0.queues[r]);
    SameHolds(s.sync.queues[r], s.Settle().0.sync.queues[r], stride, delay, raw);
  }

  // ---------------------------------------------------------------------------------------------
  // One peer acts
  // ---------------------------------------------------------------------------------------------

  /** What the other peer sees of an act: possibly more inputs sent, possibly more received; nothing taken back. */
  lemma OthersView<S>(
    game: Game<S, Value>, stride: nat, delays: Delays, x: Peer<S>, x': Peer<S>, p: nat, y: Peer<S>)
    requires Pair(game, stride, delays, x, p, y)
    requires x.raw <= x'.raw && Sized(x'.raw, stride)
    requires x.decoder.lastDecoded <= x'.decoder.lastDecoded < |y.raw|
    ensures Half(game, stride, delays, y, 1 - p, x')
  {
    var last := y.session.lastFrame[p];
    assert x.raw[..last + 1] == x'.raw[..last + 1];
    assert Slice(x.raw, last + 1, y.decoder.lastDecoded + 1) == Slice(x'.raw, last + 1, y.decoder.lastDecoded + 1);
    assert Linked(y.raw, y.encoder, x'.decoder);
    forall m | m in y.net ensures Sound(stride, y.raw, x'.decoder, m) {
      assert Sound(stride, y.raw, x.decoder, m);
    }
  }

  /** Sending and receiving leave the session and the client alone. */
  lemma OwnStays<S>(game: Game<S, Value>, stride: nat, delays: Delays, x: Peer<S>, x': Peer<S>, p: nat)
    requires Own(game, stride, delays, x, p)
    requires x'.session == x.session && x'.state == x.state && x'.raw == x.raw
    ensures Own(game, stride, delays, x', p)
  {
  }

  lemma ReceivedStays<S>(stride: nat, delays: Delays, x: Peer<S>, x': Peer<S>, p: nat, y: Peer<S>)
    requires p < 2 && |x.session.lastFrame| == |x.session.sync.queues| == 2
    requires Received(stride, delays, x, p, y)
    requires x'.session == x.session && x'.decoder == x.decoder && x'.inbox == x.inbox
    ensures Received(stride, delays, x', p, y)
  {
  }

  /** Messages already sent stay sound while the sender gets more inputs. */
  lemma SoundStays(stride: nat, raw: seq<Value>, raw': seq<Value>, decoder: Decoder, m: Message)
    requires Sized(raw, stride) && Sized(raw', stride) && raw <= raw'
    requires Sound(stride, raw, decoder, m)
    ensures Sound(stride, raw', decoder, m)
  {
    if m.InputMessage? && m.bits != [] {
      var end :| 0 <= m.start < end <= |raw| && m.start <= Max(0, decoder.lastDecoded) && end <= 8 + Max(0, m.ack)
                 && Carries(stride, raw, m.start, end, m.bits);
      assert raw[m.start..end] == raw'[m.start..end];
      assert Carries(stride, raw', m.start, end, m.bits);
    }
  }

  /** Transmitting all pending inputs, provided they are few and not far beyond what is acknowledged along with them. */
  lemma {:induction false} SendKeepsSending<S>(stride: nat, x: Peer<S>, y: Peer<S>)
    requires Sized(x.raw, stride) && Sending(stride, x, y)
    requires |x.raw| <= 8 + Max(0, x.decoder.lastDecoded)
    requires |x.encoder.pending| * stride < MAX_BUFFER_SIZE
    ensures Sized(Payloads(x.encoder.pending), stride)
    ensures var sent := Send(stride, x);
            && sent.Some?
            && sent.value == x.(encoder := sent.value.encoder, net := sent.value.net)
            && Sending(stride, sent.value, y)
  {
    hide Compression.Encode;
    EncodeKeepsLinked(stride, x.raw, x.encoder, y.decoder);
    NewMessageIsSound(stride, x, y);
  }

  lemma NewMessageIsSound<S>(stride: nat, x: Peer<S>, y: Peer<S>)
    requires Sized(x.raw, stride) && Linked(x.raw, x.encoder, y.decoder)
    requires Sized(Payloads(x.encoder.pending), stride)
    requires |x.raw| <= 8 + Max(0, x.decoder.lastDecoded)
    ensures var (_, start, bits) := x.encoder.Encode(stride);
            bits.Bytes? ==> Sound(stride, x.raw, y.decoder, InputMessage(start, x.decoder.lastDecoded, bits.bytes))
  {
    hide Compression.Encode;
    var (_, start, bits) := x.encoder.Encode(stride);
    var first := |x.raw| - |x.encoder.pending|;
    if x.encoder.pending != [] && bits.Bytes? {
      assert Payloads(x.encoder.pending) == x.raw[first..|x.raw|];
      assert Carries(stride, x.raw, first, |x.raw|, bits.bytes);
    }
  }

  /** The local input goes where the raw inputs end, and there is room for it. */
  lemma PlayIsLegal<S>(game: Game<S, Value>, stride: nat, delays: Delays, x: Peer<S>, p: nat, input: Value)
    requires Own(game, stride, delays, x, p) && Moderate(delays)
    requires |x.raw| <= 8 + x.session.sync.queues[p].discarded
    requires x.session.lastFrame[p] == x.session.sync.frameCount - 1
    requires x.session.AddLocalInput(p, input).1.Accepted?
    ensures x.session.sync.frameCount == |x.raw|
    ensures Legal(x.session, LocalInput(p, input))
    ensures x.session.AddLocalInput(p, input).0 == x.session.Receive(p, FrameInput(|x.raw|, input))
  {
    assert Tracked(x.session, p);
    RoomForLocal(x.session, p, delays(p, p));
  }

  /** An input the session accepts is at most eight frames beyond what has been discarded. */
  lemma RoomForLocal<S>(s: Session<S, Value>, p: nat, delay: nat)
    requires Sane(s) && p < s.Players() && s.HasRemote() && !s.AtBarrier() && delay <= MAX_DELAY
    requires s.sync.queues[p].delay == delay
    ensures Room(s.sync.queues[p], s.sync.frameCount)
  {
    assert Tracked(s, p);
  }

  lemma {:induction false} PlayKeepsOwn<S>(
    game: Game<S, Value>, stride: nat, delays: Delays, x: Peer<S>, p: nat, input: Value)
    requires Own(game, stride, delays, x, p) && |input| == stride
    requires x.session.sync.frameCount == |x.raw| && Legal(x.session, LocalInput(p, input))
    requires x.session.AddLocalInput(p, input).1.Accepted?
    ensures Own(game, stride, delays, x.(session := x.session.AddLocalInput(p, input).0, raw := x.raw + [input]), p)
  {
    var s := x.session.AddLocalInput(p, input).0;
    LocalInputKeepsHealthy(game, World(x.session, x.state), p, input);
    TakeLocal(game, x.session, x.state, p, input);
    ConstantDelay(x.session.sync.queues[p], x.raw, input);
    AddInputStream(x.session.sync.queues[p], FrameInput(|x.raw|, input));
    hide Healthy;
  }

  lemma TakeLocal<S>(game: Game<S, Value>, s: Session<S, Value>, state: S, p: nat, input: Value)
    requires s.Shaped()
    ensures Take(game, World(s, state), LocalInput(p, input)) == World(s.AddLocalInput(p, input).0, state)
  {
  }

  lemma {:induction false} PlayKeepsSending<S>(stride: nat, x: Peer<S>, x': Peer<S>, y: Peer<S>, input: Value)
    requires Sized(x.raw, stride) && Sending(stride, x, y) && |input| == stride
    requires x'.raw == x.raw + [input] && x'.encoder == x.encoder.Push(FrameInput(|x.raw|, input))
    requires x'.net == x.net && x'.decoder == x.decoder
    ensures Sized(x'.raw, stride) && Sending(stride, x', y)
  {
    hide Sound;
    PushKeepsLinked(x.raw, x.encoder, y.decoder, input);
    forall m | m in x'.net ensures Sound(stride, x'.raw, y.decoder, m) {
      SoundStays(stride, x.raw, x'.raw, y.decoder, m);
    }
  }

  lemma PlayKeepsReceived<S>(
    stride: nat, delays: Delays, x: Peer<S>, x': Peer<S>, p: nat, y: Peer<S>, input: FrameInput<Value>)
    requires p < 2 && x.session.Shaped() && x.session.Players() == 2 && Received(stride, delays, x, p, y)
    requires 0 <= input.frame && x'.session == x.session.Receive(p, input)
    requires x'.decoder == x.decoder && x'.inbox == x.inbox
    ensures |x'.session.lastFrame| == |x'.session.sync.queues| == 2 && Received(stride, delays, x', p, y)
  {
  }

  /** What a message changes: the missing inputs it brings join the inbox, and what it acknowledges is dropped. */
  lemma {:induction false} HearDelivers<S>(stride: nat, x: Peer<S>, p: nat, raw: seq<Value>, m: Message)
    requires 0 < stride && p < 2 && Sized(raw, stride) && Sound(stride, raw, x.decoder, m)
    requires x.decoder.lastDecoded < |raw| && AllFrom(x.inbox, 1 - p)
    ensures var x' := Receive(stride, x, 1 - p, m);
            && x' == x.(encoder := x.encoder.Acknowledge(m.ack), decoder := x'.decoder, inbox := x'.inbox,
                        net := x'.net)
            && x.decoder.lastDecoded <= x'.decoder.lastDecoded < |raw|
            && x'.decoder.lastDecoded <= Max(x.decoder.lastDecoded, 7 + Max(0, m.ack))
            && AllFrom(x'.inbox, 1 - p)
            && Waiting(x'.inbox) == Waiting(x.inbox) + Slice(raw, x.decoder.lastDecoded + 1, x'.decoder.lastDecoded + 1)
            && x'.net <= x.net + {InputAck(x'.decoder.lastDecoded)}
  {
    hide Compression.Decode, Compression.Encode, SkipTo, Number, Carries;
    var lo := x.decoder.lastDecoded + 1;
    assert Slice(raw, lo, lo) == [] && Waiting(x.inbox) + [] == Waiting(x.inbox);
    if m.InputMessage? {
      var (decoder, batch) := x.decoder.Decode(stride, m.start, m.bits);
      MessageDecodes(stride, x.decoder, raw, m);
      hide Sound, Decoder.Decode, Slice;
      WaitingMore(x.inbox, 1 - p, Slice(raw, lo, decoder.lastDecoded + 1));
    }
  }

  lemma MessageDecodes(stride: nat, decoder: Decoder, raw: seq<Value>, m: Message)
    requires m.InputMessage? && 0 < stride && Sized(raw, stride) && Sound(stride, raw, decoder, m)
    requires decoder.lastDecoded < |raw|
    ensures var (decoder', batch) := decoder.Decode(stride, m.start, m.bits);
            && decoder.lastDecoded <= decoder'.lastDecoded < |raw|
            && decoder'.lastDecoded <= Max(decoder.lastDecoded, 7 + Max(0, m.ack))
            && batch == Some(Slice(raw, decoder.lastDecoded + 1, decoder'.lastDecoded + 1))
  {
    hide Compression.Decode, Compression.Encode, SkipTo, Number;
    if m.bits == [] {
      DecodeNothing(stride, decoder, m.start);
      assert Slice(raw, decoder.lastDecoded + 1, decoder.lastDecoded + 1) == [];
    } else {
      var end :| 0 <= m.start < end <= |raw| && m.start <= Max(0, decoder.lastDecoded) && end <= 8 + Max(0, m.ack)
                 && Carries(stride, raw, m.start, end, m.bits);
      DecodeCarried(stride, raw, decoder, m.start, end, m.bits);
    }
  }

  lemma {:induction false} HearKeepsReceived<S>(
    stride: nat, delays: Delays, x: Peer<S>, x': Peer<S>, p: nat, y: Peer<S>)
    requires p < 2 && |x.session.lastFrame| == |x.session.sync.queues| == 2 && Received(stride, delays, x, p, y)
    requires x'.session == x.session && AllFrom(x'.inbox, 1 - p)
    requires x.decoder.lastDecoded <= x'.decoder.lastDecoded < |y.raw|
    requires Waiting(x'.inbox) == Waiting(x.inbox) + Slice(y.raw, x.decoder.lastDecoded + 1, x'.decoder.lastDecoded + 1)
    ensures Received(stride, delays, x', p, y)
  {
    hide Holds;
    var from, lo, hi := x.session.lastFrame[1 - p] + 1, x.decoder.lastDecoded + 1, x'.decoder.lastDecoded + 1;
    assert Slice(y.raw, from, lo) + Slice(y.raw, lo, hi) == Slice(y.raw, from, hi);
  }

  lemma {:induction false} HearKeepsSending<S>(stride: nat, x: Peer<S>, x': Peer<S>, y: Peer<S>, ack: Frame)
    requires Sized(x.raw, stride) && Sending(stride, x, y) && ack <= y.decoder.lastDecoded
    requires x'.raw == x.raw && x'.encoder == x.encoder.Acknowledge(ack)
    requires x.decoder.lastDecoded <= x'.decoder.lastDecoded <= Max(x.decoder.lastDecoded, 7 + Max(0, ack))
    requires x'.net <= x.net + {InputAck(x'.decoder.lastDecoded)}
    ensures Sending(stride, x', y)
  {
    AcknowledgeKeepsLinked(x.raw, x.encoder, y.decoder, ack);
    AckIsSound(stride, x.raw, y.decoder, x'.decoder.lastDecoded);
  }

  lemma AckIsSound(stride: nat, raw: seq<Value>, decoder: Decoder, ack: Frame)
    requires Sized(raw, stride)
    ensures Sound(stride, raw, decoder, InputAck(ack))
  {
  }

  lemma {:induction false} WaitingMore(inbox: seq<Arrival<Value>>, player: nat, batch: seq<FrameInput<Value>>)
    requires AllFrom(inbox, player)
    ensures var more := inbox + [Arrival(player, SessionModel.Inputs(batch))];
            AllFrom(more, player) && Waiting(more) == Waiting(inbox) + batch
    decreases |inbox|
  {
    var more := inbox + [Arrival(player, SessionModel.Inputs(batch))];
    if inbox != [] {
      WaitingMore(inbox[1..], player, batch);
      assert more[1..] == inbox[1..] + [Arrival(player, SessionModel.Inputs(batch))];
    } else {
      assert more[1..] == [];
    }
  }

  lemma {:induction false} WaitingShake(inbox: seq<Arrival<Value>>, player: nat)
    requires AllFrom(inbox, player)
    ensures var more := inbox + [Arrival(player, PeerSynchronized(true))];
            AllFrom(more, player) && Waiting(more) == Waiting(inbox)
    decreases |inbox|
  {
    var more := inbox + [Arrival(player, PeerSynchronized(true))];
    if inbox != [] {
      WaitingShake(inbox[1..], player);
      assert more[1..] == inbox[1..] + [Arrival(player, PeerSynchronized(true))];
    } else {
      assert more[1..] == [];
    }
  }

  lemma ShakeKeepsReceived<S>(stride: nat, delays: Delays, x: Peer<S>, p: nat, y: Peer<S>)
    requires p < 2 && |x.session.lastFrame| == |x.session.sync.queues| == 2 && Received(stride, delays, x, p, y)
    ensures Received(stride, delays, x.(inbox := x.inbox + [Arrival(1 - p, PeerSynchronized(true))]), p, y)
  {
    hide Holds, Slice;
    WaitingShake(x.inbox, 1 - p);
  }

  // ---------------------------------------------------------------------------------------------
  // One peer calls its session
  // ---------------------------------------------------------------------------------------------

  /** A poll takes everything in the inbox into the remote queue and leaves the local one as it was. */
  lemma {:induction false} PollMoves<S>(
    s: Session<S, Value>, inbox: seq<Arrival<Value>>, p: nat, stride: nat, delays: Delays, mine: seq<Value>,
    theirs: seq<Value>, hi: nat, issued: seq<Command<Value>>)
    requires p < 2 && s.Players() == 2 && Sane(s)
    requires Draining(s, inbox, 1 - p, stride, delays(p, 1 - p), theirs, hi)
    requires Holds(s.sync.queues[p], stride, delays(p, p), mine)
    ensures ArrivalsFit(s, inbox) && s.WellFormed(inbox)
    ensures DoPoll(s, inbox, issued).Some?
    ensures Moved(s, DoPoll(s, inbox, issued).value.0, p, stride, delays, mine, theirs, hi)
  {
    hide Growing, Sane, Draining, Holds, Session.FlushEvents, Session.Settle, Session.WellFormed, ArrivalsFit;
    var r := 1 - p;
    DrainingParts(s, inbox, r, stride, delays(p, r), theirs, hi);
    FlushHolds(s, inbox, r, stride, delays(p, r), theirs, hi);
    var flushed := s.FlushEvents(inbox).0;
    Drained(flushed, r, stride, delays(p, r), theirs, hi);
    SaneStartsGrowing(s);
    FlushKeepsGrowing(s, s.sync.queues, inbox);
    if !flushed.synchronizing {
      PollHolds(flushed, s.sync.queues, r, stride, delays(p, r), theirs[..hi]);
      PollHolds(flushed, s.sync.queues, p, stride, delays(p, p), mine);
    }
  }

  ghost predicate Moved<S>(
    s: Session<S, Value>, t: Session<S, Value>, p: nat, stride: nat, delays: Delays, mine: seq<Value>,
    theirs: seq<Value>, hi: nat)
    requires p < 2 && hi <= |theirs|
  {
    && |s.lastFrame| == |t.lastFrame| == |t.sync.queues| == 2 && t.local == s.local
    && t.lastFrame[p] == s.lastFrame[p] && t.lastFrame[1 - p] + 1 == hi
    && Holds(t.sync.queues[1 - p], stride, delays(p, 1 - p), theirs[..hi])
    && Holds(t.sync.queues[p], stride, delays(p, p), mine)
  }

  /** What a peer's inbox brings always fits into its ring. */
  lemma InboxDrains<S>(game: Game<S, Value>, stride: nat, delays: Delays, x: Peer<S>, p: nat, y: Peer<S>)
    requires Pair(game, stride, delays, x, p, y) && Moderate(delays)
    ensures Draining(x.session, x.inbox, 1 - p, stride, delays(p, 1 - p), y.raw, x.decoder.lastDecoded + 1)
  {
    QueuesAreShort(game, stride, delays, x, p, y);
  }

  /** The slots of a queue's ring that are taken. */
  ghost function InUse<I>(q: Queue<I>): int {
    |q.stream| - q.discarded
  }

  /** With everything in the inbox handled and nothing discarded yet, no ring holds more than 15 and its delay. */
  ghost predicate RingsHold<S>(s: Session<S, Value>, inbox: seq<Arrival<Value>>, delays: Delays, p: nat) {
    && s.Shaped() && s.WellFormed(inbox)
    && var queues := s.FlushEvents(inbox).0.sync.queues;
       forall i | 0 <= i < |queues| :: InUse(queues[i]) <= 15 + delays(p, i)
  }

  lemma {:induction false} FlushIsShort<S>(
    s: Session<S, Value>, inbox: seq<Arrival<Value>>, p: nat, stride: nat, delays: Delays, mine: seq<Value>,
    theirs: seq<Value>, hi: nat)
    requires p < 2 && s.Players() == 2 && Sane(s)
    requires Draining(s, inbox, 1 - p, stride, delays(p, 1 - p), theirs, hi)
    requires Holds(s.sync.queues[p], stride, delays(p, p), mine)
    requires |mine| <= 15 + s.sync.queues[p].discarded && hi <= 15 + s.sync.queues[1 - p].discarded
    ensures ArrivalsFit(s, inbox) && RingsHold(s, inbox, delays, p)
  {
    hide *;
    var r := 1 - p;
    DrainingParts(s, inbox, r, stride, delays(p, r), theirs, hi);
    FlushHolds(s, inbox, r, stride, delays(p, r), theirs, hi);
    var flushed := s.FlushEvents(inbox).0;
    Drained(flushed, r, stride, delays(p, r), theirs, hi);
    SaneStartsGrowing(s);
    FlushKeepsGrowing(s, s.sync.queues, inbox);
    DiscardsStay(flushed, s.sync.queues);
    HoldsLength(flushed.sync.queues[r], stride, delays(p, r), theirs[..hi]);
    HoldsLength(s.sync.queues[p], stride, delays(p, p), mine);
    TwoRingsHold(s, inbox, p, delays, flushed.sync.queues);
  }

  lemma DiscardsStay<S>(s: Session<S, Value>, before: seq<Queue<Value>>)
    requires Growing(s, before)
    ensures |before| == |s.sync.queues|
    ensures forall i | 0 <= i < |before| :: s.sync.queues[i].discarded == before[i].discarded
  {
  }

  lemma HoldsLength(q: Queue<Value>, stride: nat, delay: nat, raw: seq<Value>)
    requires Holds(q, stride, delay, raw)
    ensures |q.stream| <= |raw| + delay
  {
  }

  lemma TwoRingsHold<S>(
    s: Session<S, Value>, inbox: seq<Arrival<Value>>, p: nat, delays: Delays, queues: seq<Queue<Value>>)
    requires p < 2 && s.Shaped() && s.WellFormed(inbox) && |queues| == 2
    requires queues == s.FlushEvents(inbox).0.sync.queues
    requires |queues[p].stream| - queues[p].discarded <= 15 + delays(p, p)
    requires |queues[1 - p].stream| - queues[1 - p].discarded <= 15 + delays(p, 1 - p)
    ensures RingsHold(s, inbox, delays, p)
  {
  }

  /** Playing a frame leaves what the queues hold as it was. */
  lemma {:induction false} IncrementHolds<S>(
    s: Session<S, Value>, inbox: seq<Arrival<Value>>, p: nat, stride: nat, delays: Delays, mine: seq<Value>,
    theirs: seq<Value>, hi: nat)
    requires p < 2 && s.Players() == 2 && Sane(s) && !s.synchronizing
    requires Draining(s, inbox, 1 - p, stride, delays(p, 1 - p), theirs, hi)
    requires Holds(s.sync.queues[p], stride, delays(p, p), mine)
    ensures var t := Incremented(s);
            && Draining(t, inbox, 1 - p, stride, delays(p, 1 - p), theirs, hi)
            && Holds(t.sync.queues[p], stride, delays(p, p), mine)
            && t.lastFrame == s.lastFrame && t.local == s.local && !t.synchronizing
  {
    FetchSettles(s.sync.queues, s.sync.frameCount);
    var t := Incremented(s);
    assert SameStream(s.sync.queues[p], t.sync.queues[p]) && SameStream(s.sync.queues[1 - p], t.sync.queues[1 - p]);
    hide Sane, Sync.IncrementFrame;
  }

  /** Both calls of the session: legal, never panicking, and moving the queues by exactly what was waiting. */
  lemma {:induction false} CallMoves<S>(
    game: Game<S, Value>, s: Session<S, Value>, state: S, action: Action<Value>, p: nat, stride: nat, delays: Delays,
    mine: seq<Value>, theirs: seq<Value>, hi: nat)
    requires p < 2 && s.Players() == 2 && Healthy(game, World(s, state)) && s.local == [p == 0, p == 1]
    requires action.Poll? || (action.Advance? && (!s.synchronizing ==> s.lastFrame[p] == s.sync.frameCount))
    requires Draining(s, action.arrivals, 1 - p, stride, delays(p, 1 - p), theirs, hi)
    requires Holds(s.sync.queues[p], stride, delays(p, p), mine)
    ensures Fits(s, action) && Legal(s, action)
    ensures var w := Take(game, World(s, state), action);
            Healthy(game, w) && Moved(s, w.session, p, stride, delays, mine, theirs, hi)
  {
    if action.Advance? && !s.synchronizing {
      IncrementStaysSane(s);
      IncrementHolds(s, action.arrivals, p, stride, delays, mine, theirs, hi);
      PollMoves(Incremented(s), action.arrivals, p, stride, delays, mine, theirs, hi, s.sync.IncrementFrame().1);
    } else {
      PollMoves(s, action.arrivals, p, stride, delays, mine, theirs, hi, []);
    }
    hide Draining, Holds, Sane, Faithful, Sync.IncrementFrame, DoPoll, ArrivalsFit, Session.WellFormed;
    TakeKeepsHealthy(game, World(s, state), action);
  }

  lemma IncrementMovesOn<S>(s: Session<S, Value>)
    requires Sane(s) && !s.synchronizing
    ensures |Incremented(s).sync.queues| == |s.sync.queues|
    ensures forall i | 0 <= i < |s.sync.queues| :: Incremented(s).sync.queues[i].discarded == s.sync.queues[i].discarded
  {
    FetchSettles(s.sync.queues, s.sync.frameCount);
    assert forall i | 0 <= i < |s.sync.queues| :: SameStream(s.sync.queues[i], Incremented(s).sync.queues[i]);
  }

  /** The call itself, for a peer of a pair. */
  lemma {:induction false} SessionParts<S>(
    game: Game<S, Value>, stride: nat, delays: Delays, x: Peer<S>, p: nat, y: Peer<S>, action: Action<Value>)
    requires p < 2 && x.session.Players() == 2 && Own(game, stride, delays, x, p) && x.decoder.lastDecoded < |y.raw|
    requires Draining(x.session, x.inbox, 1 - p, stride, delays(p, 1 - p), y.raw, x.decoder.lastDecoded + 1)
    requires action == Poll(x.inbox)
             || (&& action == Advance(x.inbox)
                 && (!x.session.synchronizing ==> x.session.lastFrame[p] == x.session.sync.frameCount))
    ensures x.session.Shaped() && Fits(x.session, action)
    ensures var w := Take(game, World(x.session, x.state), action);
            && w.World? && Healthy(game, w)
            && Moved(x.session, w.session, p, stride, delays, x.raw, y.raw, x.decoder.lastDecoded + 1)
  {
    CallMoves(game, x.session, x.state, action, p, stride, delays, x.raw, y.raw, x.decoder.lastDecoded + 1);
    hide Take, Draining, Moved;
  }

  lemma DrainTakes<S>(game: Game<S, Value>, x: Peer<S>, action: Action<Value>)
    requires x.session.Shaped() && Fits(x.session, action) && Take(game, World(x.session, x.state), action).World?
    ensures var w := Take(game, World(x.session, x.state), action);
            Drain(game, x, action) == Some(x.(session := w.session, state := w.state, inbox := []))
  {
    hide Take;
  }

  lemma MovedOwn<S>(
    game: Game<S, Value>, stride: nat, delays: Delays, x: Peer<S>, x': Peer<S>, p: nat, theirs: seq<Value>, hi: nat)
    requires Own(game, stride, delays, x, p) && hi <= |theirs| && x'.raw == x.raw
    requires Healthy(game, World(x'.session, x'.state))
    requires Moved(x.session, x'.session, p, stride, delays, x.raw, theirs, hi)
    ensures Own(game, stride, delays, x', p)
  {
    hide Faithful;
  }

  lemma MovedReceived<S>(
    stride: nat, delays: Delays, x: Peer<S>, x': Peer<S>, p: nat, mine: seq<Value>, y: Peer<S>)
    requires p < 2 && x.decoder.lastDecoded < |y.raw|
    requires Moved(x.session, x'.session, p, stride, delays, mine, y.raw, x.decoder.lastDecoded + 1)
    requires x'.decoder == x.decoder && x'.inbox == []
    ensures |x'.session.lastFrame| == |x'.session.sync.queues| == 2 && Received(stride, delays, x', p, y)
  {
    assert Slice(y.raw, x.decoder.lastDecoded + 1, x.decoder.lastDecoded + 1) == [];
  }

  lemma SendingStays<S>(stride: nat, x: Peer<S>, x': Peer<S>, y: Peer<S>)
    requires Sized(x.raw, stride) && Sending(stride, x, y)
    requires x'.raw == x.raw && x'.encoder == x.encoder && x'.decoder == x.decoder && x'.net == x.net
    ensures Sending(stride, x', y)
  {
  }
}
