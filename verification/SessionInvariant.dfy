/**
 What callers and peers owe a session, the invariant it keeps between calls, and the weaker one that holds while what
 the peers have sent is being handled: every queue has then grown from one that was settled, so that whatever it has
 flagged is a frame already played, above everything confirmed. All that is said to the client meanwhile is notices.
 */
module SessionInvariant {
  import opened Frames
  import opened QueueModel
  import opened SyncModel
  import opened SavedRing
  import opened Rollback
  import opened SessionModel

  // ---------------------------------------------------------------------------------------------
  // What callers and peers owe the session
  // ---------------------------------------------------------------------------------------------

  /** The ring has room for an input of this frame, padding included. */
  ghost predicate Room<I>(q: Queue<I>, frame: nat) {
    frame + q.delay + 1 - q.discarded <= MAX_ROLLBACK_FRAMES
  }

  ghost predicate Follows(last: Frame, next: Frame) {
    IsNull(last) || next == last + 1
  }

  /** A batch continues where the player's last frame left off; the very first may start anywhere. */
  ghost predicate BatchFits<I>(q: Queue<I>, last: Frame, batch: seq<FrameInput<I>>) {
    && (batch != [] ==> Follows(last, batch[0].frame))
    && (forall k | 0 < k < |batch| :: batch[k].frame == batch[k - 1].frame + 1)
    && (forall k | 0 <= k < |batch| :: !IsNull(batch[k].frame) && Room(q, batch[k].frame))
  }

  lemma BatchTail<I>(q: Queue<I>, q': Queue<I>, last: Frame, batch: seq<FrameInput<I>>)
    requires batch != [] && BatchFits(q, last, batch)
    requires q'.delay == q.delay && q'.discarded == q.discarded
    ensures BatchFits(q', batch[0].frame, batch[1..])
  {
  }

  ghost predicate ArrivalFits<S, I(!new)>(s: Session<S, I>, a: Arrival<I>)
    requires s.Shaped()
  {
    && a.player < s.Players() && !s.local[a.player]
    && (a.event.Inputs? ==> BatchFits(s.sync.queues[a.player], s.lastFrame[a.player], a.event.batch))
  }

  ghost predicate ArrivalsFit<S, I(!new)>(s: Session<S, I>, arrivals: seq<Arrival<I>>)
    requires s.Shaped()
    decreases |arrivals|
  {
    arrivals != [] ==>
      && ArrivalFits(s, arrivals[0])
      && ArrivalsFit(s.HandleEvent(arrivals[0].player, arrivals[0].event).0, arrivals[1..])
  }

  /**
   The documented contract of the session: one input per local player and frame, all of them in before the frame is
   advanced; and peers whose batches continue one another.
   */
  ghost predicate Legal<S, I(!new)>(s: Session<S, I>, action: Action<I>)
    requires s.Shaped()
  {
    match action
    case LocalInput(player, _) =>
      player < s.Players() ==>
        && s.local[player]
        && s.lastFrame[player] == s.sync.frameCount - 1
        && (!s.AtBarrier() ==> Room(s.sync.queues[player], s.sync.frameCount))
    case SetDelay(_, _) => true
    case Poll(arrivals) => ArrivalsFit(s, arrivals)
    case Advance(arrivals) =>
      if s.synchronizing then ArrivalsFit(s, arrivals)
      else
        && (forall i | 0 <= i < s.Players() && s.local[i] :: s.lastFrame[i] == s.sync.frameCount)
        && ArrivalsFit(Incremented(s), arrivals)
  }

  function Incremented<S, I>(s: Session<S, I>): (r: Session<S, I>)
    requires s.Shaped()
    ensures r.Shaped()
  {
    s.(sync := s.sync.IncrementFrame().0)
  }

  // ---------------------------------------------------------------------------------------------
  // The invariant
  // ---------------------------------------------------------------------------------------------

  /** A player's queue is never behind the player's last frame, and nothing unconfirmed has been discarded. */
  ghost predicate Tracked<S, I>(s: Session<S, I>, i: nat)
    requires s.Shaped() && i < s.Players()
  {
    var q, n, confirmed := s.sync.queues[i], s.sync.frameCount, s.sync.lastConfirmed;
    && q.lastUser == s.lastFrame[i] < |q.stream|
    && q.discarded <= Max(0, confirmed) && q.discarded <= |q.stream|
    && (s.HasRemote() ==> q.discarded == Max(0, confirmed))
    && (s.local[i] ==> s.lastFrame[i] == n - 1 || (s.lastFrame[i] == n && !s.AtBarrier()))
    && (s.HasRemote() ==> confirmed <= s.lastFrame[i])
  }

  /** Everything that holds whether or not arrivals are still being handled. */
  ghost predicate Steady<S, I>(s: Session<S, I>) {
    && s.Shaped() && true in s.local && s.Players() <= MAX_PLAYERS
    && RingShape(s.sync.saved, s.sync.frameCount)
    && (forall i | 0 <= i < s.Players() :: Tracked(s, i))
    && s.sync.lastConfirmed <= s.sync.frameCount
    && (s.sync.frameCount <= MAX_PREDICTION_FRAMES || s.sync.frameCount - s.sync.lastConfirmed <= MAX_PREDICTION_FRAMES)
    && (s.synchronizing ==> s.sync.frameCount == 0)
    && (s.Crowded() ==> IsNull(s.sync.lastConfirmed))
  }

  /** Between two calls. */
  ghost predicate Sane<S, I>(s: Session<S, I>) {
    Steady(s) && AllSettled(s.sync.queues, s.sync.frameCount)
  }

  /** While arrivals are handled: the queues have grown from `before`, which covered everything confirmed. */
  ghost predicate Growing<S, I>(s: Session<S, I>, before: seq<Queue<I>>) {
    && Steady(s)
    && AllGrown(before, s.sync.queues, s.sync.frameCount)
    && AllSettled(before, s.sync.frameCount)
    && (s.HasRemote() ==> forall i | 0 <= i < |before| :: s.sync.lastConfirmed < |before[i].stream|)
    && (!s.HasRemote() ==> s.sync.queues == before)
  }

  lemma SaneStartsGrowing<S, I>(s: Session<S, I>)
    requires Sane(s)
    ensures Growing(s, s.sync.queues)
  {
    forall i | 0 <= i < s.Players()
      ensures Grown(s.sync.queues[i], s.sync.queues[i], s.sync.frameCount)
      ensures s.HasRemote() ==> s.sync.lastConfirmed < |s.sync.queues[i].stream|
    {
      SettledHasGrown(s.sync.queues[i], s.sync.frameCount);
      assert Tracked(s, i);
    }
  }

  /** One remote input. */
  lemma {:induction false} ReceiveKeepsGrowing<S, I>(
    s: Session<S, I>, before: seq<Queue<I>>, player: nat, input: FrameInput<I>)
    requires Growing(s, before) && player < s.Players() && !s.local[player]
    requires !IsNull(input.frame) && Follows(s.lastFrame[player], input.frame)
    ensures Growing(s.Receive(player, input), before)
    ensures s.Receive(player, input).sync.queues[player].delay == s.sync.queues[player].delay
    ensures s.Receive(player, input).sync.queues[player].discarded == s.sync.queues[player].discarded
  {
    var q, r := s.sync.queues[player], s.Receive(player, input);
    AddInputStream(q, input);
    AddKeepsGrown(before[player], q, s.sync.frameCount, input);
    assert Tracked(s, player);
    forall i | 0 <= i < s.Players()
      ensures Tracked(r, i)
    {
      assert Tracked(s, i);
    }
  }

  lemma {:induction false} ReceiveAllKeepsGrowing<S, I(!new)>(
    s: Session<S, I>, before: seq<Queue<I>>, player: nat, batch: seq<FrameInput<I>>)
    requires Growing(s, before) && player < s.Players() && !s.local[player]
    requires BatchFits(s.sync.queues[player], s.lastFrame[player], batch)
    ensures Growing(s.ReceiveAll(player, batch), before)
    decreases |batch|
  {
    if batch != [] {
      ReceiveKeepsGrowing(s, before, player, batch[0]);
      ReceiveAllKeepsGrowing(s.Receive(player, batch[0]), before, player, batch[1..]);
    }
  }

  lemma {:induction false} EventKeepsGrowing<S, I(!new)>(s: Session<S, I>, before: seq<Queue<I>>, a: Arrival<I>)
    requires Growing(s, before) && ArrivalFits(s, a)
    ensures Growing(s.HandleEvent(a.player, a.event).0, before)
  {
    match a.event {
      case Inputs(batch) =>
        ReceiveAllKeepsGrowing(s, before, a.player, batch);
      case PeerSynchronized(everyoneRunning) =>
        var s1 := s.CheckInitialSync(everyoneRunning).0;
        assert forall i | 0 <= i < s.Players() :: Tracked(s, i) ==> Tracked(s1, i);
      case _ =>
    }
  }

  lemma {:induction false} FlushKeepsGrowing<S, I(!new)>(
    s: Session<S, I>, before: seq<Queue<I>>, arrivals: seq<Arrival<I>>)
    requires Growing(s, before) && ArrivalsFit(s, arrivals) && s.WellFormed(arrivals)
    ensures Growing(s.FlushEvents(arrivals).0, before)
    decreases |arrivals|
  {
    if arrivals != [] {
      EventKeepsGrowing(s, before, arrivals[0]);
      FlushKeepsGrowing(s.HandleEvent(arrivals[0].player, arrivals[0].event).0, before, arrivals[1..]);
    }
  }

  /** All that handling events issues is notices. */
  lemma {:induction false} FlushIssuesNotices<S, I>(s: Session<S, I>, arrivals: seq<Arrival<I>>)
    requires s.Shaped() && s.WellFormed(arrivals)
    ensures forall k | 0 <= k < |s.FlushEvents(arrivals).1| :: s.FlushEvents(arrivals).1[k].Notify?
    decreases |arrivals|
  {
    if arrivals != [] {
      FlushIssuesNotices(s.HandleEvent(arrivals[0].player, arrivals[0].event).0, arrivals[1..]);
    }
  }

  /** So it keeps the client's promise. */
  lemma {:induction false} FlushKeepsPromise<S, I>(
    game: Game<S, I>, s: Session<S, I>, arrivals: seq<Arrival<I>>, issued: seq<Command<I>>, state: S,
    rows: seq<seq<I>>)
    requires s.Shaped() && s.WellFormed(arrivals)
    requires Promise(game, s.sync.saved.cells, issued, state, rows, Filled(s.sync.saved.cells))
    requires forall j: nat :: !LoadsFrom(issued, j)
    ensures var (r, events) := s.FlushEvents(arrivals);
            && r.sync.frameCount == s.sync.frameCount && r.sync.lastConfirmed == s.sync.lastConfirmed
            && Promise(game, r.sync.saved.cells, issued + events, state, rows, Filled(r.sync.saved.cells))
            && forall j: nat :: !LoadsFrom(issued + events, j)
  {
    var (r, events) := s.FlushEvents(arrivals);
    FlushKeepsEngine(s, arrivals);
    FlushIssuesNotices(s, arrivals);
    NoticesKeepPromise(game, s.sync.saved.cells, issued, state, rows, Filled(s.sync.saved.cells), events);
    forall j: nat ensures !LoadsFrom(issued + events, j) {
      assert !LoadsFrom(issued, j);
      assert forall c | c in events :: c.Notify?;
    }
  }

  lemma {:induction false} NoticesKeepPromise<S, I>(
    game: Game<S, I>, cells: seq<Cell<S>>, commands: seq<Command<I>>, state: S, rows: seq<seq<I>>, good: set<nat>,
    notices: seq<Command<I>>)
    requires Promise(game, cells, commands, state, rows, good)
    requires forall k | 0 <= k < |notices| :: notices[k].Notify?
    ensures Promise(game, cells, commands + notices, state, rows, good)
    decreases |notices|
  {
    if notices == [] {
      assert commands + notices == commands;
    } else {
      NotifyKeepsPromise(game, cells, commands, state, rows, good, notices[0].notice);
      NoticesKeepPromise(game, cells, commands + [notices[0]], state, rows, good, notices[1..]);
      assert commands + [notices[0]] + notices[1..] == commands + notices;
    }
  }
}
