/**
 The peer-to-peer session on values: who is local, the last frame of everybody, and the rollback engine they drive.
 Every player stays connected.
 */
module SessionModel {
  import opened Frames
  import opened QueueModel
  import opened SyncModel

  /** What a peer's connection reports to the session. */
  datatype PeerEvent<I> =
    | PeerConnected
    | PeerSynchronizing(total: nat, count: nat)
    | PeerSynchronized(everyoneRunning: bool)
    | Inputs(batch: seq<FrameInput<I>>)
    | PeerInterrupted(disconnectTimeout: nat)
    | PeerResumed

  datatype Arrival<I> = Arrival(player: nat, event: PeerEvent<I>)

  datatype LocalResult = Accepted(frame: nat) | NotSynchronized | InvalidPlayer | ReachedPredictionBarrier

  datatype Session<S, I(==)> = Session(
    sync: Sync<S, I>,
    local: seq<bool>,
    lastFrame: seq<Frame>,
    synchronizing: bool)
  {
    function Players(): nat {
      |local|
    }

    predicate Shaped() {
      |sync.queues| == |lastFrame| == Players() && sync.saved.Valid()
    }

    predicate HasRemote() {
      false in local
    }

    predicate Crowded() {
      2 < Remotes(local)
    }

    // ---- local inputs ----

    predicate AtBarrier() {
      sync.frameCount >= MAX_PREDICTION_FRAMES && sync.frameCount - sync.lastConfirmed >= MAX_PREDICTION_FRAMES
    }

    function AddLocalInput(player: nat, input: I): (Session<S, I>, LocalResult)
      requires |sync.queues| == |lastFrame| == Players()
    {
      if synchronizing then (this, NotSynchronized)
      else if Players() <= player then (this, InvalidPlayer)
      else if AtBarrier() then (this, ReachedPredictionBarrier)
      else
        (Receive(player, FrameInput(sync.frameCount, input)), Accepted(sync.frameCount))
    }

    /** An input enters a player's queue, and that player's last frame moves on. */
    function Receive(player: nat, input: FrameInput<I>): Session<S, I>
      requires player < |sync.queues| == |lastFrame| && !IsNull(input.frame)
    {
      this.(sync := sync.(queues := sync.queues[player := sync.queues[player].AddInput(input).0]),
            lastFrame := lastFrame[player := input.frame])
    }

    /** Unknown players are refused. */
    function SetFrameDelay(player: nat, delay: nat): Session<S, I> {
      if |sync.queues| <= player then this
      else this.(sync := sync.(queues := sync.queues[player := sync.queues[player].SetFrameDelay(delay)]))
    }

    // ---- events of the peers ----

    function ReceiveAll(player: nat, batch: seq<FrameInput<I>>): (r: Session<S, I>)
      requires player < |sync.queues| == |lastFrame|
      requires forall k | 0 <= k < |batch| :: !IsNull(batch[k].frame)
      ensures |r.sync.queues| == |sync.queues| == |r.lastFrame| && r.local == local && r.sync.saved == sync.saved
      decreases |batch|
    {
      if batch == [] then this else Receive(player, batch[0]).ReceiveAll(player, batch[1..])
    }

    function CheckInitialSync(everyoneRunning: bool): (Session<S, I>, seq<Command<I>>) {
      if synchronizing && everyoneRunning then (this.(synchronizing := false), [Notify(Running)]) else (this, [])
    }

    function HandleEvent(player: nat, event: PeerEvent<I>): (r: (Session<S, I>, seq<Command<I>>))
      requires |sync.queues| == |lastFrame| == Players() && player < Players()
      requires event.Inputs? ==> forall k | 0 <= k < |event.batch| :: !IsNull(event.batch[k].frame)
      ensures |r.0.sync.queues| == |r.0.lastFrame| == r.0.Players() == Players() && r.0.sync.saved == sync.saved
    {
      match event
      case PeerConnected => (this, [Notify(Connected(player))])
      case PeerSynchronizing(total, count) => (this, [Notify(Synchronizing(player, total, count))])
      case PeerSynchronized(everyoneRunning) =>
        var (s, running) := CheckInitialSync(everyoneRunning);
        (s, [Notify(Synchronized(player))] + running)
      case Inputs(batch) => (ReceiveAll(player, batch), [])
      case PeerInterrupted(disconnectTimeout) => (this, [Notify(ConnectionInterrupted(player, disconnectTimeout))])
      case PeerResumed => (this, [Notify(Synchronized(player))])  // a resumed connection is reported so, too
    }

    predicate WellFormed(arrivals: seq<Arrival<I>>) {
      forall k | 0 <= k < |arrivals| ::
        && arrivals[k].player < Players()
        && (arrivals[k].event.Inputs? ==>
              forall m | 0 <= m < |arrivals[k].event.batch| :: !IsNull(arrivals[k].event.batch[m].frame))
    }

    function FlushEvents(arrivals: seq<Arrival<I>>): (r: (Session<S, I>, seq<Command<I>>))
      requires |sync.queues| == |lastFrame| == Players() && WellFormed(arrivals)
      ensures |r.0.sync.queues| == |r.0.lastFrame| == r.0.Players() == Players()
      decreases |arrivals|
    {
      if arrivals == [] then (this, [])
      else
        var (s, first) := HandleEvent(arrivals[0].player, arrivals[0].event);
        var (s', rest) := s.FlushEvents(arrivals[1..]);
        (s', first + rest)
    }

    // ---- polling ----

    /**
     The frame up to which everybody's input is known. With more than two remote players the session also asks each
     peer what the others have confirmed, but looks at statuses that are never updated: it confirms nothing.
     */
    function ConfirmedFrame(): Frame
      requires |lastFrame| == Players()
    {
      if !HasRemote() then sync.frameCount
      else if Crowded() then NULL_FRAME
      else Least(lastFrame)
    }

    /** The rest of a poll, once all events are handled: check the simulation, then confirm. */
    function Settle(): (r: (Session<S, I>, seq<Command<I>>))
      requires Shaped() && CanCheck(sync)
      ensures r.0.local == local && r.0.lastFrame == lastFrame && |r.0.sync.queues| == |sync.queues|
    {
      var (checked, commands) := sync.CheckSimulation();
      var s := this.(sync := checked);
      var frame := s.ConfirmedFrame();
      (if IsNull(frame) then s else s.(sync := checked.SetLastConfirmedFrame(frame)), commands)
    }
  }

  /** How many players are remote. */
  function Remotes(local: seq<bool>): (r: nat)
    ensures r == 0 <==> false !in local
    ensures r <= |local|
  {
    if local == [] then 0
    else
      var rest := Remotes(local[..|local| - 1]);
      assert local == local[..|local| - 1] + [local[|local| - 1]];
      rest + if local[|local| - 1] then 0 else 1
  }

  /** What can be built: several local players along with several remote ones are refused. */
  predicate Buildable(local: seq<bool>): (r: bool)
    ensures |local| <= 2 || Remotes(local) == |local| ==> r
  {
    |local| - Remotes(local) <= 1 || Remotes(local) <= 1
  }

  ghost function Indices(local: seq<bool>, kind: bool): set<nat> {
    set i: nat | i < |local| && local[i] == kind
  }

  lemma OneMoreIndex(local: seq<bool>, kind: bool)
    requires local != []
    ensures var (n, rest) := (|local| - 1, Indices(local[..|local| - 1], kind));
            n !in rest && Indices(local, kind) == if local[n] == kind then rest + {n} else rest
  {
    var n := |local| - 1;
    assert forall i | 0 <= i < n :: local[..n][i] == local[i];
  }

  /** Every player is either local or remote. */
  lemma {:induction false} PlayersCounted(local: seq<bool>)
    ensures Remotes(local) == |Indices(local, false)| && |local| - Remotes(local) == |Indices(local, true)|
    decreases |local|
  {
    if local == [] {
      assert Indices(local, false) == {} && Indices(local, true) == {};
    } else {
      PlayersCounted(local[..|local| - 1]);
      OneMoreIndex(local, false);
      OneMoreIndex(local, true);
      hide Indices;
    }
  }

  /** A session is refused exactly when more than one player is local and more than one remote. */
  lemma RefusedIff(local: seq<bool>)
    ensures !Buildable(local) <==> 1 < |Indices(local, true)| && 1 < |Indices(local, false)|
  {
    PlayersCounted(local);
  }

  /** The smallest of a non-empty list of frames. */
  function Least(frames: seq<Frame>): (r: Frame)
    requires 0 < |frames|
    ensures forall i | 0 <= i < |frames| :: r <= frames[i]
    ensures exists i | 0 <= i < |frames| :: r == frames[i]
  {
    if |frames| == 1 then frames[0]
    else
      var rest := Least(frames[..|frames| - 1]);
      assert forall i | 0 <= i < |frames| - 1 :: frames[i] == frames[..|frames| - 1][i];
      if rest <= frames[|frames| - 1] then rest else frames[|frames| - 1]
  }

  lemma LeastStep(frames: seq<Frame>, i: nat)
    requires 0 < i < |frames|
    ensures Least(frames[..i + 1]) == Min(Least(frames[..i]), frames[i])
  {
    assert frames[..i + 1][..i] == frames[..i];
  }

  /** The frame the simulation check would go back to, if any, can be loaded, and what follows it played again. */
  predicate CanCheck<S, I(==)>(sync: Sync<S, I>) {
    match FirstIncorrect(sync.queues)
    case None => true
    case Some(e) =>
      || e == sync.frameCount
      || (e < sync.frameCount && FindIndex(sync.saved.cells, e).Some? && |sync.queues| <= MAX_PLAYERS)
  }

  /** A session with its client: the calls the client makes, each followed by running the commands it returns. */
  datatype Action<I> =
    | LocalInput(player: nat, input: I)
    | Poll(arrivals: seq<Arrival<I>>)
    | Advance(arrivals: seq<Arrival<I>>)
    | SetDelay(player: nat, delay: nat)

  datatype World<S, I(==)> = Panicked | World(session: Session<S, I>, state: S)

  predicate Fits<S, I(==)>(s: Session<S, I>, action: Action<I>) {
    match action
    case LocalInput(_, _) => true
    case Poll(arrivals) => s.WellFormed(arrivals)
    case Advance(arrivals) => s.WellFormed(arrivals)
    case SetDelay(_, _) => true
  }

  /**
   The commands a call returns. None: the session panics, because a frame to load is not in the ring, or because a
   frame is to be played by more players than its input has slots for.
   */
  function Call<S, I(==)>(s: Session<S, I>, action: Action<I>): Option<(Session<S, I>, seq<Command<I>>)>
    requires s.Shaped() && Fits(s, action)
  {
    match action
    case LocalInput(player, input) => Some((s.AddLocalInput(player, input).0, []))
    case SetDelay(player, delay) => Some((s.SetFrameDelay(player, delay), []))
    case Poll(arrivals) => DoPoll(s, arrivals, [])
    case Advance(arrivals) =>
      if s.synchronizing then DoPoll(s, arrivals, [])
      else if MAX_PLAYERS < |s.sync.queues| then None
      else
        var (sync, first) := s.sync.IncrementFrame();
        DoPoll(s.(sync := sync), arrivals, first)
  }

  function DoPoll<S, I(==)>(s: Session<S, I>, arrivals: seq<Arrival<I>>, issued: seq<Command<I>>)
    : Option<(Session<S, I>, seq<Command<I>>)>
    requires s.Shaped() && s.WellFormed(arrivals)
  {
    var (flushed, events) := s.FlushEvents(arrivals);
    FlushKeepsEngine(s, arrivals);
    if flushed.synchronizing then Some((flushed, issued + events))
    else if !CanCheck(flushed.sync) then None
    else
      var (settled, commands) := flushed.Settle();
      Some((settled, issued + events + commands))
  }

  lemma {:induction false} ReceiveKeepsEngine<S, I>(s: Session<S, I>, player: nat, batch: seq<FrameInput<I>>)
    requires player < |s.sync.queues| == |s.lastFrame|
    requires forall k | 0 <= k < |batch| :: !IsNull(batch[k].frame)
    ensures var r := s.ReceiveAll(player, batch);
            r == s.(sync := s.sync.(queues := r.sync.queues), lastFrame := r.lastFrame)
    decreases |batch|
  {
    if batch != [] {
      ReceiveKeepsEngine(s.Receive(player, batch[0]), player, batch[1..]);
    }
  }

  /** What an event says to the client, apart from that the session now runs. */
  function Said<I>(a: Arrival<I>): seq<Command<I>> {
    match a.event
    case PeerConnected => [Notify(Connected(a.player))]
    case PeerSynchronizing(total, count) => [Notify(Synchronizing(a.player, total, count))]
    case PeerSynchronized(_) => [Notify(Synchronized(a.player))]
    case Inputs(_) => []
    case PeerInterrupted(disconnectTimeout) => [Notify(ConnectionInterrupted(a.player, disconnectTimeout))]
    case PeerResumed => [Notify(Synchronized(a.player))]
  }

  function SaidByAll<I>(arrivals: seq<Arrival<I>>): seq<Command<I>> {
    if arrivals == [] then [] else Said(arrivals[0]) + SaidByAll(arrivals[1..])
  }

  /** While it runs, every event is reported, in the order they come in. */
  lemma {:induction false} EventsAreReported<S, I>(s: Session<S, I>, arrivals: seq<Arrival<I>>)
    requires |s.sync.queues| == |s.lastFrame| == s.Players() && s.WellFormed(arrivals) && !s.synchronizing
    ensures var (r, issued) := s.FlushEvents(arrivals); !r.synchronizing && issued == SaidByAll(arrivals)
    decreases |arrivals|
  {
    if arrivals != [] {
      EventSays(s, arrivals[0]);
      EventsAreReported(s.HandleEvent(arrivals[0].player, arrivals[0].event).0, arrivals[1..]);
    }
  }

  /** What a session says of events of which the k-th sets it running. */
  function Report<I>(arrivals: seq<Arrival<I>>, k: nat): seq<Command<I>>
    requires k <= |arrivals|
  {
    if k == |arrivals| then SaidByAll(arrivals)
    else SaidByAll(arrivals[..k + 1]) + [Notify(Running)] + SaidByAll(arrivals[k + 1..])
  }

  /**
   So it is before; and the session says once that it runs, right behind the first connection that finds everybody
   running.
   */
  lemma {:induction false} RunningIsReported<S, I>(s: Session<S, I>, arrivals: seq<Arrival<I>>) returns (k: nat)
    requires |s.sync.queues| == |s.lastFrame| == s.Players() && s.WellFormed(arrivals) && s.synchronizing
    ensures k <= |arrivals| && forall i | 0 <= i < k :: arrivals[i].event != PeerSynchronized(true)
    ensures k < |arrivals| ==> arrivals[k].event == PeerSynchronized(true)
    ensures var (r, issued) := s.FlushEvents(arrivals);
            r.synchronizing == (k == |arrivals|) && issued == Report(arrivals, k)
    decreases |arrivals|
  {
    k := 0;
    if arrivals != [] {
      var (a, rest) := (arrivals[0], arrivals[1..]);
      var s1 := s.HandleEvent(a.player, a.event).0;
      EventSays(s, a);
      FlushSplits(s, arrivals);
      assert [a] + rest == arrivals;
      hide *;
      if a.event == PeerSynchronized(true) {
        EventsAreReported(s1, rest);
        ReportNow(a, rest);
      } else {
        var j := RunningIsReported(s1, rest);
        k := j + 1;
        ReportLater(a, rest, j);
      }
    } else {
      assert s.FlushEvents([]) == (s, []);
    }
  }

  lemma ReportNow<I>(a: Arrival<I>, rest: seq<Arrival<I>>)
    ensures Report([a] + rest, 0) == Said(a) + [Notify(Running)] + SaidByAll(rest)
  {
    SaidFirst(a, []);
    assert ([a] + rest)[..1] == [a] + [] && ([a] + rest)[1..] == rest;
  }

  lemma ReportLater<I>(a: Arrival<I>, rest: seq<Arrival<I>>, j: nat)
    requires j <= |rest|
    ensures Report([a] + rest, j + 1) == Said(a) + Report(rest, j)
  {
    SaidFirst(a, rest);
    if j < |rest| {
      SaidFirst(a, rest[..j + 1]);
      assert ([a] + rest)[..j + 2] == [a] + rest[..j + 1] && ([a] + rest)[j + 2..] == rest[j + 1..];
    }
  }

  lemma SaidFirst<I>(a: Arrival<I>, rest: seq<Arrival<I>>)
    ensures SaidByAll([a] + rest) == Said(a) + SaidByAll(rest)
    ensures rest == [] ==> SaidByAll([a] + rest) == Said(a)
  {
    assert ([a] + rest)[1..] == rest;
  }

  /** What one event says, and whether it sets the session running. */
  lemma EventSays<S, I>(s: Session<S, I>, a: Arrival<I>)
    requires |s.sync.queues| == |s.lastFrame| == s.Players() && a.player < s.Players()
    requires a.event.Inputs? ==> forall k | 0 <= k < |a.event.batch| :: !IsNull(a.event.batch[k].frame)
    ensures var (s1, issued) := s.HandleEvent(a.player, a.event);
            if s.synchronizing && a.event == PeerSynchronized(true) then
              !s1.synchronizing && issued == Said(a) + [Notify(Running)]
            else
              s1.synchronizing == s.synchronizing && issued == Said(a)
  {
    if a.event.Inputs? {
      ReceiveKeepsEngine(s, a.player, a.event.batch);
    }
  }

  lemma FlushSplits<S, I>(s: Session<S, I>, arrivals: seq<Arrival<I>>)
    requires |s.sync.queues| == |s.lastFrame| == s.Players() && s.WellFormed(arrivals) && arrivals != []
    ensures var (s1, first) := s.HandleEvent(arrivals[0].player, arrivals[0].event);
            && s1.WellFormed(arrivals[1..])
            && s.FlushEvents(arrivals) == (s1.FlushEvents(arrivals[1..]).0, first + s1.FlushEvents(arrivals[1..]).1)
  {
  }

  /** Handling events moves queues, last frames and the synchronizing flag; never the frame count or saved states. */
  lemma {:induction false} FlushKeepsEngine<S, I>(s: Session<S, I>, arrivals: seq<Arrival<I>>)
    requires |s.sync.queues| == |s.lastFrame| == s.Players() && s.WellFormed(arrivals)
    ensures var r := s.FlushEvents(arrivals).0;
            r == s.(sync := s.sync.(queues := r.sync.queues), lastFrame := r.lastFrame,
                    synchronizing := r.synchronizing)
    decreases |arrivals|
  {
    if arrivals != [] {
      if arrivals[0].event.Inputs? {
        ReceiveKeepsEngine(s, arrivals[0].player, arrivals[0].event.batch);
      }
      FlushKeepsEngine(s.HandleEvent(arrivals[0].player, arrivals[0].event).0, arrivals[1..]);
    }
  }

  /** One call, and the client running everything it returned against the shared cells. */
  function Take<S, I(==)>(game: Game<S, I>, w: World<S, I>, action: Action<I>): World<S, I>
    requires w.World? ==> w.session.Shaped() && Fits(w.session, action)
  {
    if w.Panicked? then Panicked
    else
      match Call(w.session, action)
      case None => Panicked
      case Some((s, commands)) =>
        match ExecuteAll(game, commands, w.state, s.sync.saved.cells)
        case Crashed => Panicked
        case Ran(state, cells) => World(s.(sync := s.sync.(saved := s.sync.saved.(cells := cells))), state)
  }
}
