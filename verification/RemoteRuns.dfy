/**
 Runs of sessions without any local player. With one or two players, everybody sends three inputs; all of them are
 confirmed at once, and playing a single frame gives up the next one. With three to eight, nothing is ever confirmed, so
 nothing stops the session: ten frames are played, and the first input that comes in asks for a state that is gone.
 */
module RemoteRuns {
  import opened Frames
  import opened QueueModel
  import opened SyncModel
  import opened SavedRing
  import opened Rollback
  import opened SessionModel
  import opened SessionInvariant
  import opened SessionProofs
  import opened Openings

  // ---------------------------------------------------------------------------------------------
  // One or two players: everybody sends three inputs, and one frame is played
  // ---------------------------------------------------------------------------------------------

  function Three<I>(zero: I): seq<FrameInput<I>> {
    [FrameInput(0, zero), FrameInput(1, zero), FrameInput(2, zero)]
  }

  function Received<I>(zero: I): Queue<I> {
    Fresh(zero, 0).(stream := [zero, zero, zero], lastUser := 2)
  }

  function Arriving<I>(zero: I, players: nat): seq<Arrival<I>>
    requires 0 < players <= 2
  {
    [Arrival(0, PeerSynchronized(true)), Arrival(0, Inputs(Three(zero)))]
    + if players == 2 then [Arrival(1, Inputs(Three(zero)))] else []
  }

  lemma {:induction false} ThreeReceived<S, I>(s: Session<S, I>, player: nat, zero: I)
    requires player < |s.sync.queues| == |s.lastFrame| && s.sync.queues[player] == Fresh(zero, 0)
    ensures s.ReceiveAll(player, Three(zero)) ==
            s.(sync := s.sync.(queues := s.sync.queues[player := Received(zero)]),
               lastFrame := s.lastFrame[player := 2])
  {
    var q0 := Fresh(zero, 0);
    var q1 := q0.AddInput(FrameInput(0, zero)).0;
    var q2 := q1.AddInput(FrameInput(1, zero)).0;
    assert q1 == q0.(stream := [zero], lastUser := 0);
    assert q2 == q1.(stream := [zero, zero], lastUser := 1);
    assert q2.AddInput(FrameInput(2, zero)).0 == Received(zero);
    hide Queue.AddInput;
    var s1 := s.Receive(player, FrameInput(0, zero));
    var s2 := s1.Receive(player, FrameInput(1, zero));
    var s3 := s2.Receive(player, FrameInput(2, zero));
    assert s3.lastFrame == s.lastFrame[player := 2] && s3.sync.queues == s.sync.queues[player := Received(zero)];
    hide Session.Receive;
    var b1, b2 := Three(zero)[1..], Three(zero)[1..][1..];
    assert b2[1..] == [] && s2.ReceiveAll(player, b2) == s3.ReceiveAll(player, []) == s3;
    assert s1.ReceiveAll(player, b1) == s2.ReceiveAll(player, b2);
  }

  lemma {:induction false} EventReceived<S, I(!new)>(s: Session<S, I>, player: nat, zero: I)
    requires s.Shaped() && player < s.Players() && !s.local[player]
    requires s.sync.queues[player] == Fresh(zero, 0) && IsNull(s.lastFrame[player])
    ensures ArrivalFits(s, Arrival(player, Inputs(Three(zero))))
    ensures s.HandleEvent(player, Inputs(Three(zero))).0 ==
            s.(sync := s.sync.(queues := s.sync.queues[player := Received(zero)]),
               lastFrame := s.lastFrame[player := 2])
  {
    ThreeReceived(s, player, zero);
  }

  lemma FlushFirst<S, I(!new)>(s: Session<S, I>, a: Arrival<I>, rest: seq<Arrival<I>>)
    requires s.Shaped() && ArrivalFits(s, a) && s.WellFormed([a])
    requires ArrivalsFit(s.HandleEvent(a.player, a.event).0, rest)
    requires s.HandleEvent(a.player, a.event).0.WellFormed(rest)
    ensures ArrivalsFit(s, [a] + rest) && s.WellFormed([a] + rest)
    ensures s.FlushEvents([a] + rest).0 == s.HandleEvent(a.player, a.event).0.FlushEvents(rest).0
  {
    assert ([a] + rest)[1..] == rest;
    assert s.HandleEvent(a.player, a.event).0.local == s.local;
  }

  /** Everybody's inputs come in while the session is still synchronizing. */
  lemma {:induction false} ArrivalsAreReceived<S, I(!new)>(game: Game<S, I>, zero: I, local: seq<bool>)
    requires Buildable(local) && 0 < |local| <= 2 && true !in local
    ensures var s := Start(game, zero, 0, local).session;
            var arrivals := Arriving(zero, |local|);
            && ArrivalsFit(s, arrivals) && s.WellFormed(arrivals)
            && s.FlushEvents(arrivals).0 ==
               s.(sync := s.sync.(queues := Repeat(|local|, Received(zero))),
                  lastFrame := Repeat(|local|, 2), synchronizing := false)
  {
    var s := Start(game, zero, 0, local).session;
    assert local[0] in local && (|local| == 2 ==> local[1] in local);
    var a0: Arrival<I> := Arrival(0, PeerSynchronized(true));
    var a1, a2 := Arrival(0, Inputs(Three(zero))), Arrival(1, Inputs(Three(zero)));
    var s1 := s.(synchronizing := false);
    assert s.HandleEvent(0, a0.event).0 == s1;
    EventReceived(s1, 0, zero);
    var s2 := s1.HandleEvent(0, a1.event).0;
    var rest: seq<Arrival<I>> := [];
    if |local| == 2 {
      EventReceived(s2, 1, zero);
      var s3 := s2.HandleEvent(1, a2.event).0;
      FlushFirst(s2, a2, []);
      rest := [a2] + [];
      assert s3.lastFrame == Repeat(2, 2) && s3.sync.queues == Repeat(2, Received(zero));
    } else {
      assert s2.lastFrame == Repeat(1, 2) && s2.sync.queues == Repeat(1, Received(zero));
    }
    FlushFirst(s1, a1, rest);
    FlushFirst(s, a0, [a1] + rest);
    assert Arriving(zero, |local|) == [a0] + ([a1] + rest);
  }

  /** A session that holds three inputs of everybody and has confirmed them. */
  ghost predicate HasThree<S, I>(s: Session<S, I>, zero: I, played: nat) {
    && s.Shaped() && 0 < s.Players() <= 2 && true !in s.local && !s.synchronizing && s.sync.frameCount == played
    && s.lastFrame == Repeat(s.Players(), 2)
    && forall i | 0 <= i < s.Players() ::
         s.sync.queues[i] == Received(zero).(lastRequested := played - 1, discarded := s.sync.queues[i].discarded)
  }

  /** Settling such a session rolls nothing back; once a frame has been played it gives up frames 0 and 1. */
  lemma {:induction false} SettlingDiscards<S, I>(s: Session<S, I>, zero: I, played: nat)
    requires HasThree(s, zero, played)
    ensures FirstIncorrect(s.sync.queues).None?
    ensures var r := s.Settle().0;
            && HasThree(r, zero, played)
            && forall i | 0 <= i < r.Players() :: r.sync.queues[i].discarded == if played == 0 then 0 else 2
  {
    assert s.local[0] in s.local && s.local[0] == false;
    assert s.lastFrame == Repeat(s.Players(), 2) && s.ConfirmedFrame() == Least(s.lastFrame) == 2;
  }

  lemma {:induction false} PlayingOneFrame<S, I>(s: Session<S, I>, zero: I)
    requires HasThree(s, zero, 0) && forall i | 0 <= i < s.Players() :: s.sync.queues[i].discarded == 0
    ensures HasThree(Incremented(s), zero, 1)
  {
  }

  /** The run, for any delay the session was made with. */
  function StuckRun<I>(zero: I, players: nat): seq<Action<I>>
    requires 0 < players <= 2
  {
    Drops(0, players) + ([Poll(Arriving(zero, players))] + [Advance([])])
  }

  lemma {:induction false} PollGetsAhead<S, I(!new)>(game: Game<S, I>, zero: I, local: seq<bool>)
    requires Buildable(local) && 0 < |local| <= 2 && true !in local
    ensures var (w, poll) := (Start(game, zero, 0, local), Poll(Arriving(zero, |local|)));
            && w.session.Shaped() && Fits(w.session, poll) && Legal(w.session, poll)
            && var w' := Take(game, w, poll);
               && w'.World? && HasThree(w'.session, zero, 0)
               && forall i | 0 <= i < |local| :: w'.session.sync.queues[i].discarded == 0
  {
    var (w, arrivals) := (Start(game, zero, 0, local), Arriving(zero, |local|));
    ArrivalsAreReceived(game, zero, local);
    var flushed := w.session.FlushEvents(arrivals).0;
    assert HasThree(flushed, zero, 0);
    SettlingDiscards(flushed, zero, 0);
    hide Arriving, Received, ArrivalsFit, Session.WellFormed;
    QuietPoll(game, w, arrivals);
  }

  lemma {:induction false} AdvanceGetsStuck<S, I(!new)>(game: Game<S, I>, w: World<S, I>, zero: I)
    requires w.World? && HasThree(w.session, zero, 0)
    requires forall i | 0 <= i < w.session.Players() :: w.session.sync.queues[i].discarded == 0
    ensures Fits(w.session, Advance([])) && Legal(w.session, Advance([]))
    ensures var w' := Take(game, w, Advance([]));
            && w'.World? && w'.session.local == w.session.local && w'.session.sync.frameCount == 1
            && |w'.session.sync.queues| == w.session.Players()
            && forall i | 0 <= i < |w'.session.sync.queues| :: w'.session.sync.queues[i].discarded == 2
  {
    var s := Incremented(w.session);
    assert forall i | 0 <= i < s.Players() :: w.session.local[i] in w.session.local;
    PlayingOneFrame(w.session, zero);
    SettlingDiscards(s, zero, 1);
    hide Received, Sync.IncrementFrame;
    QuietAdvance(game, w);
  }

  // ---------------------------------------------------------------------------------------------
  // Three to eight players: ten frames are played, and then a first input arrives
  // ---------------------------------------------------------------------------------------------

  function Idling<I>(count: nat): seq<Action<I>> {
    Repeat(count, Advance([]))
  }

  function LostRun<I>(zero: I): seq<Action<I>> {
    [Shaken(0)] + (Idling(10) +
    ([Action.SetDelay(0, 1)] + [Poll([Arrival(0, Inputs([FrameInput(0, zero)]))])]))
  }

  /** A session that has played some frames without hearing of anybody. */
  ghost predicate Alone<S, I>(s: Session<S, I>, zero: I, delay: nat, played: nat) {
    && s.Shaped() && 2 < s.Players() <= MAX_PLAYERS && true !in s.local
    && !s.synchronizing && s.sync.frameCount == played
    && s.lastFrame == Repeat(s.Players(), NULL_FRAME)
    && (if played == 0 then Blank(s.sync.saved) else Layout(s.sync.saved, played, 0))
    && forall i | 0 <= i < s.Players() ::
         s.sync.queues[i] ==
         Fresh(zero, delay).(lastRequested := played - 1, guess := if played == 0 then None else Some(zero))
  }

  lemma {:induction false} AllRemote(local: seq<bool>)
    requires true !in local
    ensures Remotes(local) == |local|
    decreases |local|
  {
    if local != [] {
      assert local[|local| - 1] in local;
      AllRemote(local[..|local| - 1]);
    }
  }

  /** With nobody confirmed, settling an unflagged session changes nothing. */
  lemma {:induction false} AloneSettles<S, I>(s: Session<S, I>, zero: I, delay: nat, played: nat)
    requires Alone(s, zero, delay, played)
    ensures FirstIncorrect(s.sync.queues).None? && s.Settle().0 == s
  {
    AllRemote(s.local);
    assert s.local[0] in s.local;
  }

  lemma {:induction false} AloneAdvances<S, I(!new)>(
    game: Game<S, I>, w: World<S, I>, zero: I, delay: nat, played: nat)
    requires w.World? && Alone(w.session, zero, delay, played)
    ensures Fits(w.session, Advance([])) && Legal(w.session, Advance([]))
    ensures var w' := Take(game, w, Advance([])); w'.World? && Alone(w'.session, zero, delay, played + 1)
  {
    var s := Incremented(w.session);
    assert forall i | 0 <= i < s.Players() :: w.session.local[i] in w.session.local;
    LayoutAdvances(w.session.sync, played);
    assert Alone(s, zero, delay, played + 1);
    AloneSettles(s, zero, delay, played + 1);
    hide Sync.IncrementFrame;
    QuietAdvance(game, w);
  }

  lemma LayoutAdvances<S, I>(s: Sync<S, I>, played: nat)
    requires s.frameCount == played && if played == 0 then Blank(s.saved) else Layout(s.saved, played, 0)
    ensures Layout(s.IncrementFrame().0.saved, played + 1, 0)
  {
    if played == 0 {
      LayoutFirst(s.saved);
      LayoutNext(s.saved.Push(0), 0, 0);
    } else {
      LayoutNext(s.saved, played, 0);
    }
  }

  lemma {:induction false} AloneIdles<S, I(!new)>(
    game: Game<S, I>, w: World<S, I>, zero: I, delay: nat, played: nat, count: nat, rest: seq<Action<I>>)
    returns (end: World<S, I>)
    requires w.World? && Alone(w.session, zero, delay, played)
    ensures end.World? && Alone(end.session, zero, delay, played + count)
    ensures LegalRun(game, end, rest) ==>
              && LegalRun(game, w, Idling(count) + rest)
              && RunAll(game, w, Idling(count) + rest) == RunAll(game, end, rest)
    decreases count
  {
    hide *;
    IdlingSplits(count, rest);
    if count == 0 {
      end := w;
    } else {
      AloneAdvances(game, w, zero, delay, played);
      AloneIsShaped(w.session, zero, delay, played);
      end := AloneIdles(game, Take(game, w, Advance([])), zero, delay, played + 1, count - 1, rest);
      if LegalRun(game, end, rest) {
        RunOfMore(game, w, Advance([]), Idling(count - 1) + rest);
      }
    }
  }

  lemma IdlingSplits<I>(count: nat, rest: seq<Action<I>>)
    ensures Idling(count) + rest ==
            if count == 0 then rest else [Advance([])] + (Idling(count - 1) + rest)
  {
  }

  lemma AloneIsShaped<S, I>(s: Session<S, I>, zero: I, delay: nat, played: nat)
    requires Alone(s, zero, delay, played)
    ensures s.Shaped()
  {
  }

  /** The first input is flagged at frame 0, whose state is no longer in the ring. */
  lemma {:induction false} LateInputPanics<S, I(!new)>(game: Game<S, I>, w: World<S, I>, zero: I, delay: nat)
    requires w.World? && Alone(w.session, zero, delay, 10)
    ensures var (s, poll) := (w.session.SetFrameDelay(0, 1), Poll([Arrival(0, Inputs([FrameInput(0, zero)]))]));
            && Fits(s, poll) && Legal(s, poll) && Take(game, w.(session := s), poll).Panicked?
  {
    var s := w.session.SetFrameDelay(0, 1);
    var input := FrameInput(0, zero);
    assert s.local[0] in s.local;
    OneArrival(s, 0, input);
    var r := s.Receive(0, input);
    AddFlagsIff(s.sync.queues[0], input);
    FirstIsZero(r.sync.queues);
    FirstFrameIsGone(r.sync.saved);
    hide Queue.AddInput, Layout, FirstIncorrect;
    assert !CanCheck(r.sync);
  }

  lemma FirstFrameIsGone<S>(saved: Saved<S>)
    requires Layout(saved, 10, 0)
    ensures FindIndex(saved.cells, 0) == None
  {
    assert forall j | 0 <= j < CELLS :: saved.cells[j].frame == FrameAt(10, 0, saved.head, j) != 0;
  }

  lemma FirstIsZero<I>(queues: seq<Queue<I>>)
    requires 0 < |queues| && queues[0].firstIncorrect == 0
    ensures FirstIncorrect(queues) == Some(0)
  {
  }
}
