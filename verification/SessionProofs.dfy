/** What every call of a session keeps, and the theorems over whole runs. */
module SessionProofs {
  import opened Frames
  import opened QueueModel
  import opened SyncModel
  import opened SavedRing
  import opened Rollback
  import opened SessionModel
  import opened SessionInvariant

  // ---------------------------------------------------------------------------------------------
  // Checking and confirming
  // ---------------------------------------------------------------------------------------------

  /** A frame flagged while arrivals were handled is above the last confirmed frame, and at most eight frames back. */
  lemma FlaggedFrameIsRecent<S, I>(s: Session<S, I>, before: seq<Queue<I>>)
    requires Growing(s, before)
    ensures var e := FirstIncorrect(s.sync.queues);
            e.Some? ==>
              && s.sync.lastConfirmed < e.value < s.sync.frameCount <= e.value + MAX_PREDICTION_FRAMES
              && s.sync.HasFrame(e.value)
    ensures CanCheck(s.sync)
  {
    FlaggedFrameWasPlayed(before, s.sync.queues, s.sync.frameCount);
    FlaggedFrameIsFound(s.sync, before);
  }

  /** So nothing a rollback will fetch has been discarded. */
  lemma FlaggedFrameIsKept<S, I>(s: Session<S, I>, before: seq<Queue<I>>)
    requires Growing(s, before)
    ensures var e := FirstIncorrect(s.sync.queues);
            e.Some? ==> forall i | 0 <= i < s.Players() :: s.sync.queues[i].discarded <= e.value
  {
    FlaggedFrameIsRecent(s, before);
    var e := FirstIncorrect(s.sync.queues);
    if e.Some? {
      forall i | 0 <= i < s.Players() ensures s.sync.queues[i].discarded <= e.value {
        assert Tracked(s, i);
      }
    }
  }

  /** Nor does a confirmation ever reach back before what is already gone. */
  lemma ConfirmationMovesForward<S, I>(s: Session<S, I>)
    requires Sane(s)
    ensures var frame := s.ConfirmedFrame();
            0 < frame ==>
              forall i | 0 <= i < s.Players() ::
                s.sync.queues[i].discarded <= s.sync.queues[i].DiscardLimit(frame - 1) + 1
  {
    ConfirmationIsMonotone(s);
    assert forall i | 0 <= i < s.Players() :: Tracked(s, i) && Settled(s.sync.queues[i], s.sync.frameCount);
  }

  /** Nor has the frame about to be played been discarded anywhere. */
  lemma CurrentFrameIsKept<S, I>(s: Session<S, I>)
    requires Sane(s)
    ensures forall i | 0 <= i < s.Players() ::
              IsNull(s.sync.queues[i].firstIncorrect) && s.sync.queues[i].discarded <= s.sync.frameCount
  {
    assert forall i | 0 <= i < s.Players() :: Tracked(s, i) && Settled(s.sync.queues[i], s.sync.frameCount);
  }

  /** Discarding touches neither what a queue believes nor whether it is settled. */
  lemma {:induction false} DiscardIsSafe<I>(q: Queue<I>, n: nat, frame: nat)
    requires Settled(q, n) && 0 < n && q.discarded <= frame + 1
    ensures Settled(q.Discard(frame), n)
    ensures q.Discard(frame) == q.(discarded := Min(frame + 1, |q.stream|))
  {
  }

  /** The same beliefs, whatever has been discarded or is being predicted. */
  ghost predicate SameBeliefs<I>(a: seq<Queue<I>>, b: seq<Queue<I>>) {
    |a| == |b| && forall i | 0 <= i < |a| :: a[i].stream == b[i].stream && a[i].zero == b[i].zero
  }

  ghost predicate SameDelays<I>(a: seq<Queue<I>>, b: seq<Queue<I>>) {
    |a| == |b| && forall i | 0 <= i < |a| :: a[i].delay == b[i].delay
  }

  lemma SameBeliefsSameRows<I>(a: seq<Queue<I>>, b: seq<Queue<I>>, n: nat)
    requires SameBeliefs(a, b)
    ensures Rows(a, n) == Rows(b, n)
  {
    forall g: nat ensures Row(a, g) == Row(b, g) {
      forall i | 0 <= i < |a| ensures a[i].Belief(g) == b[i].Belief(g) {}
    }
  }

  /** The confirmed frame never goes back, and never passes the frame being played or what any player has sent. */
  lemma {:induction false} ConfirmationIsMonotone<S, I>(s: Session<S, I>)
    requires Steady(s)
    ensures var frame := s.ConfirmedFrame();
            && s.sync.lastConfirmed <= frame <= s.sync.frameCount
            && (s.HasRemote() ==> forall i | 0 <= i < s.Players() :: frame <= s.lastFrame[i])
  {
    forall i | 0 <= i < s.Players() ensures s.HasRemote() ==> s.sync.lastConfirmed <= s.lastFrame[i] {
      assert Tracked(s, i);
    }
    var k :| 0 <= k < s.Players() && s.local[k];
    assert Tracked(s, k);
  }

  /** Confirming discards, from every queue, only frames below the confirmed one: nothing anybody will ask for again. */
  lemma {:induction false} ConfirmationIsSafe<S, I>(s: Session<S, I>, frame: nat)
    requires Sane(s) && s.sync.lastConfirmed <= frame <= s.sync.frameCount
    requires s.HasRemote() ==> forall i | 0 <= i < s.Players() :: frame <= s.lastFrame[i]
    requires !s.synchronizing && !s.Crowded()
    ensures var r := s.(sync := s.sync.SetLastConfirmedFrame(frame));
            && Sane(r)
            && SameBeliefs(s.sync.queues, r.sync.queues) && SameDelays(s.sync.queues, r.sync.queues)
            && forall i | 0 <= i < r.Players() ::
                 r.sync.queues[i].discarded == Max(s.sync.queues[i].discarded, Min(frame, |s.sync.queues[i].stream|))
  {
    var r := s.(sync := s.sync.SetLastConfirmedFrame(frame));
    forall i | 0 <= i < s.Players()
      ensures Tracked(r, i) && Settled(r.sync.queues[i], s.sync.frameCount)
      ensures r.sync.queues[i].discarded == Max(s.sync.queues[i].discarded, Min(frame, |s.sync.queues[i].stream|))
      ensures s.sync.queues[i].stream == r.sync.queues[i].stream && s.sync.queues[i].zero == r.sync.queues[i].zero
      ensures s.sync.queues[i].delay == r.sync.queues[i].delay
    {
      assert Tracked(s, i);
      if 0 < frame {
        DiscardIsSafe(s.sync.queues[i], s.sync.frameCount, frame - 1);
      }
    }
  }

  /** Checking the simulation settles every queue again. */
  lemma {:induction false} CheckKeepsSane<S, I>(s: Session<S, I>, before: seq<Queue<I>>)
    requires Growing(s, before)
    ensures CanCheck(s.sync)
    ensures var checked := s.sync.CheckSimulation().0;
            && Sane(s.(sync := checked))
            && checked.frameCount == s.sync.frameCount && checked.lastConfirmed == s.sync.lastConfirmed
            && SameStreams(s.sync.queues, checked.queues)
  {
    FlaggedFrameIsRecent(s, before);
    CheckShape(s.sync, before);
    var checked := s.sync.CheckSimulation().0;
    forall i | 0 <= i < s.Players() ensures Tracked(s.(sync := checked), i) {
      assert Tracked(s, i) && SameStream(s.sync.queues[i], checked.queues[i]);
    }
  }

  /** The second half of a poll leaves the session sane and confirms nothing less than before. */
  lemma {:induction false} SettleKeepsSane<S, I>(s: Session<S, I>, before: seq<Queue<I>>)
    requires Growing(s, before) && !s.synchronizing
    ensures CanCheck(s.sync)
    ensures var (checked, r) := (s.sync.CheckSimulation().0, s.Settle().0);
            && Sane(r) && !r.synchronizing
            && r.sync.saved == checked.saved && r.sync.frameCount == checked.frameCount == s.sync.frameCount
            && SameBeliefs(checked.queues, r.sync.queues) && SameDelays(checked.queues, r.sync.queues)
            && s.sync.lastConfirmed <= r.sync.lastConfirmed
  {
    CheckKeepsSane(s, before);
    var s1 := s.(sync := s.sync.CheckSimulation().0);
    ConfirmationIsMonotone(s1);
    if !IsNull(s1.ConfirmedFrame()) {
      ConfirmationIsSafe(s1, s1.ConfirmedFrame());
    }
  }

  /** And it turns the promise of the past into the promise of everything now believed. */
  lemma {:induction false} SettleKeepsPromise<S, I>(
    game: Game<S, I>, s: Session<S, I>, before: seq<Queue<I>>, issued: seq<Command<I>>, state: S)
    requires Growing(s, before) && !s.synchronizing
    requires Promise(game, s.sync.saved.cells, issued, state, Rows(before, s.sync.frameCount),
                     Filled(s.sync.saved.cells))
    requires forall j: nat :: !LoadsFrom(issued, j)
    ensures CanCheck(s.sync)
    ensures var (r, commands) := s.Settle();
            Promise(game, r.sync.saved.cells, issued + commands, state, Rows(r.sync.queues, r.sync.frameCount),
                    Filled(r.sync.saved.cells))
  {
    FlaggedFrameIsRecent(s, before);
    SettleKeepsSane(s, before);
    CheckKeepsPromise(game, s.sync, before, issued, state);
    SameBeliefsSameRows(s.sync.CheckSimulation().0.queues, s.Settle().0.sync.queues, s.sync.frameCount);
  }

  // ---------------------------------------------------------------------------------------------
  // Calls
  // ---------------------------------------------------------------------------------------------

  /** The client's state is the replay of everything believed, and every filled cell holds the state of its frame. */
  ghost predicate Faithful<S, I>(game: Game<S, I>, w: World<S, I>) {
    && w.World?
    && var s := w.session.sync;
       && w.state == Replay(game, s.queues, s.frameCount)
       && forall j | j in Filled(s.saved.cells) ::
            && s.saved.cells[j].frame <= s.frameCount
            && s.saved.cells[j].data == Some(Replay(game, s.queues, s.saved.cells[j].frame))
  }

  ghost predicate Healthy<S, I>(game: Game<S, I>, w: World<S, I>) {
    w.World? && Sane(w.session) && Faithful(game, w)
  }

  lemma RowsPrefix<I>(queues: seq<Queue<I>>, n: nat, k: nat)
    requires k <= n
    ensures Rows(queues, n)[..k] == Rows(queues, k)
  {
  }

  /** Between calls nothing is pending, and the promise is what the client has. */
  lemma {:induction false} FaithfulIsPromise<S, I>(game: Game<S, I>, w: World<S, I>)
    requires w.World? && |w.session.sync.saved.cells| == CELLS
    ensures var s := w.session.sync;
            Faithful(game, w) <==>
            Promise(game, s.saved.cells, [], w.state, Rows(s.queues, s.frameCount), Filled(s.saved.cells))
  {
    var s := w.session.sync;
    forall j | j in Filled(s.saved.cells) && s.saved.cells[j].frame <= s.frameCount
      ensures Rows(s.queues, s.frameCount)[..s.saved.cells[j].frame] == Rows(s.queues, s.saved.cells[j].frame)
    {
      RowsPrefix(s.queues, s.frameCount, s.saved.cells[j].frame);
    }
  }

  /** Running a promised batch crashes nowhere and leaves the session and its client healthy. */
  lemma {:induction false} RunBatch<S, I>(game: Game<S, I>, s: Session<S, I>, commands: seq<Command<I>>, state: S)
    requires Sane(s)
    requires Promise(game, s.sync.saved.cells, commands, state, Rows(s.sync.queues, s.sync.frameCount),
                     Filled(s.sync.saved.cells))
    ensures var outcome := ExecuteAll(game, commands, state, s.sync.saved.cells);
            && outcome.Ran?
            && Healthy(game, World(s.(sync := s.sync.(saved := s.sync.saved.(cells := outcome.cells))), outcome.state))
  {
    ExecuteKeepsFrames(game, commands, state, s.sync.saved.cells);
    var outcome := ExecuteAll(game, commands, state, s.sync.saved.cells);
    var r := s.(sync := s.sync.(saved := s.sync.saved.(cells := outcome.cells)));
    forall i | 0 <= i < s.Players() ensures Tracked(r, i) {
      assert Tracked(s, i);
    }
    assert Filled(outcome.cells) == Filled(s.sync.saved.cells);
    FaithfulIsPromise(game, World(r, outcome.state));
  }

  /** A local input lands beyond everything already played, so nothing about the past changes. */
  lemma {:induction false} LocalInputIsSane<S, I(!new)>(s: Session<S, I>, player: nat, input: I)
    requires Sane(s) && Legal(s, LocalInput(player, input))
    ensures var r := s.AddLocalInput(player, input).0;
            && Sane(r) && r.sync == s.sync.(queues := r.sync.queues)
            && Rows(s.sync.queues, s.sync.frameCount) == Rows(r.sync.queues, s.sync.frameCount)
  {
    var (r, result) := s.AddLocalInput(player, input);
    if result.Accepted? {
      var q, n := s.sync.queues[player], s.sync.frameCount;
      assert Tracked(s, player);
      AddInputStream(q, FrameInput(n, input));
      PadKeepsNoGuess(q.(lastUser := n), n + q.delay);
      hide Queue.PadTo, RingShape;
      forall i | 0 <= i < s.Players() ensures Tracked(r, i) {
        assert Tracked(s, i);
      }
      LongerQueueSameRows(s.sync.queues, r.sync.queues, player, n);
    }
  }

  lemma LongerQueueSameRows<I>(before: seq<Queue<I>>, after: seq<Queue<I>>, player: nat, n: nat)
    requires player < |before| && n <= |before[player].stream|
    requires |after| == |before| && after == before[player := after[player]]
    requires before[player].stream <= after[player].stream
    ensures Rows(before, n) == Rows(after, n)
  {
    forall g: nat | g < n ensures Row(before, g) == Row(after, g) {
      forall i | 0 <= i < |before| ensures before[i].Belief(g) == after[i].Belief(g) {}
    }
  }

  lemma {:induction false} LocalInputKeepsHealthy<S, I(!new)>(game: Game<S, I>, w: World<S, I>, player: nat, input: I)
    requires Healthy(game, w) && Legal(w.session, LocalInput(player, input))
    ensures Healthy(game, Take(game, w, LocalInput(player, input)))
  {
    hide Steady, Legal, AllSettled, Promise, Faithful;
    SaneIsShaped(w.session);
    var r := w.session.AddLocalInput(player, input).0;
    LocalInputIsSane(w.session, player, input);
    FaithfulIsPromise(game, w);
    RunBatch(game, r, [], w.state);
  }

  lemma SaneIsShaped<S, I>(s: Session<S, I>)
    requires Sane(s)
    ensures s.Shaped()
  {
  }

  /** A queue that is not predicting cannot be wrong. */
  lemma {:induction false} PadKeepsNoGuess<I>(q: Queue<I>, frame: nat)
    requires q.guess.None? && IsNull(q.firstIncorrect)
    ensures q.PadTo(frame).guess.None? && IsNull(q.PadTo(frame).firstIncorrect)
    decreases frame - |q.stream|
  {
    if |q.stream| < frame {
      PadKeepsNoGuess(q.Push(FrameInput(|q.stream| - 1, q.Last())), frame);
    }
  }

  lemma {:induction false} FittingIsWellFormed<S, I(!new)>(s: Session<S, I>, arrivals: seq<Arrival<I>>)
    requires s.Shaped() && ArrivalsFit(s, arrivals)
    ensures s.WellFormed(arrivals)
    decreases |arrivals|
  {
    if arrivals != [] {
      var s1 := s.HandleEvent(arrivals[0].player, arrivals[0].event).0;
      FittingIsWellFormed(s1, arrivals[1..]);
      assert arrivals == [arrivals[0]] + arrivals[1..];
    }
  }

  /** Before the first frame nothing can have been predicted wrongly. */
  lemma UnplayedIsSane<S, I>(s: Session<S, I>, before: seq<Queue<I>>)
    requires Growing(s, before) && s.synchronizing
    ensures Sane(s)
  {
    forall i | 0 <= i < s.Players() ensures Settled(s.sync.queues[i], 0) {
      GrownUnflaggedIsSettled(before[i], s.sync.queues[i], 0);
    }
  }

  /** A poll on top of commands already issued in the same call, none of them a load. */
  lemma {:induction false} PollKeepsHealthy<S, I(!new)>(
    game: Game<S, I>, s: Session<S, I>, arrivals: seq<Arrival<I>>, issued: seq<Command<I>>, state: S)
    requires Sane(s) && ArrivalsFit(s, arrivals) && s.WellFormed(arrivals)
    requires Promise(game, s.sync.saved.cells, issued, state, Rows(s.sync.queues, s.sync.frameCount),
                     Filled(s.sync.saved.cells))
    requires forall j: nat :: !LoadsFrom(issued, j)
    ensures var called := DoPoll(s, arrivals, issued);
            && called.Some?
            && var (r, commands) := called.value;
               var outcome := ExecuteAll(game, commands, state, r.sync.saved.cells);
               && outcome.Ran?
               && s.sync.lastConfirmed <= r.sync.lastConfirmed
               && Healthy(game, World(r.(sync := r.sync.(saved := r.sync.saved.(cells := outcome.cells))),
                                      outcome.state))
  {
    SaneStartsGrowing(s);
    FlushKeepsGrowing(s, s.sync.queues, arrivals);
    FlushKeepsPromise(game, s, arrivals, issued, state, Rows(s.sync.queues, s.sync.frameCount));
    var (flushed, events) := s.FlushEvents(arrivals);
    if flushed.synchronizing {
      UnplayedIsSane(flushed, s.sync.queues);
      assert Rows(s.sync.queues, 0) == Rows(flushed.sync.queues, 0);
      RunBatch(game, flushed, issued + events, state);
    } else {
      SettleKeepsSane(flushed, s.sync.queues);
      SettleKeepsPromise(game, flushed, s.sync.queues, issued + events, state);
      var (r, commands) := flushed.Settle();
      RunBatch(game, r, issued + events + commands, state);
    }
  }

  lemma {:induction false} IncrementKeepsShape<S>(saved: Saved<S>, n: nat)
    requires RingShape(saved, n)
    ensures var after := saved.PushAll(FirstClaim(n), Claims(n, 1));
            && RingShape(after, n + 1)
            && Filled(after.cells) <= Filled(saved.cells) + Claimed(saved.head, Claims(n, 1))
  {
    if n == 0 {
      LayoutFirst(saved);
      LayoutNext(saved.Push(0), 0, 0);
      assert saved.PushAll(0, 2) == saved.Push(0).PushAll(1, 1) == saved.Push(0).Push(1);
    } else {
      assert saved.PushAll(n + 1, 1) == saved.Push(n + 1);
      if Layout(saved, n, 0) {
        LayoutNext(saved, n, 0);
      } else {
        LayoutNext(saved, n, 1);
      }
    }
    forall j: nat | j < CELLS {
      PushAllCell(saved, FirstClaim(n), Claims(n, 1), j);
    }
  }

  /** Advancing a frame that every local player has given an input for. */
  lemma {:induction false} IncrementStaysSane<S, I>(s: Session<S, I>)
    requires Sane(s) && !s.synchronizing
    requires forall i | 0 <= i < s.Players() && s.local[i] :: s.lastFrame[i] == s.sync.frameCount
    ensures Sane(Incremented(s)) && Incremented(s).sync.lastConfirmed == s.sync.lastConfirmed
  {
    var n := s.sync.frameCount;
    var sync := s.sync.IncrementFrame().0;
    FetchSettles(s.sync.queues, n);
    assert sync.saved == s.sync.saved.PushAll(FirstClaim(n), Claims(n, 1));
    IncrementKeepsShape(s.sync.saved, n);
    var k :| 0 <= k < s.Players() && s.local[k];
    assert Tracked(s, k);
    forall i | 0 <= i < s.Players() ensures Tracked(Incremented(s), i) {
      assert Tracked(s, i) && SameStream(s.sync.queues[i], sync.queues[i]);
    }
  }

  lemma {:induction false} IncrementPromises<S, I>(game: Game<S, I>, s: Session<S, I>, state: S)
    requires Sane(s) && Faithful(game, World(s, state))
    ensures var (sync, issued) := s.sync.IncrementFrame();
            && Promise(game, sync.saved.cells, issued, state, Rows(sync.queues, sync.frameCount),
                       Filled(sync.saved.cells))
            && forall j: nat :: !LoadsFrom(issued, j)
  {
    var n := s.sync.frameCount;
    var (sync, issued) := s.sync.IncrementFrame();
    FaithfulIsPromise(game, World(s, state));
    IncrementKeepsPromise(game, s.sync, [], state, Rows(s.sync.queues, n), Filled(s.sync.saved.cells), 0);
    assert [] + issued == issued;
    SameStreamsSameRows(s.sync.queues, sync.queues, n + 1);
    assert Rows(s.sync.queues, n) + [Row(s.sync.queues, n)] == Rows(sync.queues, n + 1);
    IncrementKeepsShape(s.sync.saved, n);
    PromiseFewer(game, sync.saved.cells, issued, state, Rows(sync.queues, n + 1),
                 Filled(s.sync.saved.cells) + Claimed(s.sync.saved.head, Claims(n, 1)), Filled(sync.saved.cells));
  }

  /** A new delay changes nothing about the inputs already taken. */
  lemma {:induction false} SetDelayIsSane<S, I>(s: Session<S, I>, player: nat, delay: nat)
    requires Sane(s)
    ensures var r := s.SetFrameDelay(player, delay);
            Sane(r) && r.sync == s.sync.(queues := r.sync.queues) && SameBeliefs(s.sync.queues, r.sync.queues)
  {
    var r := s.SetFrameDelay(player, delay);
    forall i | 0 <= i < s.Players() ensures Tracked(r, i) && Settled(r.sync.queues[i], s.sync.frameCount) {
      assert Tracked(s, i);
    }
  }

  lemma {:induction false} SetDelayKeepsHealthy<S, I(!new)>(game: Game<S, I>, w: World<S, I>, player: nat, delay: nat)
    requires Healthy(game, w)
    ensures Healthy(game, Take(game, w, Action.SetDelay(player, delay)))
  {
    hide Steady, AllSettled, Promise, Faithful, SameBeliefs;
    var s := w.session;
    var r := s.SetFrameDelay(player, delay);
    SetDelayIsSane(s, player, delay);
    SaneIsShaped(s);
    SameBeliefsSameRows(s.sync.queues, r.sync.queues, s.sync.frameCount);
    FaithfulIsPromise(game, w);
    RunBatch(game, r, [], w.state);
  }

  /** Every legal call keeps session and client healthy, and never takes a confirmation back. */
  lemma {:induction false} TakeKeepsHealthy<S, I(!new)>(game: Game<S, I>, w: World<S, I>, action: Action<I>)
    requires Healthy(game, w) && Legal(w.session, action)
    ensures Fits(w.session, action)
    ensures var w' := Take(game, w, action);
            Healthy(game, w') && w.session.sync.lastConfirmed <= w'.session.sync.lastConfirmed
  {
    var s := w.session;
    match action {
      case LocalInput(player, input) =>
        LocalInputKeepsHealthy(game, w, player, input);
      case SetDelay(player, delay) =>
        SetDelayKeepsHealthy(game, w, player, delay);
      case Poll(arrivals) =>
        FittingIsWellFormed(s, arrivals);
        FaithfulIsPromise(game, w);
        PollKeepsHealthy(game, s, arrivals, [], w.state);
      case Advance(arrivals) =>
        if s.synchronizing {
          FittingIsWellFormed(s, arrivals);
          FaithfulIsPromise(game, w);
          PollKeepsHealthy(game, s, arrivals, [], w.state);
        } else {
          FittingIsWellFormed(Incremented(s), arrivals);
          IncrementStaysSane(s);
          IncrementPromises(game, s, w.state);
          PollKeepsHealthy(game, Incremented(s), arrivals, s.sync.IncrementFrame().1, w.state);
        }
    }
  }

  // ---------------------------------------------------------------------------------------------
  // Runs
  // ---------------------------------------------------------------------------------------------

  ghost predicate LegalRun<S, I(!new)>(game: Game<S, I>, w: World<S, I>, actions: seq<Action<I>>)
    decreases |actions|
  {
    actions == [] ||
    (&& w.World? && w.session.Shaped() && Fits(w.session, actions[0]) && Legal(w.session, actions[0])
     && LegalRun(game, Take(game, w, actions[0]), actions[1..]))
  }

  ghost function RunAll<S, I(!new)>(game: Game<S, I>, w: World<S, I>, actions: seq<Action<I>>): World<S, I>
    requires LegalRun(game, w, actions)
    decreases |actions|
  {
    if actions == [] then w else RunAll(game, Take(game, w, actions[0]), actions[1..])
  }

  lemma RunOfOne<S, I(!new)>(game: Game<S, I>, w: World<S, I>, action: Action<I>)
    requires w.World? && w.session.Shaped() && Fits(w.session, action) && Legal(w.session, action)
    ensures LegalRun(game, w, [action]) && RunAll(game, w, [action]) == Take(game, w, action)
  {
    var next := Take(game, w, action);
    assert LegalRun(game, next, []) && RunAll(game, next, []) == next;
    assert [action][1..] == [];
  }

  lemma RunOfMore<S, I(!new)>(game: Game<S, I>, w: World<S, I>, action: Action<I>, rest: seq<Action<I>>)
    requires w.World? && w.session.Shaped() && Fits(w.session, action) && Legal(w.session, action)
    requires LegalRun(game, Take(game, w, action), rest)
    ensures LegalRun(game, w, [action] + rest)
    ensures RunAll(game, w, [action] + rest) == RunAll(game, Take(game, w, action), rest)
  {
    assert ([action] + rest)[1..] == rest;
  }

  lemma {:induction false} RunAppend<S, I(!new)>(
    game: Game<S, I>, w: World<S, I>, a: seq<Action<I>>, b: seq<Action<I>>)
    requires LegalRun(game, w, a) && LegalRun(game, RunAll(game, w, a), b)
    ensures LegalRun(game, w, a + b) && RunAll(game, w, a + b) == RunAll(game, RunAll(game, w, a), b)
    decreases |a|
  {
    hide Take, Legal, Fits, Session.Shaped;
    if a == [] {
      assert a + b == b;
    } else {
      RunAppend(game, Take(game, w, a[0]), a[1..], b);
      assert (a + b)[1..] == a[1..] + b;
    }
  }

  /** A new session: a queue per player, an empty ring, and a client in the game's first state. */
  function Start<S, I>(game: Game<S, I>, zero: I, delay: nat, local: seq<bool>): World<S, I>
    requires Buildable(local)
  {
    World(
      Session(
        Sync(Saved(0, Repeat(CELLS, Cell(NULL_FRAME, None))), Repeat(|local|, Fresh(zero, delay)), NULL_FRAME, 0),
        local,
        Repeat(|local|, NULL_FRAME),
        false in local),
      game.init)
  }

  lemma StartIsHealthy<S, I>(game: Game<S, I>, zero: I, delay: nat, local: seq<bool>)
    requires Buildable(local) && true in local && |local| <= MAX_PLAYERS
    ensures Healthy(game, Start(game, zero, delay, local))
  {
    var s := Start(game, zero, delay, local).session;
    forall i | 0 <= i < s.Players() ensures Settled(s.sync.queues[i], 0) {}
  }

  /**
   Rollback refines replay. After any legal run, in which remote inputs come in as late as they like, the client is in
   the state that waiting for every input and then simulating would have given, each missing input being a repeat of
   the last one known, and the default one where none is. No load ever misses, so nothing has panicked, and the saved
   states are right as well.
   */
  lemma {:induction false} RollbackRefinesReplay<S, I(!new)>(
    game: Game<S, I>, zero: I, delay: nat, local: seq<bool>, actions: seq<Action<I>>)
    requires Buildable(local) && true in local && |local| <= MAX_PLAYERS
    requires LegalRun(game, Start(game, zero, delay, local), actions)
    ensures var w := RunAll(game, Start(game, zero, delay, local), actions);
            && w.World? && Sane(w.session)
            && var s := w.session.sync;
               var rows := Rows(s.queues, s.frameCount);
               && |rows| == s.frameCount && AsKnown(rows, s.queues, zero)
               && w.state == Play(game, rows)
               && (forall j | 0 <= j < CELLS && !IsNull(s.saved.cells[j].frame) ::
                     && s.saved.cells[j].frame <= s.frameCount
                     && s.saved.cells[j].data == Some(Play(game, rows[..s.saved.cells[j].frame])))
  {
    StartIsHealthy(game, zero, delay, local);
    RunKeepsHealthy(game, Start(game, zero, delay, local), actions);
    RunKeepsZeros(game, Start(game, zero, delay, local), actions, zero);
    var s := RunAll(game, Start(game, zero, delay, local), actions).session.sync;
    forall k: nat | k <= s.frameCount ensures Rows(s.queues, s.frameCount)[..k] == Rows(s.queues, k) {
      RowsPrefix(s.queues, s.frameCount, k);
    }
    var cells := RunAll(game, Start(game, zero, delay, local), actions).session.sync.saved.cells;
    assert forall j: nat | j < CELLS && !IsNull(cells[j].frame) :: j in Filled(cells);
  }

  /** All queues fill in the same default input. */
  ghost predicate Zeroed<S, I>(s: Session<S, I>, zero: I) {
    forall i | 0 <= i < |s.sync.queues| :: s.sync.queues[i].zero == zero
  }

  lemma {:induction false} PollKeepsZeros<S, I(!new)>(
    s: Session<S, I>, arrivals: seq<Arrival<I>>, issued: seq<Command<I>>, zero: I)
    requires Sane(s) && ArrivalsFit(s, arrivals) && s.WellFormed(arrivals) && Zeroed(s, zero)
    ensures var called := DoPoll(s, arrivals, issued); called.Some? ==> Zeroed(called.value.0, zero)
  {
    SaneStartsGrowing(s);
    FlushKeepsGrowing(s, s.sync.queues, arrivals);
    var flushed := s.FlushEvents(arrivals).0;
    assert AllGrown(s.sync.queues, flushed.sync.queues, flushed.sync.frameCount);
    if !flushed.synchronizing {
      CheckKeepsSane(flushed, s.sync.queues);
      SettleKeepsSane(flushed, s.sync.queues);
      var checked := flushed.sync.CheckSimulation().0;
      assert forall i | 0 <= i < |checked.queues| :: SameStream(flushed.sync.queues[i], checked.queues[i]);
    }
  }

  lemma {:induction false} TakeKeepsZeros<S, I(!new)>(
    game: Game<S, I>, w: World<S, I>, action: Action<I>, zero: I)
    requires Healthy(game, w) && Legal(w.session, action) && Zeroed(w.session, zero) && Fits(w.session, action)
    ensures var w' := Take(game, w, action); w'.World? ==> Zeroed(w'.session, zero)
  {
    var s := w.session;
    match action {
      case LocalInput(player, input) =>
        if s.AddLocalInput(player, input).1.Accepted? {
          AddInputStream(s.sync.queues[player], FrameInput(s.sync.frameCount, input));
        }
      case SetDelay(_, _) =>
      case Poll(arrivals) => PollKeepsZeros(s, arrivals, [], zero);
      case Advance(arrivals) =>
        if s.synchronizing {
          PollKeepsZeros(s, arrivals, [], zero);
        } else {
          IncrementStaysSane(s);
          FetchSettles(s.sync.queues, s.sync.frameCount);
          assert forall i | 0 <= i < s.Players() :: SameStream(s.sync.queues[i], Incremented(s).sync.queues[i]);
          PollKeepsZeros(Incremented(s), arrivals, s.sync.IncrementFrame().1, zero);
        }
    }
  }

  lemma {:induction false} RunKeepsZeros<S, I(!new)>(
    game: Game<S, I>, w: World<S, I>, actions: seq<Action<I>>, zero: I)
    requires Healthy(game, w) && LegalRun(game, w, actions) && Zeroed(w.session, zero)
    ensures var w' := RunAll(game, w, actions); w'.World? ==> Zeroed(w'.session, zero)
    decreases |actions|
  {
    if actions != [] {
      TakeKeepsHealthy(game, w, actions[0]);
      TakeKeepsZeros(game, w, actions[0], zero);
      hide Take, Legal, Fits, Zeroed;
      RunKeepsZeros(game, Take(game, w, actions[0]), actions[1..], zero);
    }
  }

  lemma {:induction false} RunKeepsHealthy<S, I(!new)>(game: Game<S, I>, w: World<S, I>, actions: seq<Action<I>>)
    requires Healthy(game, w) && LegalRun(game, w, actions)
    ensures Healthy(game, RunAll(game, w, actions))
    ensures w.session.sync.lastConfirmed <= RunAll(game, w, actions).session.sync.lastConfirmed
    decreases |actions|
  {
    if actions != [] {
      TakeKeepsHealthy(game, w, actions[0]);
      RunKeepsHealthy(game, Take(game, w, actions[0]), actions[1..]);
    }
  }

  // ---------------------------------------------------------------------------------------------
  // What a call leaves behind
  // ---------------------------------------------------------------------------------------------

  /** A batch of a remote player, on its own. */
  lemma {:induction false} BatchArrives<S, I(!new)>(s: Session<S, I>, k: nat, batch: seq<FrameInput<I>>)
    requires s.Shaped() && k < s.Players() && !s.local[k]
    requires BatchFits(s.sync.queues[k], s.lastFrame[k], batch)
    ensures var arrivals := [Arrival(k, Inputs(batch))];
            && s.WellFormed(arrivals) && ArrivalsFit(s, arrivals)
            && s.FlushEvents(arrivals).0 == s.ReceiveAll(k, batch)
  {
    var arrivals := [Arrival(k, Inputs(batch))];
    var r := s.ReceiveAll(k, batch);
    assert arrivals[1..] == [] && s.FlushEvents(arrivals).0 == r.FlushEvents([]).0 == r;
  }

  lemma {:induction false} OneArrival<S, I(!new)>(s: Session<S, I>, k: nat, input: FrameInput<I>)
    requires s.Shaped() && k < s.Players() && !s.local[k] && !IsNull(input.frame)
    requires Follows(s.lastFrame[k], input.frame) && Room(s.sync.queues[k], input.frame)
    ensures var arrivals := [Arrival(k, Inputs([input]))];
            && s.WellFormed(arrivals) && ArrivalsFit(s, arrivals)
            && s.FlushEvents(arrivals).0 == s.Receive(k, input)
  {
    var r := s.Receive(k, input);
    assert [input][1..] == [] && s.ReceiveAll(k, [input]) == r.ReceiveAll(k, []) == r;
    BatchArrives(s, k, [input]);
  }

  /** What a call leaves behind: the session with the client's saves in its cells. */
  lemma TakenSession<S, I(!new)>(game: Game<S, I>, w: World<S, I>, action: Action<I>)
    requires w.World? && w.session.Shaped() && Fits(w.session, action) && Take(game, w, action).World?
    ensures var w' := Take(game, w, action);
            var called := Call(w.session, action);
            called.Some? && w'.session == called.value.0.(sync := called.value.0.sync.(saved := w'.session.sync.saved))
  {
  }

  /** What settling leaves: players, last frames, delays and the frame count. */
  lemma {:induction false} SettleLeaves<S, I(!new)>(s: Session<S, I>, before: seq<Queue<I>>)
    requires Growing(s, before) && !s.synchronizing
    ensures CanCheck(s.sync)
    ensures var r := s.Settle().0;
            && r == s.(sync := r.sync) && r.sync.frameCount == s.sync.frameCount
            && SameDelays(s.sync.queues, r.sync.queues)
            && (IsNull(s.ConfirmedFrame()) || r.sync.lastConfirmed == s.ConfirmedFrame())
  {
    SettleKeepsSane(s, before);
    CheckKeepsSane(s, before);
    var checked := s.sync.CheckSimulation().0;
    assert forall i | 0 <= i < |s.sync.queues| :: SameStream(s.sync.queues[i], checked.queues[i]);
  }

  /** A call that handles events and settles, `r` being the session in between. */
  ghost predicate SettlesFrom<S, I>(s: Session<S, I>, action: Action<I>, r: Session<S, I>)
    requires s.Shaped() && Fits(s, action)
  {
    && r.Shaped() && CanCheck(r.sync) && !r.synchronizing
    && var called := Call(s, action); called.Some? && called.value.0 == r.Settle().0
  }

  lemma {:induction false} CallLeaves<S, I(!new)>(
    game: Game<S, I>, w: World<S, I>, action: Action<I>, r: Session<S, I>, before: seq<Queue<I>>)
    requires Healthy(game, w) && Fits(w.session, action) && Legal(w.session, action)
    requires Growing(r, before) && SettlesFrom(w.session, action, r)
    ensures var w' := Take(game, w, action);
            && Healthy(game, w') && w.session.sync.lastConfirmed <= w'.session.sync.lastConfirmed
            && w'.session.local == r.local && w'.session.lastFrame == r.lastFrame && !w'.session.synchronizing
            && w'.session.sync.frameCount == r.sync.frameCount
            && SameDelays(r.sync.queues, w'.session.sync.queues)
            && (IsNull(r.ConfirmedFrame()) || w'.session.sync.lastConfirmed == r.ConfirmedFrame())
  {
    TakeKeepsHealthy(game, w, action);
    assert w.session.Shaped();
    hide Healthy, Growing, Legal;
    TakenSession(game, w, action);
    SettleLeaves(r, before);
  }

  lemma TakeKeepsPlayers<S, I(!new)>(game: Game<S, I>, w: World<S, I>, action: Action<I>)
    requires w.World? && w.session.Shaped() && Fits(w.session, action)
    ensures var end := Take(game, w, action); end.World? ==> end.session.local == w.session.local
  {
    match action {
      case Poll(arrivals) => FlushKeepsEngine(w.session, arrivals);
      case Advance(arrivals) =>
        if w.session.synchronizing {
          FlushKeepsEngine(w.session, arrivals);
        } else {
          FlushKeepsEngine(Incremented(w.session), arrivals);
        }
      case _ =>
    }
  }

  lemma {:induction false} RunKeepsPlayers<S, I(!new)>(game: Game<S, I>, w: World<S, I>, actions: seq<Action<I>>)
    requires Healthy(game, w) && LegalRun(game, w, actions)
    ensures var end := RunAll(game, w, actions); end.World? && end.session.local == w.session.local
    decreases |actions|
  {
    if actions != [] {
      TakeKeepsHealthy(game, w, actions[0]);
      TakeKeepsPlayers(game, w, actions[0]);
      RunKeepsPlayers(game, Take(game, w, actions[0]), actions[1..]);
    }
  }

  // ---------------------------------------------------------------------------------------------
  // What is accepted, and what is confirmed
  // ---------------------------------------------------------------------------------------------

  /**
   What becomes of a local input, in every state between calls: while the session runs, a known player's is accepted
   exactly in the first eight frames and within eight frames of the last confirmed one.
   */
  lemma InputIsAcceptedIff<S, I>(s: Session<S, I>, player: nat, input: I)
    requires Sane(s)
    ensures var (r, result) := s.AddLocalInput(player, input);
            && result == (if s.synchronizing then NotSynchronized
                          else if |s.local| <= player then InvalidPlayer
                          else if s.sync.frameCount < 8 || s.sync.frameCount - s.sync.lastConfirmed < 8 then
                            Accepted(s.sync.frameCount)
                          else ReachedPredictionBarrier)
            && (if result.Accepted? then
                  && r.lastFrame == s.lastFrame[player := s.sync.frameCount]
                  && r.sync == s.sync.(queues := r.sync.queues)
                  && r.sync.queues ==
                     s.sync.queues[player := s.sync.queues[player].AddInput(FrameInput(s.sync.frameCount, input)).0]
                else r == s)
  {
  }

  /** The confirmed frame of a running session after a call, from what everybody has sent. */
  ghost predicate ConfirmsAll<S, I>(before: Session<S, I>, after: Session<S, I>) {
    var (n, confirmed, remotes) := (after.sync.frameCount, after.sync.lastConfirmed, Indices(after.local, false));
    if remotes == {} then confirmed == n
    else if 2 < |remotes| then confirmed == before.sync.lastConfirmed
    else if exists i | 0 <= i < |after.lastFrame| :: IsNull(after.lastFrame[i]) then
      confirmed == before.sync.lastConfirmed
    else
      && (forall i | 0 <= i < |after.lastFrame| :: confirmed <= after.lastFrame[i])
      && exists i | 0 <= i < |after.lastFrame| :: confirmed == after.lastFrame[i]
  }

  /**
   Polling and advancing confirm everything that can be confirmed: the current frame when nobody is remote, with one or
   two remote players the last frame that everybody has sent, and with more nothing.
   */
  lemma {:induction false} CallsConfirmAll<S, I(!new)>(game: Game<S, I>, w: World<S, I>, action: Action<I>)
    requires Healthy(game, w) && (action.Poll? || action.Advance?)
    requires Fits(w.session, action) && Legal(w.session, action)
    ensures var w' := Take(game, w, action);
            w'.World? && (!w'.session.synchronizing ==> ConfirmsAll(w.session, w'.session))
  {
    TakeKeepsHealthy(game, w, action);
    if !Take(game, w, action).session.synchronizing {
      var s := if action.Advance? && !w.session.synchronizing then Incremented(w.session) else w.session;
      if action.Advance? && !w.session.synchronizing {
        IncrementStaysSane(w.session);
      }
      var r := s.FlushEvents(action.arrivals).0;
      SaneStartsGrowing(s);
      FittingIsWellFormed(s, action.arrivals);
      FlushKeepsGrowing(s, s.sync.queues, action.arrivals);
      FlushKeepsEngine(s, action.arrivals);
      FlaggedFrameIsRecent(r, s.sync.queues);
      TakenSession(game, w, action);
      hide Growing, Healthy, Legal, ArrivalsFit, Session.FlushEvents;
      assert !r.synchronizing && SettlesFrom(w.session, action, r);
      CallLeaves(game, w, action, r, s.sync.queues);
      ConfirmedIs(r, w.session, Take(game, w, action).session);
    }
  }

  lemma ConfirmedIs<S, I>(r: Session<S, I>, before: Session<S, I>, after: Session<S, I>)
    requires Sane(after) && after.local == r.local && after.lastFrame == r.lastFrame && |r.lastFrame| == r.Players()
    requires after.sync.frameCount == r.sync.frameCount && before.sync.lastConfirmed <= after.sync.lastConfirmed
    requires IsNull(r.ConfirmedFrame()) || after.sync.lastConfirmed == r.ConfirmedFrame()
    ensures ConfirmsAll(before, after)
  {
    PlayersCounted(after.local);
    assert after.local != [];
    hide Indices;
    if i :| 0 <= i < |after.lastFrame| && IsNull(after.lastFrame[i]) {
      assert Tracked(after, i);
    }
  }

  // ---------------------------------------------------------------------------------------------
  // Calls that roll nothing back
  // ---------------------------------------------------------------------------------------------

  /** The same session, its cells for the same frames. */
  ghost predicate SameButCells<S, I>(a: Session<S, I>, b: Session<S, I>) {
    && a == b.(sync := b.sync.(saved := b.sync.saved.(cells := a.sync.saved.cells)))
    && |a.sync.saved.cells| == |b.sync.saved.cells|
    && forall j | 0 <= j < |b.sync.saved.cells| :: a.sync.saved.cells[j].frame == b.sync.saved.cells[j].frame
  }

  /** Setting a delay runs nothing. */
  lemma DelaySet<S, I(!new)>(game: Game<S, I>, w: World<S, I>, player: nat, delay: nat)
    requires w.World? && w.session.Shaped()
    ensures Take(game, w, Action.SetDelay(player, delay)) == w.(session := w.session.SetFrameDelay(player, delay))
  {
  }

  lemma {:induction false} QuietPoll<S, I(!new)>(game: Game<S, I>, w: World<S, I>, arrivals: seq<Arrival<I>>)
    requires w.World? && w.session.Shaped() && w.session.WellFormed(arrivals)
    requires var s := w.session.FlushEvents(arrivals).0;
             s.Shaped() && !s.synchronizing && FirstIncorrect(s.sync.queues).None?
    ensures var (s, w') := (w.session.FlushEvents(arrivals).0, Take(game, w, Poll(arrivals)));
            w'.World? && SameButCells(w'.session, s.Settle().0)
  {
    var (s, events) := w.session.FlushEvents(arrivals);
    var settled := s.Settle().0;
    FlushIssuesNotices(w.session, arrivals);
    assert Call(w.session, Poll(arrivals)) == Some((settled, events)) by {
      assert [] + events + [] == events;
    }
    LoadlessRuns(game, events, w.state, settled.sync.saved.cells);
    ExecuteKeepsFrames(game, events, w.state, settled.sync.saved.cells);
  }

  lemma {:induction false} QuietAdvance<S, I(!new)>(game: Game<S, I>, w: World<S, I>)
    requires w.World? && w.session.Shaped() && !w.session.synchronizing && w.session.Players() <= MAX_PLAYERS
    requires FirstIncorrect(Incremented(w.session).sync.queues).None?
    ensures var w' := Take(game, w, Advance([]));
            w'.World? && SameButCells(w'.session, Incremented(w.session).Settle().0)
  {
    var s := Incremented(w.session);
    var settled := s.Settle().0;
    var issued := w.session.sync.IncrementFrame().1;
    assert s.FlushEvents([]) == (s, []);
    assert Call(w.session, Advance([])) == Some((settled, issued)) by {
      assert issued + [] + [] == issued;
    }
    assert settled.sync.saved == s.sync.saved;
    IncrementIsLoadless(w.session.sync);
    LoadlessRuns(game, issued, w.state, settled.sync.saved.cells);
    ExecuteKeepsFrames(game, issued, w.state, settled.sync.saved.cells);
  }

  lemma IncrementIsLoadless<S, I>(s: Sync<S, I>)
    requires s.saved.Valid()
    ensures var (r, issued) := s.IncrementFrame();
            forall c | c in issued :: !c.Load? && (c.Save? ==> c.slot < CELLS && !IsNull(r.saved.cells[c.slot].frame))
  {
  }

  // ---------------------------------------------------------------------------------------------
  // Loads
  // ---------------------------------------------------------------------------------------------

  /** Playing frames issues saves to the cells it claims, and advances; nothing else. */
  lemma {:induction false} SavesGoToClaimedCells<S, I>(s: Sync<S, I>, count: nat)
    requires s.saved.Valid() && Claims(s.frameCount, count) <= CELLS
    ensures forall c | c in s.IncrementBy(count).1 && !c.AdvanceFrame? ::
              c.Save? && c.slot in Claimed(s.saved.head, Claims(s.frameCount, count))
    decreases count
  {
    if 0 < count {
      var (s1, first) := s.IncrementFrame();
      OneFrameSaves(s);
      PushAllHead(s.saved, FirstClaim(s.frameCount), Claims(s.frameCount, 1));
      ClaimedSplit(s.saved.head, Claims(s.frameCount, 1), count - 1);
      IncrementByUnfolds(s, count);
      hide Claimed, Saved.PushAll, Sync.IncrementFrame, Sync.IncrementBy;
      SavesGoToClaimedCells(s1, count - 1);
    }
  }

  lemma OneFrameSaves<S, I>(s: Sync<S, I>)
    requires s.saved.Valid()
    ensures var (s1, first) := s.IncrementFrame();
            && s1.frameCount == s.frameCount + 1
            && s1.saved == s.saved.PushAll(FirstClaim(s.frameCount), Claims(s.frameCount, 1))
            && forall c | c in first && !c.AdvanceFrame? ::
                 c.Save? && c.slot in Claimed(s.saved.head, Claims(s.frameCount, 1))
  {
    FirstClaimed(s.saved, s.frameCount);
  }

  /**
   Every load finds its data. The frame a check goes back to is above the confirmed frame, at most eight frames back
   and in the ring; the load comes first in the batch, from a cell for exactly that frame, and no save issued after it
   claims that cell.
   */
  lemma {:induction false} EveryLoadFindsItsCell<S, I>(s: Session<S, I>, before: seq<Queue<I>>, e: nat)
    requires Growing(s, before) && FirstIncorrect(s.sync.queues) == Some(e)
    ensures s.sync.lastConfirmed < e < s.sync.frameCount <= e + MAX_PREDICTION_FRAMES && CanCheck(s.sync)
    ensures var issued := s.sync.CheckSimulation().1;
            && 0 < |issued| && issued[0].Load?
            && issued[0].slot < CELLS && s.sync.saved.cells[issued[0].slot].frame == e
            && forall k | 0 < k < |issued| :: !issued[k].Load? && (issued[k].Save? ==> issued[k].slot != issued[0].slot)
  {
    FlaggedFrameIsRecent(s, before);
    RollbackLoadsOnce(s.sync, if Layout(s.sync.saved, s.sync.frameCount, 0) then 0 else 1, e);
  }

  lemma {:induction false} RollbackLoadsOnce<S, I>(s: Sync<S, I>, shift: nat, e: nat)
    requires Layout(s.saved, s.frameCount, shift)
    requires e < s.frameCount <= e + MAX_PREDICTION_FRAMES && s.HasFrame(e)
    ensures var issued := s.AdjustSimulation(e).1;
            var slot := LoadSlot(s.frameCount, s.saved.head, e);
            && s.saved.cells[slot].frame == e
            && 0 < |issued| && issued[0] == Load(slot)
            && forall k | 0 < k < |issued| :: !issued[k].Load? && (issued[k].Save? ==> issued[k].slot != slot)
  {
    var n := s.frameCount;
    WindowFrameIsFound(s.saved, n, shift, e);
    LoadFrameShape(s, e);
    hide Layout, FindIndex, Sync.IncrementBy, Sync.IncrementFrame, Ready;
    var s1 := s.LoadFrame(e).0.ResetPrediction();
    var rest := s1.IncrementBy(n - e).1;
    var issued := s.AdjustSimulation(e).1;
    assert issued == [Load(LoadSlot(n, s.saved.head, e))] + rest by { AdjustUnfolds(s, e); }
    SavesGoToClaimedCells(s1, n - e);
    forall k | 0 < k < |issued|
      ensures !issued[k].Load? && (issued[k].Save? ==> issued[k].slot != LoadSlot(n, s.saved.head, e))
    {
      assert issued[k] == rest[k - 1];
      assert rest[k - 1] in rest;
    }
  }
}
