/**
 How far a session can play while its peers say nothing. The prediction barrier stands eight frames beyond the last
 confirmed one, and without a word from the others nothing is ever confirmed. So a session plays eight frames on what it
 predicts, all of which a run of local inputs and advances alone shows to be possible, and not one frame more.
 */
module SilentRuns {
  import opened Frames
  import opened QueueModel
  import opened SyncModel
  import opened Rollback
  import opened SessionModel
  import opened SessionInvariant
  import opened SessionProofs
  import opened Openings

  ghost predicate SaysNothing<I>(action: Action<I>) {
    action.Poll? || action.Advance? ==>
      forall k | 0 <= k < |action.arrivals| :: action.arrivals[k].event.Inputs? ==> action.arrivals[k].event.batch == []
  }

  ghost predicate Silent<I>(actions: seq<Action<I>>) {
    forall action | action in actions :: SaysNothing(action)
  }

  /** Nobody remote has sent anything. */
  ghost predicate Unheard<S, I>(s: Session<S, I>) {
    |s.lastFrame| == |s.local| && forall i | 0 <= i < |s.local| && !s.local[i] :: IsNull(s.lastFrame[i])
  }

  /** Some legal run without a single remote input plays n frames. */
  ghost predicate PlaysInSilence<S, I(!new)>(game: Game<S, I>, zero: I, delay: nat, local: seq<bool>, n: nat)
    requires Buildable(local)
  {
    exists actions | LegalRun(game, Start(game, zero, delay, local), actions) && Silent(actions) ::
      EndsAt(game, Start(game, zero, delay, local), actions, n)
  }

  ghost predicate EndsAt<S, I(!new)>(game: Game<S, I>, w: World<S, I>, actions: seq<Action<I>>, n: nat)
    requires LegalRun(game, w, actions)
  {
    var end := RunAll(game, w, actions);
    end.World? && end.session.sync.frameCount == n && IsNull(end.session.sync.lastConfirmed)
  }

  lemma {:induction false} BatchesSayNothing<S, I>(s: Session<S, I>, arrivals: seq<Arrival<I>>)
    requires |s.sync.queues| == |s.lastFrame| == s.Players() && s.WellFormed(arrivals) && SaysNothing(Poll(arrivals))
    ensures s.FlushEvents(arrivals).0.lastFrame == s.lastFrame && s.FlushEvents(arrivals).0.local == s.local
    decreases |arrivals|
  {
    if arrivals != [] {
      assert SaysNothing(Poll(arrivals[1..]));
      BatchesSayNothing(s.HandleEvent(arrivals[0].player, arrivals[0].event).0, arrivals[1..]);
    }
  }

  lemma {:induction false} SilenceIsKept<S, I(!new)>(game: Game<S, I>, w: World<S, I>, actions: seq<Action<I>>)
    requires w.World? && Unheard(w.session) && Healthy(game, w) && LegalRun(game, w, actions) && Silent(actions)
    ensures var end := RunAll(game, w, actions); end.World? && Unheard(end.session)
    ensures var end := RunAll(game, w, actions);
            Healthy(game, end) && (false in end.session.local <==> false in w.session.local)
    decreases |actions|
  {
    if actions != [] {
      assert actions[0] in actions && forall a | a in actions[1..] :: a in actions;
      TakeKeepsHealthy(game, w, actions[0]);
      TakeKeepsSilence(game, w, actions[0]);
      hide Take, Legal, Fits, Unheard;
      SilenceIsKept(game, Take(game, w, actions[0]), actions[1..]);
    }
  }

  lemma {:induction false} TakeKeepsSilence<S, I(!new)>(game: Game<S, I>, w: World<S, I>, action: Action<I>)
    requires Healthy(game, w) && Unheard(w.session) && Fits(w.session, action) && Legal(w.session, action)
    requires SaysNothing(action) && Take(game, w, action).World?
    ensures Unheard(Take(game, w, action).session) && Take(game, w, action).session.local == w.session.local
  {
    TakenSession(game, w, action);
    match action {
      case Poll(arrivals) => BatchesSayNothing(w.session, arrivals);
      case Advance(arrivals) =>
        BatchesSayNothing(if w.session.synchronizing then w.session else Incremented(w.session), arrivals);
      case _ =>
    }
  }

  // ---------------------------------------------------------------------------------------------
  // A run without a word from the others
  // ---------------------------------------------------------------------------------------------

  /** Frame n is to be played; the local ones among the first k players have given their inputs for it. */
  ghost predicate Solo<S, I(!new)>(game: Game<S, I>, w: World<S, I>, n: nat, k: nat) {
    && Healthy(game, w)
    && var s := w.session;
       && !s.synchronizing && false in s.local && s.sync.frameCount == n && Unheard(s) && k <= s.Players()
       && forall i | 0 <= i < s.Players() ::
            s.sync.queues[i].delay == 0 && (s.local[i] ==> s.lastFrame[i] == if i < k then n else n - 1)
  }

  lemma SoloIsUnconfirmed<S, I(!new)>(game: Game<S, I>, w: World<S, I>, n: nat, k: nat)
    requires Solo(game, w, n, k)
    ensures w.World? && w.session.Shaped() && IsNull(w.session.sync.lastConfirmed) && w.session.sync.frameCount == n
  {
    var i :| 0 <= i < w.session.Players() && !w.session.local[i];
    assert Tracked(w.session, i);
  }

  lemma {:induction false} SoloGives<S, I(!new)>(game: Game<S, I>, w: World<S, I>, n: nat, k: nat, zero: I)
    requires Solo(game, w, n, k) && n < 8 && k < w.session.Players() && w.session.local[k]
    ensures var action := LocalInput(k, zero);
            && Fits(w.session, action) && Legal(w.session, action) && SaysNothing(action)
            && Solo(game, Take(game, w, action), n, k + 1)
  {
    var s := w.session;
    assert Tracked(s, k);
    InputIsAcceptedIff(s, k, zero);
    AddInputStream(s.sync.queues[k], FrameInput(n, zero));
    TakeKeepsHealthy(game, w, LocalInput(k, zero));
  }

  lemma {:induction false} SoloPlays<S, I(!new)>(game: Game<S, I>, w: World<S, I>, n: nat)
    requires w.World? && Solo(game, w, n, w.session.Players()) && n < 8
    ensures Fits(w.session, Advance([])) && Legal(w.session, Advance([]))
    ensures Solo(game, Take(game, w, Advance([])), n + 1, 0)
  {
    var s := w.session;
    SoloFits(game, w, n);
    var r := Incremented(s);
    hide Sane, Faithful, Growing, SettlesFrom, Take, Legal, Sync.IncrementFrame;
    CallLeaves(game, w, Advance([]), r, r.sync.queues);
  }

  lemma {:induction false} SoloFits<S, I(!new)>(game: Game<S, I>, w: World<S, I>, n: nat)
    requires w.World? && Solo(game, w, n, w.session.Players())
    ensures var (s, action) := (w.session, Advance([]));
            && s.Shaped() && Fits(s, action) && Legal(s, action)
            && var r := Incremented(s);
               && r == s.(sync := r.sync) && r.sync.frameCount == n + 1
               && Growing(r, r.sync.queues) && SettlesFrom(s, action, r)
               && |r.sync.queues| == s.Players()
               && forall i | 0 <= i < s.Players() :: r.sync.queues[i].delay == 0
  {
    var s := w.session;
    var r := Incremented(s);
    IncrementStaysSane(s);
    SaneStartsGrowing(r);
    FetchSettles(s.sync.queues, n);
    assert r.FlushEvents([]) == (r, []);
    hide Growing, Sane, Faithful;
    FlaggedFrameIsRecent(r, r.sync.queues);
    forall i | 0 <= i < s.Players() ensures r.sync.queues[i].delay == 0 {
      assert SameStream(s.sync.queues[i], r.sync.queues[i]);
    }
  }

  lemma {:induction false} SoloRound<S, I(!new)>(
    game: Game<S, I>, w: World<S, I>, n: nat, k: nat, zero: I, last: nat)
    returns (actions: seq<Action<I>>)
    requires Solo(game, w, n, k) && n <= last <= 8 && (n == last ==> k == 0)
    ensures LegalRun(game, w, actions) && Silent(actions) && Solo(game, RunAll(game, w, actions), last, 0)
    decreases last - n, w.session.Players() - k
  {
    SoloIsUnconfirmed(game, w, n, k);
    if n == last {
      actions := [];
    } else if k == w.session.Players() {
      SoloPlays(game, w, n);
      assert SaysNothing<I>(Advance([]));
      hide Solo, Take;
      var rest := SoloRound(game, Take(game, w, Advance([])), n + 1, 0, zero, last);
      RunOfMore(game, w, Advance([]), rest);
      actions := [Advance([])] + rest;
    } else if w.session.local[k] {
      SoloGives(game, w, n, k, zero);
      TakeKeepsPlayers(game, w, LocalInput(k, zero));
      hide Solo, Take;
      SoloIsUnconfirmed(game, Take(game, w, LocalInput(k, zero)), n, k + 1);
      var rest := SoloRound(game, Take(game, w, LocalInput(k, zero)), n, k + 1, zero, last);
      RunOfMore(game, w, LocalInput(k, zero), rest);
      actions := [LocalInput(k, zero)] + rest;
    } else {
      actions := SoloRound(game, w, n, k + 1, zero, last);
    }
  }

  lemma StartedIsSolo<S, I(!new)>(game: Game<S, I>, zero: I, local: seq<bool>)
    requires Buildable(local) && true in local && false in local && |local| <= MAX_PLAYERS
    ensures Solo(game, Started(game, zero, 0, local), 0, 0)
  {
    StartIsHealthy(game, zero, 0, local);
    var (w, w') := (Start(game, zero, 0, local), Started(game, zero, 0, local));
    assert forall i | 0 <= i < |local| :: Tracked(w.session, i) ==> Tracked(w'.session, i);
  }

  lemma {:induction false} DropsSayNothing<I>(k: nat, players: nat)
    requires k <= players
    ensures Silent(Drops<I>(k, players))
    decreases players - k
  {
    if k < players {
      DropsSayNothing<I>(k + 1, players);
    }
  }

  lemma {:induction false} SilentRun<S, I(!new)>(game: Game<S, I>, zero: I, delay: nat, local: seq<bool>, n: nat)
    returns (actions: seq<Action<I>>)
    requires Buildable(local) && true in local && false in local && |local| <= MAX_PLAYERS && n <= 8
    ensures var w := Start(game, zero, delay, local);
            LegalRun(game, w, actions) && Silent(actions) && EndsAt(game, w, actions, n)
  {
    var r: nat :| r < |local| && !local[r];
    var opening: seq<Action<I>> := Drops(0, |local|) + Opening(local, r);
    RunStarts(game, zero, delay, local, r);
    DropsSayNothing<I>(0, |local|);
    assert Silent(opening);
    StartedIsSolo(game, zero, local);
    var started := Started(game, zero, 0, local);
    hide Solo, Start, Started, Take;
    var rounds := SoloRound(game, started, 0, 0, zero, n);
    RunAppend(game, Start(game, zero, delay, local), opening, rounds);
    actions := opening + rounds;
    SoloIsUnconfirmed(game, RunAll(game, started, rounds), n, 0);
  }
}
