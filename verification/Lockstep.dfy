/**
 A run in lockstep that passes frame 8, for a session with a local player and at most two remote ones. Delays are
 dropped and the handshakes completed; from then on the input of every player, given by the local ones and arriving from
 the others, is in before its frame is played, and every frame is confirmed as soon as it has been played.
 */
module Lockstep {
  import opened Frames
  import opened QueueModel
  import opened SyncModel
  import opened Rollback
  import opened SessionModel
  import opened SessionInvariant
  import opened SessionProofs
  import opened Openings

  ghost predicate EndsBeyondEight<S, I(!new)>(game: Game<S, I>, w: World<S, I>, actions: seq<Action<I>>)
    requires LegalRun(game, w, actions)
  {
    var end := RunAll(game, w, actions); end.World? && 8 < end.session.sync.frameCount
  }

  /** Frame n is to be played; the first k players have given their inputs for it, the others for the frame before. */
  ghost predicate Lockstep<S, I(!new)>(game: Game<S, I>, w: World<S, I>, n: nat, k: nat) {
    && Healthy(game, w)
    && var s := w.session;
       && !s.synchronizing && Remotes(s.local) <= 2 && s.sync.frameCount == n && n <= s.sync.lastConfirmed + 1
       && k <= s.Players()
       && forall i | 0 <= i < s.Players() ::
            s.sync.queues[i].delay == 0 && s.lastFrame[i] == if i < k then n else n - 1
  }

  /** What player k does for frame n: give the input, or have it arrive. */
  function Giving<I>(local: seq<bool>, n: nat, k: nat, zero: I): Action<I>
    requires k < |local|
  {
    if local[k] then LocalInput(k, zero) else Poll([Arrival(k, Inputs([FrameInput(n, zero)]))])
  }

  lemma {:induction false} LocalGives<S, I(!new)>(game: Game<S, I>, w: World<S, I>, n: nat, k: nat, zero: I)
    requires Lockstep(game, w, n, k) && n <= 8 && k < w.session.Players() && w.session.local[k]
    ensures var action := LocalInput(k, zero);
            && Fits(w.session, action) && Legal(w.session, action)
            && Lockstep(game, Take(game, w, action), n, k + 1)
  {
    var s := w.session;
    assert Tracked(s, k);
    assert s.AddLocalInput(k, zero) == (s.Receive(k, FrameInput(n, zero)), Accepted(n));
    AddInputStream(s.sync.queues[k], FrameInput(n, zero));
    TakeKeepsHealthy(game, w, LocalInput(k, zero));
  }

  lemma {:induction false} RemoteGives<S, I(!new)>(game: Game<S, I>, w: World<S, I>, n: nat, k: nat, zero: I)
    requires Lockstep(game, w, n, k) && n <= 8 && k < w.session.Players() && !w.session.local[k]
    ensures var action := Poll([Arrival(k, Inputs([FrameInput(n, zero)]))]);
            && Fits(w.session, action) && Legal(w.session, action)
            && Lockstep(game, Take(game, w, action), n, k + 1)
  {
    LockstepShape(game, w, n, k);
    var s := w.session;
    var action := Poll([Arrival(k, Inputs([FrameInput(n, zero)]))]);
    var r := s.Receive(k, FrameInput(n, zero));
    hide *;
    RemoteFits(game, w, n, k, zero);
    CallLeaves(game, w, action, r, s.sync.queues);
    OneMore(game, w, Take(game, w, action), r, n, k);
  }

  lemma OneMore<S, I(!new)>(
    game: Game<S, I>, w: World<S, I>, w': World<S, I>, r: Session<S, I>, n: nat, k: nat)
    requires Lockstep(game, w, n, k) && Healthy(game, w') && k < w.session.Players()
    requires r.local == w.session.local && r.lastFrame == w.session.lastFrame[k := n] && r.sync.frameCount == n
    requires |r.sync.queues| == r.Players() && forall i | 0 <= i < r.Players() :: r.sync.queues[i].delay == 0
    requires w'.session.local == r.local && w'.session.lastFrame == r.lastFrame && !w'.session.synchronizing
    requires w'.session.sync.frameCount == r.sync.frameCount && SameDelays(r.sync.queues, w'.session.sync.queues)
    requires w.session.sync.lastConfirmed <= w'.session.sync.lastConfirmed
    ensures Lockstep(game, w', n, k + 1)
  {
    hide Sane, Faithful;
    SaneIsShaped(w.session);
    SaneIsShaped(w'.session);
  }

  lemma {:induction false} RemoteFits<S, I(!new)>(game: Game<S, I>, w: World<S, I>, n: nat, k: nat, zero: I)
    requires Lockstep(game, w, n, k) && n <= 8 && k < w.session.Players() && !w.session.local[k]
    ensures var (s, input) := (w.session, FrameInput(n, zero));
            var (r, action) := (s.Receive(k, input), Poll([Arrival(k, Inputs([input]))]));
            && Healthy(game, w) && s.Shaped()
            && Fits(s, action) && Legal(s, action) && Growing(r, s.sync.queues) && SettlesFrom(s, action, r)
            && r.local == s.local && r.lastFrame == s.lastFrame[k := n] && r.sync.frameCount == n
            && |r.sync.queues| == r.Players() && forall i | 0 <= i < r.Players() :: r.sync.queues[i].delay == 0
  {
    var (s, input) := (w.session, FrameInput(n, zero));
    SaneStartsGrowing(s);
    OneArrival(s, k, input);
    ReceiveKeepsGrowing(s, s.sync.queues, k, input);
    hide Growing, Sane, Faithful;
    FlaggedFrameIsRecent(s.Receive(k, input), s.sync.queues);
  }

  /** With all inputs in, the frame is played and confirmed. */
  lemma {:induction false} AllPlay<S, I(!new)>(game: Game<S, I>, w: World<S, I>, n: nat)
    requires w.World? && Lockstep(game, w, n, w.session.Players())
    ensures Fits(w.session, Advance([])) && Legal(w.session, Advance([]))
    ensures Lockstep(game, Take(game, w, Advance([])), n + 1, 0)
  {
    var s := w.session;
    AllFits(game, w, n);
    var r := Incremented(s);
    hide Sane, Faithful, Growing, SettlesFrom, Take, Legal, Sync.IncrementFrame;
    CallLeaves(game, w, Advance([]), r, r.sync.queues);
  }

  lemma {:induction false} AllFits<S, I(!new)>(game: Game<S, I>, w: World<S, I>, n: nat)
    requires w.World? && Lockstep(game, w, n, w.session.Players())
    ensures var (s, action) := (w.session, Advance([]));
            && s.Shaped() && Fits(s, action) && Legal(s, action)
            && var r := Incremented(s);
               && r == s.(sync := r.sync) && r.sync.frameCount == n + 1 && r.sync.lastConfirmed == s.sync.lastConfirmed
               && Growing(r, r.sync.queues) && SettlesFrom(s, action, r)
               && |r.sync.queues| == s.Players()
               && forall i | 0 <= i < s.Players() :: r.sync.queues[i].delay == 0
  {
    var s := w.session;
    var r := Incremented(s);
    IncrementStaysSane(s);
    SaneStartsGrowing(r);
    FetchSettles(s.sync.queues, n);
    assert r.FlushEvents([]) == (r, []);
    hide Growing, Sane, Faithful;
    FlaggedFrameIsRecent(r, r.sync.queues);
    forall i | 0 <= i < s.Players() ensures r.sync.queues[i].delay == 0 {
      assert SameStream(s.sync.queues[i], r.sync.queues[i]);
    }
  }

  lemma {:induction false} PlayRound<S, I(!new)>(game: Game<S, I>, w: World<S, I>, n: nat, k: nat, zero: I)
    returns (actions: seq<Action<I>>)
    requires Lockstep(game, w, n, k) && n <= 8
    ensures LegalRun(game, w, actions) && Lockstep(game, RunAll(game, w, actions), n + 1, 0)
    decreases w.session.Players() - k
  {
    LockstepShape(game, w, n, k);
    if k == w.session.Players() {
      AllPlay(game, w, n);
      hide Lockstep, Take;
      RunOfOne(game, w, Advance([]));
      actions := [Advance([])];
    } else {
      var action := Giving(w.session.local, n, k, zero);
      if w.session.local[k] {
        LocalGives(game, w, n, k, zero);
      } else {
        RemoteGives(game, w, n, k, zero);
      }
      TakeKeepsPlayers(game, w, action);
      hide Lockstep, Take;
      LockstepShape(game, Take(game, w, action), n, k + 1);
      var rest := PlayRound(game, Take(game, w, action), n, k + 1, zero);
      RunOfMore(game, w, action, rest);
      actions := [action] + rest;
    }
  }

  lemma LockstepShape<S, I(!new)>(game: Game<S, I>, w: World<S, I>, n: nat, k: nat)
    requires Lockstep(game, w, n, k)
    ensures w.World? && w.session.Shaped() && w.session.sync.frameCount == n && k <= w.session.Players()
  {
  }

  lemma {:induction false} PlayOn<S, I(!new)>(game: Game<S, I>, w: World<S, I>, n: nat, zero: I)
    returns (actions: seq<Action<I>>)
    requires Lockstep(game, w, n, 0) && n <= 9
    ensures LegalRun(game, w, actions) && Lockstep(game, RunAll(game, w, actions), 9, 0)
    decreases 9 - n
  {
    if n == 9 {
      actions := [];
    } else {
      var round := PlayRound(game, w, n, 0, zero);
      hide Lockstep;
      var rest := PlayOn(game, RunAll(game, w, round), n + 1, zero);
      RunAppend(game, w, round, rest);
      actions := round + rest;
    }
  }

  lemma {:induction false} StartedIsLockstep<S, I(!new)>(game: Game<S, I>, zero: I, local: seq<bool>)
    requires Buildable(local) && true in local && Remotes(local) <= 2 && |local| <= MAX_PLAYERS
    ensures Lockstep(game, Started(game, zero, 0, local), 0, 0)
  {
    StartIsHealthy(game, zero, 0, local);
    var (w, w') := (Start(game, zero, 0, local), Started(game, zero, 0, local));
    assert forall i | 0 <= i < |local| :: Tracked(w.session, i) ==> Tracked(w'.session, i);
  }

  lemma {:induction false} RunBeyondEight<S, I(!new)>(game: Game<S, I>, zero: I, delay: nat, local: seq<bool>)
    returns (actions: seq<Action<I>>)
    requires Buildable(local) && true in local && Remotes(local) <= 2 && |local| <= MAX_PLAYERS
    ensures var w := Start(game, zero, delay, local);
            LegalRun(game, w, actions) && EndsBeyondEight(game, w, actions)
  {
    var r := if r: nat :| r < |local| && !local[r] then r else 0;
    var opening: seq<Action<I>> := Drops(0, |local|) + Opening(local, r);
    RunStarts(game, zero, delay, local, r);
    StartedIsLockstep(game, zero, local);
    var started := Started(game, zero, 0, local);
    hide Lockstep, Start, Started, Take;
    var rounds := PlayOn(game, started, 0, zero);
    RunAppend(game, Start(game, zero, delay, local), opening, rounds);
    actions := opening + rounds;
    LockstepShape(game, RunAll(game, started, rounds), 9, 0);
  }
}
