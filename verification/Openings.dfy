/** How a run of a new session can begin: delays dropped, and the handshakes completed. */
module Openings {
  import opened Frames
  import opened QueueModel
  import opened SyncModel
  import opened SessionModel
  import opened SessionInvariant
  import opened SessionProofs

  /** A new session whose first k players have no delay. */
  function Dropped<S, I>(game: Game<S, I>, zero: I, delay: nat, local: seq<bool>, k: nat): World<S, I>
    requires Buildable(local) && k <= |local|
  {
    var w := Start(game, zero, delay, local);
    var queues := Repeat(k, Fresh(zero, 0)) + Repeat(|local| - k, Fresh(zero, delay));
    w.(session := w.session.(sync := w.session.sync.(queues := queues)))
  }

  function Drops<I>(k: nat, players: nat): seq<Action<I>>
    requires k <= players
    decreases players - k
  {
    if k == players then [] else [Action.SetDelay(k, 0)] + Drops(k + 1, players)
  }

  /** Setting every delay to 0 before anything else makes a session what it is when built without delay. */
  lemma {:induction false} DelaysDrop<S, I(!new)>(
    game: Game<S, I>, zero: I, delay: nat, local: seq<bool>, k: nat)
    requires Buildable(local) && k <= |local|
    ensures var (w, actions) := (Dropped(game, zero, delay, local, k), Drops(k, |local|));
            LegalRun(game, w, actions) && RunAll(game, w, actions) == Start(game, zero, 0, local)
    decreases |local| - k
  {
    var w := Dropped(game, zero, delay, local, k);
    if k == |local| {
      assert w.session.sync.queues == Repeat(|local|, Fresh(zero, 0));
    } else {
      var next := Dropped(game, zero, delay, local, k + 1);
      DelaySet(game, w, k, 0);
      assert w.session.SetFrameDelay(k, 0).sync.queues == next.session.sync.queues;
      DelaysDrop(game, zero, delay, local, k + 1);
      RunOfMore(game, w, Action.SetDelay(k, 0), Drops(k + 1, |local|));
    }
  }

  lemma {:induction false} AllDelaysDrop<S, I(!new)>(game: Game<S, I>, zero: I, delay: nat, local: seq<bool>)
    requires Buildable(local)
    ensures var (w, actions) := (Start(game, zero, delay, local), Drops(0, |local|));
            LegalRun(game, w, actions) && RunAll(game, w, actions) == Start(game, zero, 0, local)
  {
    var w := Start(game, zero, delay, local);
    assert Repeat(0, Fresh(zero, 0)) + Repeat(|local|, Fresh(zero, delay)) == w.session.sync.queues;
    DelaysDrop(game, zero, delay, local, 0);
  }

  /** The last handshake completes. */
  function Shaken<I>(r: nat): Action<I> {
    Poll([Arrival(r, PeerSynchronized(true))])
  }

  /** A new session that is running. */
  function Started<S, I>(game: Game<S, I>, zero: I, delay: nat, local: seq<bool>): World<S, I>
    requires Buildable(local)
  {
    var w := Start(game, zero, delay, local);
    w.(session := w.session.(synchronizing := false))
  }

  /** The last handshake starts a session that has heard nothing of the player yet, and changes nothing else. */
  lemma {:induction false} HandshakeStarts<S, I(!new)>(game: Game<S, I>, w: World<S, I>, r: nat)
    requires w.World? && w.session.Shaped() && w.session.synchronizing && r < w.session.Players()
    requires !w.session.local[r] && IsNull(w.session.lastFrame[r]) && FirstIncorrect(w.session.sync.queues).None?
    ensures Fits(w.session, Shaken(r)) && Legal(w.session, Shaken(r))
    ensures Take(game, w, Shaken(r)) == w.(session := w.session.(synchronizing := false))
  {
    var arrivals: seq<Arrival<I>> := [Arrival(r, PeerSynchronized(true))];
    var s := w.session.(synchronizing := false);
    assert false in s.local by { assert s.local[r] == false; }
    var events: seq<Command<I>> := [Notify(Synchronized(r)), Notify(Running)];
    assert [Notify(Synchronized(r))] + [Notify(Running)] == events;
    assert arrivals[1..] == [] && s.FlushEvents([]) == (s, []);
    assert w.session.HandleEvent(r, arrivals[0].event) == (s, events);
    assert w.session.FlushEvents(arrivals) == (s, events + []);
    assert Least(s.lastFrame) <= s.lastFrame[r] == NULL_FRAME;
    assert s.Settle() == (s, []);
    assert Call(w.session, Shaken(r)) == Some((s, events)) by {
      assert [] + (events + []) + [] == events;
    }
    var cells := s.sync.saved.cells;
    assert events[1..][1..] == [];
    assert ExecuteAll(game, events[1..], w.state, cells) == ExecuteAll(game, [], w.state, cells);
    assert ExecuteAll(game, events, w.state, cells) == Ran(w.state, cells);
  }

  /** With all handshakes done a new session runs, and nothing else has changed. */
  lemma {:induction false} HandshakesStart<S, I(!new)>(
    game: Game<S, I>, zero: I, delay: nat, local: seq<bool>, r: nat)
    requires Buildable(local) && r < |local| && !local[r]
    ensures var (w, poll) := (Start(game, zero, delay, local), Shaken(r));
            && w.session.Shaped() && Fits(w.session, poll) && Legal(w.session, poll)
            && Take(game, w, poll) == Started(game, zero, delay, local)
  {
    assert false in local by { assert local[r] == false; }
    HandshakeStarts(game, Start(game, zero, delay, local), r);
  }

  /** Where to begin: nothing to shake hands on when everybody is local. */
  function Opening<I>(local: seq<bool>, r: nat): seq<Action<I>> {
    if false in local then [Shaken(r)] else []
  }

  lemma {:induction false} OpeningStarts<S, I(!new)>(
    game: Game<S, I>, zero: I, delay: nat, local: seq<bool>, r: nat)
    requires Buildable(local) && (false in local ==> r < |local| && !local[r])
    ensures var (w, actions) := (Start(game, zero, delay, local), Opening(local, r));
            LegalRun(game, w, actions) && RunAll(game, w, actions) == Started(game, zero, delay, local)
  {
    if false in local {
      HandshakesStart(game, zero, delay, local, r);
      RunOfOne(game, Start(game, zero, delay, local), Shaken(r));
    }
  }

  /** Both, for a session with any delay. */
  lemma {:induction false} RunStarts<S, I(!new)>(
    game: Game<S, I>, zero: I, delay: nat, local: seq<bool>, r: nat)
    requires Buildable(local) && (false in local ==> r < |local| && !local[r])
    ensures var (w, actions) := (Start(game, zero, delay, local), Drops(0, |local|) + Opening(local, r));
            LegalRun(game, w, actions) && RunAll(game, w, actions) == Started(game, zero, 0, local)
  {
    AllDelaysDrop(game, zero, delay, local);
    OpeningStarts(game, zero, 0, local, r);
    RunAppend(game, Start(game, zero, delay, local), Drops(0, |local|), Opening(local, r));
  }
}
