/** The peer-to-peer session as an object: local inputs, events of the peers, polling and advancing. */
module P2P {
  import opened Frames
  import opened QueueModel
  import opened SyncModel
  import opened SyncEngine
  import opened SessionModel
  import opened SessionInvariant
  import opened SessionProofs
  import opened Rollback

  datatype Handed<I> = Handed(player: nat, entry: FrameInput<I>)

  /** One entry for every remote player's peer. */
  function ToPeers<I>(local: seq<bool>, entry: FrameInput<I>): seq<Handed<I>> {
    if local == [] then []
    else ToPeers(local[..|local| - 1], entry) + if local[|local| - 1] then [] else [Handed(|local| - 1, entry)]
  }

  /** Every peer is handed the entry exactly once, in the order of the players, and nobody else is. */
  lemma {:induction false} ToPeersReachesAll<I>(local: seq<bool>, entry: FrameInput<I>, i: nat)
    ensures var out := ToPeers(local, entry);
            && |out| == Remotes(local)
            && (Handed(i, entry) in out <==> i < |local| && !local[i])
            && (forall k | 0 <= k < |out| :: out[k].entry == entry && out[k].player < |local|)
            && forall j, k | 0 <= j < k < |out| :: out[j].player < out[k].player
    decreases |local|
  {
    if local != [] {
      ToPeersReachesAll(local[..|local| - 1], entry, i);
    }
  }

  class P2PSession<S, I(==, !new)> {
    const sync: SyncState<S, I>
    const local: seq<bool>
    var lastFrame: seq<Frame>
    var synchronizing: bool

    // What the session's own handle of each peer says about each player. Connections keep theirs in another copy, so
    // these statuses stay as they were made.
    const peerStatus: seq<seq<Frame>>

    // Local inputs handed on to the peers to be sent.
    var outgoing: seq<Handed<I>>

    ghost function Footprint(): set<object> {
      {this} + sync.Footprint()
    }

    ghost predicate Valid()
      reads Footprint()
    {
      && this !in sync.Footprint()
      && sync.Valid() && !sync.rollingBack
      && Model().Shaped()
      && Linked()
      && peerStatus == Repeat(|local|, Repeat(|local|, NULL_FRAME))
    }

    /** Every queue and the connection status agree on the last frame taken from its player. */
    ghost predicate Linked()
      reads this, sync
    {
      |sync.queues| == |lastFrame| && forall i | 0 <= i < |lastFrame| :: sync.queues[i].lastUser == lastFrame[i]
    }

    ghost function Model(): Session<S, I>
      reads this, sync, sync.savedState, sync.savedState.frames
    {
      Session(sync.Model(), local, lastFrame, synchronizing)
    }

    /** Several local players along with several remote ones are refused; how many there are of one kind is not. */
    static method Build(zero: I, frameDelay: nat, local: seq<bool>, ghost game: Game<S, I>)
      returns (built: Option<P2PSession<S, I>>)
      ensures built.None? <==> !Buildable(local)
      ensures built.Some? ==>
                && built.value.Valid() && fresh(built.value.Footprint()) && built.value.outgoing == []
                && built.value.Model() == Start(game, zero, frameDelay, local).session
    {
      var locals := 0;
      for i := 0 to |local|
        invariant locals == i - Remotes(local[..i])
      {
        assert local[..i + 1][..i] == local[..i];
        locals := locals + if local[i] then 1 else 0;
      }
      assert local[..|local|] == local;
      if 1 < locals && 1 < |local| - locals {
        return None;
      }
      var session := new P2PSession<S, I>(zero, frameDelay, local, game);
      return Some(session);
    }

    constructor (zero: I, frameDelay: nat, local: seq<bool>, ghost game: Game<S, I>)
      requires Buildable(local)
      ensures Valid() && fresh(Footprint())
      ensures Model() == Start(game, zero, frameDelay, local).session && outgoing == []
      ensures true in local && |local| <= MAX_PLAYERS ==> Sane(Model())
    {
      var engine := new SyncState<S, I>(zero, |local|, frameDelay);
      sync := engine;
      this.local := local;
      lastFrame := Repeat(|local|, NULL_FRAME);
      synchronizing := false in local;
      peerStatus := Repeat(|local|, Repeat(|local|, NULL_FRAME));
      outgoing := [];
      new;
      if true in local && |local| <= MAX_PLAYERS {
        StartIsHealthy(game, zero, frameDelay, local);
      }
    }

    /**
     Registers an input of a local player for the current frame, unless the session is not ready for one, and hands it
     on to every peer.
     */
    method AddLocalInput(player: nat, input: I) returns (result: LocalResult)
      requires Valid() && Sane(Model()) && Legal(Model(), LocalInput(player, input))
      modifies sync.Footprint(), this`lastFrame, this`outgoing
      ensures Valid() && Sane(Model())
      ensures (Model(), result) == old(Model()).AddLocalInput(player, input)
      ensures outgoing == old(outgoing)
                          + if result.Accepted? then ToPeers(local, FrameInput(result.frame, input)) else []
    {
      hide SyncState.Valid, Sane, ToPeers;
      LocalInputIsSane(Model(), player, input);
      if synchronizing {
        return NotSynchronized;
      }
      if player >= |local| {
        return InvalidPlayer;
      }
      var framesBehind := sync.frameCount - sync.lastConfirmedFrame;
      if sync.frameCount >= MAX_PREDICTION_FRAMES && framesBehind >= MAX_PREDICTION_FRAMES {
        return ReachedPredictionBarrier;
      }
      var entry := FrameInput(sync.frameCount, input);
      AddInput(player, entry);
      SendToPeers(entry);
      return Accepted(sync.frameCount);
    }

    /** Hands an input to every remote player's peer, in the order of the players. */
    method SendToPeers(entry: FrameInput<I>)
      modifies this`outgoing
      ensures outgoing == old(outgoing) + ToPeers(local, entry)
    {
      for i := 0 to |local|
        invariant outgoing == old(outgoing) + ToPeers(local[..i], entry)
      {
        assert local[..i + 1][..i] == local[..i];
        if !local[i] {
          outgoing := outgoing + [Handed(i, entry)];
        }
      }
      assert local[..|local|] == local;
    }

    /** Queues an input and moves the player's last frame on. */
    method AddInput(player: nat, input: FrameInput<I>)
      requires Valid() && player < |lastFrame| && !IsNull(input.frame)
      requires Follows(lastFrame[player], input.frame) && Room(sync.queues[player], input.frame)
      modifies sync.Footprint(), this`lastFrame
      ensures Valid() && Model() == old(Model()).Receive(player, input)
    {
      hide SyncState.Valid;
      sync.AddInput(player, input);
      lastFrame := lastFrame[player := input.frame];
      AddInputStream(old(sync.queues)[player], input);
    }

    method SetFrameDelay(player: nat, delay: nat) returns (known: bool)
      requires Valid() && Sane(Model())
      modifies sync.Footprint()
      ensures Valid() && Sane(Model())
      ensures Model() == old(Model()).SetFrameDelay(player, delay)
      ensures known <==> player < |local|
    {
      SetDelayIsSane(Model(), player, delay);
      hide SyncState.Valid, Sane;
      if player >= |local| {
        return false;
      }
      sync.SetFrameDelay(player, delay);
      return true;
    }

    /** A batch of inputs from a remote player, which continues that player's last frame. */
    method ReceiveInputs(player: nat, batch: seq<FrameInput<I>>)
      requires Valid() && player < |lastFrame|
      requires BatchFits(sync.queues[player], lastFrame[player], batch)
      modifies sync.Footprint(), this`lastFrame
      ensures Valid() && Model() == old(Model()).ReceiveAll(player, batch)
    {
      hide SyncState.Valid;
      var k := 0;
      while k < |batch|
        invariant k <= |batch| && Valid() && player < |lastFrame|
        invariant BatchFits(sync.queues[player], lastFrame[player], batch[k..])
        invariant Model().ReceiveAll(player, batch[k..]) == old(Model()).ReceiveAll(player, batch)
      {
        assert batch[k..][1..] == batch[k + 1..];
        AddInputStream(sync.queues[player], batch[k]);
        BatchTail(sync.queues[player], sync.queues[player].AddInput(batch[k]).0, lastFrame[player], batch[k..]);
        AddInput(player, batch[k]);
        k := k + 1;
      }
    }

    method HandleEvent(player: nat, event: PeerEvent<I>, out: CommandList<I>)
      requires Valid() && out !in Footprint()
      requires ArrivalFits(Model(), Arrival(player, event))
      modifies sync.Footprint(), this`lastFrame, this`synchronizing, out
      ensures Valid()
      ensures Model() == old(Model()).HandleEvent(player, event).0
      ensures out.commands == old(out.commands) + old(Model()).HandleEvent(player, event).1
    {
      hide SyncState.Valid;
      match event {
        case PeerConnected =>
          out.Push(Notify(Connected(player)));
        case PeerSynchronizing(total, count) =>
          out.Push(Notify(Synchronizing(player, total, count)));
        case Inputs(batch) =>
          ReceiveInputs(player, batch);
        case PeerInterrupted(disconnectTimeout) =>
          out.Push(Notify(ConnectionInterrupted(player, disconnectTimeout)));
        case PeerResumed =>
          out.Push(Notify(Synchronized(player)));
        case PeerSynchronized(everyoneRunning) =>
          out.Push(Notify(Synchronized(player)));
          if synchronizing && everyoneRunning {
            out.Push(Notify(Running));
            synchronizing := false;
          }
      }
    }

    method FlushEvents(arrivals: seq<Arrival<I>>, out: CommandList<I>)
      requires Valid() && out !in Footprint()
      requires ArrivalsFit(Model(), arrivals) && Model().WellFormed(arrivals)
      modifies sync.Footprint(), this`lastFrame, this`synchronizing, out
      ensures Valid()
      ensures Model() == old(Model()).FlushEvents(arrivals).0
      ensures out.commands == old(out.commands) + old(Model()).FlushEvents(arrivals).1
    {
      hide SyncState.Valid;
      ghost var issued: seq<Command<I>> := [];
      var k := 0;
      assert arrivals[0..] == arrivals && issued + Model().FlushEvents(arrivals).1 == Model().FlushEvents(arrivals).1;
      while k < |arrivals|
        invariant k <= |arrivals| && Valid()
        invariant ArrivalsFit(Model(), arrivals[k..]) && Model().WellFormed(arrivals[k..])
        invariant out.commands == old(out.commands) + issued
        invariant old(Model()).FlushEvents(arrivals) ==
                  (Model().FlushEvents(arrivals[k..]).0, issued + Model().FlushEvents(arrivals[k..]).1)
      {
        assert arrivals[k..][0] == arrivals[k] && arrivals[k..][1..] == arrivals[k + 1..];
        ghost var (s, first) := Model().HandleEvent(arrivals[k].player, arrivals[k].event);
        FittingIsWellFormed(s, arrivals[k + 1..]);
        HandleEvent(arrivals[k].player, arrivals[k].event, out);
        AppendAssociates(old(out.commands), issued, first);
        AppendAssociates(issued, first, s.FlushEvents(arrivals[k + 1..]).1);
        issued := issued + first;
        k := k + 1;
      }
      assert Model().FlushEvents(arrivals[k..]) == (Model(), []);
      assert issued + [] == issued;
    }

    /** The least last frame of all players. */
    method MinFrame() returns (frame: Frame)
      requires 0 < |lastFrame|
      ensures frame == Least(lastFrame)
    {
      frame := lastFrame[0];
      for i := 1 to |lastFrame|
        invariant frame == Least(lastFrame[..i])
      {
        LeastStep(lastFrame, i);
        frame := if lastFrame[i] < frame then lastFrame[i] else frame;
      }
      assert lastFrame[..|lastFrame|] == lastFrame;
    }

    /**
     What everybody has confirmed of everybody, as far as the session can see. The least over all players of what their
     peers say and of the last frame received; a single remote player's untouched status keeps it at no frame at all.
     */
    method LeastConfirmedByAll() returns (frame: Frame)
      requires Valid() && Model().HasRemote()
      ensures frame == NULL_FRAME
    {
      hide SyncState.Valid;
      frame := lastFrame[0];
      ghost var remote :| 0 <= remote < |local| && !local[remote];
      for queue := 0 to |local|
        invariant 0 < queue ==> frame == NULL_FRAME
      {
        var queueMin: Frame := lastFrame[queue];
        for i := 0 to |local|
          invariant remote < i ==> queueMin == NULL_FRAME
        {
          if !local[i] {
            assert peerStatus[i] == Repeat(|local|, NULL_FRAME);
            queueMin := if peerStatus[i][queue] < queueMin then peerStatus[i][queue] else queueMin;
          }
        }
        frame := if queueMin < frame then queueMin else frame;
      }
    }

    /** The frame up to which everybody's input is known: all played ones, if nobody is remote. */
    method FindConfirmedFrame() returns (frame: Frame)
      requires Valid()
      ensures frame == Model().ConfirmedFrame()
    {
      hide SyncState.Valid;
      var remotes := 0;
      for i := 0 to |local|
        invariant remotes == Remotes(local[..i])
      {
        assert local[..i + 1][..i] == local[..i];
        remotes := remotes + if local[i] then 0 else 1;
      }
      assert local[..|local|] == local;
      if remotes == 0 {
        frame := sync.frameCount;
      } else if remotes <= 2 {
        frame := MinFrame();
      } else {
        frame := LeastConfirmedByAll();
      }
    }

    /** Confirms what everybody has sent. */
    method Confirm()
      requires Valid() && Sane(Model()) && !synchronizing
      modifies sync`lastConfirmedFrame, sync`queues, sync.QueueObjects()
      ensures Valid()
      ensures var s := old(Model()); var frame := s.ConfirmedFrame();
              Model() == if IsNull(frame) then s else s.(sync := s.sync.SetLastConfirmedFrame(frame))
    {
      hide SyncState.Valid, Sane, Session.ConfirmedFrame, Session.Players;
      assert |sync.queues| == Model().Players();
      ConfirmationMovesForward(Model());
      var frame := FindConfirmedFrame();
      if frame >= 0 {
        ConfirmUpTo(frame);
      }
    }

    method ConfirmUpTo(frame: nat)
      requires Valid()
      requires 0 < frame ==>
                 forall i | 0 <= i < |sync.queues| ::
                   sync.queues[i].discarded <= sync.queues[i].DiscardLimit(frame - 1) + 1
      modifies sync`lastConfirmedFrame, sync`queues, sync.QueueObjects()
      ensures Valid()
      ensures Model() == old(Model()).(sync := old(Model()).sync.SetLastConfirmedFrame(frame))
    {
      hide SyncState.Valid;
      ghost var s := Model();
      sync.SetLastConfirmedFrame(frame);
      DiscardKeepsUsers(s, frame);
      hide Sync.SetLastConfirmedFrame;
      assert sync.queues == s.sync.SetLastConfirmedFrame(frame).queues;
    }

    /** Rolls back if arrivals have contradicted a prediction; `before` is what the queues held before they came. */
    method Check(out: CommandList<I>, ghost before: seq<Queue<I>>)
      requires Valid() && out !in Footprint() && Growing(Model(), before)
      modifies sync.Footprint(), out
      ensures CanCheck(old(Model()).sync) && Valid()
      ensures Model() == old(Model()).(sync := old(Model()).sync.CheckSimulation().0)
      ensures out.commands == old(out.commands) + old(Model()).sync.CheckSimulation().1
      ensures Sane(Model())
    {
      hide SyncState.Valid;
      ghost var s := Model();
      FlaggedFrameIsRecent(s, before);
      FlaggedFrameIsKept(s, before);
      CheckKeepsSane(s, before);
      sync.CheckSimulation(out);
      assert Linked() by {
        assert forall i | 0 <= i < |lastFrame| :: SameStream(s.sync.queues[i], sync.queues[i]);
      }
    }

    /** Handles what the peers have reported, checks the simulation and confirms; unless still synchronizing. */
    method DoPoll(arrivals: seq<Arrival<I>>, out: CommandList<I>)
      requires Valid() && out !in Footprint()
      requires Sane(Model()) && ArrivalsFit(Model(), arrivals) && Model().WellFormed(arrivals)
      modifies sync.Footprint(), this`lastFrame, this`synchronizing, out
      ensures Valid() && Sane(Model())
      ensures SessionModel.DoPoll(old(Model()), arrivals, old(out.commands)) == Some((Model(), out.commands))
    {
      hide SyncState.Valid;
      if sync.rollingBack {
        return;
      }
      ghost var s := Model();
      SaneStartsGrowing(s);
      FlushKeepsGrowing(s, s.sync.queues, arrivals);
      FlushKeepsEngine(s, arrivals);
      FlushEvents(arrivals, out);
      ghost var flushed := Model();
      if synchronizing {
        UnplayedIsSane(flushed, s.sync.queues);
        return;
      }
      SettleKeepsSane(flushed, s.sync.queues);
      Check(out, s.sync.queues);
      Confirm();
    }

    /** Handles network events without advancing the game. */
    method Poll(arrivals: seq<Arrival<I>>) returns (out: CommandList<I>)
      requires Valid() && Sane(Model()) && ArrivalsFit(Model(), arrivals) && Model().WellFormed(arrivals)
      modifies sync.Footprint(), this`lastFrame, this`synchronizing
      ensures Valid() && Sane(Model()) && fresh(out)
      ensures Call(old(Model()), SessionModel.Poll(arrivals)) == Some((Model(), out.commands))
    {
      out := new CommandList<I>();
      DoPoll(arrivals, out);
    }

    /** Plays one frame, then polls. Every local player has given its input for the frame. */
    method AdvanceFrame(arrivals: seq<Arrival<I>>) returns (out: CommandList<I>)
      requires Valid() && Sane(Model()) && Fits(Model(), Advance(arrivals)) && Legal(Model(), Advance(arrivals))
      modifies sync.Footprint(), this`lastFrame, this`synchronizing
      ensures Valid() && Sane(Model()) && fresh(out)
      ensures Call(old(Model()), Advance(arrivals)) == Some((Model(), out.commands))
    {
      hide SyncState.Valid;
      AdvanceUnfolds(Model(), arrivals);
      out := new CommandList<I>();
      if !synchronizing {
        FittingIsWellFormed(Incremented(Model()), arrivals);
        Increment(out);
        assert out.commands == old(Model()).sync.IncrementFrame().1;
      }
      DoPoll(arrivals, out);
    }

    method Increment(out: CommandList<I>)
      requires Valid() && out !in Footprint() && Sane(Model()) && !synchronizing
      requires forall i | 0 <= i < |local| && local[i] :: lastFrame[i] == sync.frameCount
      modifies sync.Footprint(), out
      ensures Valid() && Sane(Model())
      ensures Model() == Incremented(old(Model()))
      ensures out.commands == old(out.commands) + old(Model()).sync.IncrementFrame().1
    {
      hide SyncState.Valid;
      ghost var s := Model();
      CurrentFrameIsKept(s);
      IncrementStaysSane(s);
      sync.IncrementFrame(out);
      assert Linked() by {
        assert forall i | 0 <= i < |lastFrame| :: Tracked(Incremented(s), i);
      }
    }
  }

  lemma AdvanceUnfolds<S, I>(s: Session<S, I>, arrivals: seq<Arrival<I>>)
    requires s.Shaped() && s.WellFormed(arrivals)
    ensures Call(s, Advance(arrivals)) ==
            if s.synchronizing then SessionModel.DoPoll(s, arrivals, [])
            else if MAX_PLAYERS < |s.sync.queues| then None
            else SessionModel.DoPoll(Incremented(s), arrivals, s.sync.IncrementFrame().1)
  {
  }

  lemma DiscardKeepsUsers<S, I>(s: Session<S, I>, frame: nat)
    requires s.Shaped()
    ensures var queues := s.sync.SetLastConfirmedFrame(frame).queues;
            && |queues| == |s.sync.queues|
            && forall i | 0 <= i < |queues| :: queues[i].lastUser == s.sync.queues[i].lastUser
  {
  }
}
