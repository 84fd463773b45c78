/** The rollback engine and its client as objects: queues, ring of saved states and command list updated in place. */
module SyncEngine {
  import opened Frames
  import opened QueueModel
  import opened InputQueues
  import opened SyncModel

  /** The ring of saved states. The session claims cells, the client fills and reads them. */
  class SavedState<S> {
    var head: nat
    const frames: array<Cell<S>>

    ghost predicate Valid()
      reads this
    {
      frames.Length == CELLS && head < CELLS
    }

    ghost function Model(): Saved<S>
      reads this, frames
    {
      Saved(head, frames[..])
    }

    constructor ()
      ensures Valid() && Model() == Saved(0, Repeat(CELLS, Cell(NULL_FRAME, None))) && fresh(frames)
    {
      head := 0;
      frames := new Cell<S>[CELLS](_ => Cell(NULL_FRAME, None));
    }

    method Push(frame: nat) returns (slot: nat)
      requires Valid()
      modifies this, frames
      ensures Valid() && Model() == old(Model()).Push(frame) && slot == old(head)
    {
      slot := head;
      frames[slot] := Cell(frame, None);
      head := (head + 1) % frames.Length;
    }

    method FindSlot(frame: Frame) returns (r: Option<nat>)
      ensures r == FindIndex(Model().cells, frame)
    {
      var i := 0;
      while i < frames.Length
        invariant i <= frames.Length
        invariant FindIndex(frames[..], frame) == FindFrom(frames[..], frame, i)
      {
        if frames[i].frame == frame {
          return Some(i);
        }
        i := i + 1;
      }
      return None;
    }

    /** Points the head at the cell of `frame`, which must be there. */
    method ResetTo(frame: nat) returns (slot: nat)
      requires Valid() && FindIndex(Model().cells, frame).Some?
      modifies this`head
      ensures Valid() && slot == FindIndex(Model().cells, frame).value && Model() == old(Model()).(head := slot)
    {
      var found := FindSlot(frame);
      head := found.value;
      slot := head;
    }
  }

  /** Commands for the client, in the order it must run them. */
  class CommandList<I> {
    var commands: seq<Command<I>>

    constructor ()
      ensures commands == []
    {
      commands := [];
    }

    method Push(command: Command<I>)
      modifies this
      ensures commands == old(commands) + [command]
    {
      commands := commands + [command];
    }
  }

  /** A client: it holds the game's state and runs commands one after the other. */
  class Client<S, I> {
    const game: Game<S, I>
    var state: S

    constructor (game: Game<S, I>)
      ensures this.game == game && state == game.init
    {
      this.game := game;
      state := game.init;
    }

    method Run(commands: seq<Command<I>>, saved: SavedState<S>)
      requires saved.Valid()
      requires ExecuteAll(game, commands, state, saved.Model().cells).Ran?
      modifies this, saved.frames
      ensures saved.Valid()
      ensures Ran(state, saved.Model().cells) == old(ExecuteAll(game, commands, state, saved.Model().cells))
    {
      var i := 0;
      while i < |commands|
        invariant i <= |commands|
        invariant saved.Valid() && unchanged(saved)
        invariant ExecuteAll(game, commands[i..], state, saved.frames[..]) ==
                  old(ExecuteAll(game, commands, state, saved.Model().cells))
      {
        assert commands[i..][1..] == commands[i + 1..];
        match commands[i] {
          case Save(slot, _) =>
            ghost var cells := saved.frames[..];
            saved.frames[slot] := saved.frames[slot].(data := Some(state));
            assert saved.frames[..] == cells[slot := cells[slot].(data := Some(state))];
          case Load(slot) =>
            state := saved.frames[slot].data.value;
          case AdvanceFrame(_, inputs) =>
            state := game.step(state, inputs);
          case Notify(_) =>
        }
        i := i + 1;
      }
    }
  }

  class SyncState<S, I(==)> {
    const savedState: SavedState<S>
    const inputQueues: seq<InputQueue<I>>
    var rollingBack: bool
    var lastConfirmedFrame: Frame
    var frameCount: nat

    // What the queues hold, by player.
    ghost var queues: seq<Queue<I>>

    ghost function QueueObjects(): set<object> {
      (set i | 0 <= i < |inputQueues| :: inputQueues[i] as object)
      + (set i | 0 <= i < |inputQueues| :: inputQueues[i].inputs as object)
    }

    /** Everything the engine owns; the parts never change. */
    ghost function Footprint(): set<object> {
      {this, savedState, savedState.frames} + QueueObjects()
    }

    ghost predicate Distinct() {
      && (forall i, j | 0 <= i < j < |inputQueues| ::
            inputQueues[i] != inputQueues[j] && inputQueues[i].inputs != inputQueues[j].inputs)
      && this !in QueueObjects() && savedState !in QueueObjects() && savedState.frames !in QueueObjects()
    }

    ghost predicate Valid()
      reads Footprint()
    {
      && Distinct()
      && savedState.Valid()
      && |queues| == |inputQueues|
      && forall i | 0 <= i < |inputQueues| :: inputQueues[i].Valid() && inputQueues[i].Model() == queues[i]
    }

    ghost function Model(): Sync<S, I>
      reads this, savedState, savedState.frames
    {
      Sync(savedState.Model(), queues, lastConfirmedFrame, frameCount)
    }

    /** No queue has an error, and none has given up the frame about to be fetched. */
    ghost predicate CanFetch(frame: nat)
      reads this
    {
      forall i | 0 <= i < |queues| :: IsNull(queues[i].firstIncorrect) && queues[i].discarded <= frame
    }

    constructor (zero: I, playerCount: nat, frameDelay: nat)
      ensures Valid() && fresh(Footprint()) && !rollingBack
      ensures Model() == Sync(Saved(0, Repeat(CELLS, Cell(NULL_FRAME, None))),
                              Repeat(playerCount, Fresh(zero, frameDelay)), NULL_FRAME, 0)
    {
      var made: seq<InputQueue<I>> := [];
      for i := 0 to playerCount
        invariant |made| == i
        invariant forall k | 0 <= k < i :: fresh(made[k]) && fresh(made[k].inputs)
        invariant forall k | 0 <= k < i :: made[k].Valid() && made[k].Model() == Fresh(zero, frameDelay)
        invariant forall j, k | 0 <= j < k < i :: made[j] != made[k] && made[j].inputs != made[k].inputs
      {
        var q := new InputQueue(zero, frameDelay);
        made := made + [q];
      }
      var saved := new SavedState<S>();
      inputQueues := made;
      savedState := saved;
      rollingBack := false;
      lastConfirmedFrame := NULL_FRAME;
      frameCount := 0;
      queues := Repeat(playerCount, Fresh(zero, frameDelay));
    }

    method SaveCurrentFrame(out: CommandList<I>)
      requires Valid() && out !in Footprint()
      modifies savedState, savedState.frames, out
      ensures Valid()
      ensures Model() == old(Model()).SaveCurrentFrame().0
      ensures out.commands == old(out.commands) + old(Model()).SaveCurrentFrame().1
    {
      var slot := savedState.Push(frameCount);
      out.Push(Save(slot, frameCount));
    }

    /** The others are separate objects: what one queue's operation changes, they keep. */
    twostate lemma OthersKept(i: nat)
      requires i < |inputQueues| && old(Valid())
      requires forall k | 0 <= k < |inputQueues| && k != i :: unchanged(inputQueues[k], inputQueues[k].inputs)
      ensures forall k | 0 <= k < |inputQueues| && k != i ::
                inputQueues[k].Valid() && inputQueues[k].Model() == old(queues)[k]
    {
    }

    method GetInput(player: nat) returns (input: I)
      requires Valid() && player < |queues| && CanFetch(frameCount)
      modifies this`queues, inputQueues[player]
      ensures Valid()
      ensures queues == old(queues)[player := old(queues)[player].GetInput(frameCount).0]
      ensures input == old(queues)[player].GetInput(frameCount).1.entry.input
    {
      var fetched := inputQueues[player].GetInput(frameCount);
      input := fetched.entry.input;
      queues := queues[player := inputQueues[player].Model()];
      assert forall k | 0 <= k < |inputQueues| && k != player :: inputQueues[k] != inputQueues[player];
      OthersKept(player);
    }

    /** Fetches every player's input for the current frame; there must be a slot for everybody's. */
    method SynchronizeInputs() returns (inputs: seq<I>)
      requires Valid() && CanFetch(frameCount) && |queues| <= MAX_PLAYERS
      modifies this`queues, QueueObjects()
      ensures Valid() && CanFetch(frameCount)
      ensures (Model(), inputs) == old(Model()).SynchronizeInputs()
    {
      hide InputQueue.Valid;
      inputs := [];
      for i := 0 to |inputQueues|
        invariant Valid() && |inputs| == i && |queues| == |old(queues)|
        invariant forall k | 0 <= k < i ::
                    (queues[k], inputs[k]) ==
                    (old(queues)[k].GetInput(frameCount).0, old(queues)[k].GetInput(frameCount).1.entry.input)
        invariant forall k | i <= k < |queues| :: queues[k] == old(queues)[k]
      {
        var input := GetInput(i);
        inputs := inputs + [input];
      }
      assert queues == Requested(old(queues), frameCount);
      assert inputs == Fetched(old(queues), frameCount);
    }

    method IncrementFrame(out: CommandList<I>)
      requires Valid() && CanFetch(frameCount) && |queues| <= MAX_PLAYERS && out !in Footprint()
      modifies this`queues, this`frameCount, savedState, savedState.frames, QueueObjects(), out
      ensures Valid() && CanFetch(frameCount) && rollingBack == old(rollingBack)
      ensures Model() == old(Model()).IncrementFrame().0
      ensures out.commands == old(out.commands) + old(Model()).IncrementFrame().1
    {
      hide InputQueue.Valid;
      if frameCount == 0 {
        SaveCurrentFrame(out);
      }
      var inputs := SynchronizeInputs();
      out.Push(AdvanceFrame(frameCount, inputs));
      frameCount := frameCount + 1;
      SaveCurrentFrame(out);
    }

    /** Goes back to a frame whose cell is in the ring. */
    method LoadFrame(frame: nat, out: CommandList<I>)
      requires Valid() && out !in Footprint()
      requires frame == frameCount || Model().HasFrame(frame)
      modifies this`frameCount, savedState`head, out
      ensures Valid()
      ensures Model() == old(Model()).LoadFrame(frame).0
      ensures out.commands == old(out.commands) + old(Model()).LoadFrame(frame).1
    {
      hide InputQueue.Valid;
      if frame == frameCount {
        return;
      }
      var slot := savedState.ResetTo(frame);
      frameCount := savedState.frames[slot].frame;
      out.Push(Load(slot));
      savedState.head := (savedState.head + 1) % savedState.frames.Length;
    }

    /** Forgets all predictions, none of which was caught before `frame`. */
    method ResetPrediction(ghost frame: nat)
      requires Valid()
      requires forall i | 0 <= i < |queues| :: IsNull(queues[i].firstIncorrect) || frame <= queues[i].firstIncorrect
      modifies this`queues, QueueObjects()
      ensures Valid() && Model() == old(Model()).ResetPrediction()
    {
      hide InputQueue.Valid;
      for i := 0 to |inputQueues|
        invariant Valid() && |queues| == |old(queues)|
        invariant forall k | 0 <= k < i :: queues[k] == old(queues)[k].ResetPrediction()
        invariant forall k | i <= k < |queues| :: queues[k] == old(queues)[k]
      {
        ResetQueue(i, frame);
      }
      assert queues == old(Model()).ResetPrediction().queues;
    }

    method ResetQueue(player: nat, ghost frame: nat)
      requires Valid() && player < |queues|
      requires IsNull(queues[player].firstIncorrect) || frame <= queues[player].firstIncorrect
      modifies this`queues, inputQueues[player]
      ensures Valid() && queues == old(queues)[player := old(queues)[player].ResetPrediction()]
    {
      inputQueues[player].ResetPrediction(frame);
      queues := queues[player := inputQueues[player].Model()];
      assert forall k | 0 <= k < |inputQueues| && k != player :: inputQueues[k] != inputQueues[player];
      OthersKept(player);
    }

    /** Loads `seekTo` and plays forward again to the current frame. */
    method AdjustSimulation(seekTo: nat, out: CommandList<I>)
      requires Valid() && out !in Footprint() && !rollingBack
      requires seekTo == frameCount
               || (seekTo < frameCount && Model().HasFrame(seekTo) && |queues| <= MAX_PLAYERS)
      requires forall i | 0 <= i < |queues| ::
                 && queues[i].discarded <= seekTo
                 && (IsNull(queues[i].firstIncorrect) || seekTo <= queues[i].firstIncorrect)
      modifies Footprint(), out
      ensures Valid() && CanFetch(frameCount) && !rollingBack
      ensures Model() == old(Model()).AdjustSimulation(seekTo).0
      ensures out.commands == old(out.commands) + old(Model()).AdjustSimulation(seekTo).1
    {
      hide InputQueue.Valid, Sync.AdjustSimulation, FindIndex;
      rollingBack := true;
      Replay(seekTo, out);
      rollingBack := false;
    }

    method Replay(seekTo: nat, out: CommandList<I>)
      requires Valid() && out !in Footprint() && rollingBack
      requires seekTo == frameCount
               || (seekTo < frameCount && Model().HasFrame(seekTo) && |queues| <= MAX_PLAYERS)
      requires forall i | 0 <= i < |queues| ::
                 && queues[i].discarded <= seekTo
                 && (IsNull(queues[i].firstIncorrect) || seekTo <= queues[i].firstIncorrect)
      modifies this`queues, this`frameCount, savedState, savedState.frames, QueueObjects(), out
      ensures Valid() && CanFetch(frameCount)
      ensures Model() == old(Model()).AdjustSimulation(seekTo).0
      ensures out.commands == old(out.commands) + old(Model()).AdjustSimulation(seekTo).1
    {
      hide InputQueue.Valid, Sync.IncrementBy, FindIndex;
      var count := frameCount - seekTo;
      ghost var before := Model();
      LoadFrame(seekTo, out);
      assert frameCount == seekTo;
      ResetPrediction(frameCount);
      ghost var reset := Model();
      CatchUp(count, out);
      assert frameCount == before.frameCount;
      AdjustUnfolds(before, seekTo);
      AppendAssociates(old(out.commands), before.LoadFrame(seekTo).1, reset.IncrementBy(count).1);
    }

    /** Advances frame by frame. */
    method CatchUp(count: nat, out: CommandList<I>)
      requires Valid() && CanFetch(frameCount) && (0 < count ==> |queues| <= MAX_PLAYERS) && out !in Footprint()
      modifies this`queues, this`frameCount, savedState, savedState.frames, QueueObjects(), out
      ensures Valid() && CanFetch(frameCount) && frameCount == old(frameCount) + count
      ensures Model() == old(Model()).IncrementBy(count).0
      ensures out.commands == old(out.commands) + old(Model()).IncrementBy(count).1
    {
      hide InputQueue.Valid;
      ghost var start := Model();
      ghost var issued: seq<Command<I>> := [];
      for i := 0 to count
        invariant Valid() && CanFetch(frameCount) && frameCount == old(frameCount) + i
        invariant (Model(), issued) == start.IncrementBy(i)
        invariant out.commands == old(out.commands) + issued
      {
        ghost var step := Model().IncrementFrame().1;
        IncrementFrame(out);
        IncrementOnce(start, i);
        AppendAssociates(old(out.commands), issued, step);
        issued := issued + step;
      }
    }

    method FirstError() returns (frame: Option<nat>)
      requires Valid()
      ensures frame == FirstIncorrect(queues)
    {
      hide InputQueue.Valid;
      assert forall i | 0 <= i < |inputQueues| :: inputQueues[i].firstIncorrectFrame == queues[i].firstIncorrect;
      hide Valid, FirstIncorrect;
      frame := None;
      FirstIncorrectOfNone<I>();
      for i := 0 to |inputQueues|
        invariant frame == FirstIncorrect(queues[..i])
      {
        FirstIncorrectStep(queues, i);
        var error := inputQueues[i].firstIncorrectFrame;
        if !IsNull(error) && (frame.None? || error < frame.value) {
          frame := Some(error);
        }
      }
      assert queues[..|queues|] == queues;
    }

    /** Rolls back if any queue has flagged a frame; the frame must be loadable and not yet discarded. */
    method CheckSimulation(out: CommandList<I>)
      requires Valid() && out !in Footprint() && !rollingBack
      requires var e := FirstIncorrect(queues);
               e.Some? ==>
                 && (|| e.value == frameCount
                     || (e.value < frameCount && Model().HasFrame(e.value) && |queues| <= MAX_PLAYERS))
                 && forall i | 0 <= i < |queues| :: queues[i].discarded <= e.value
      modifies Footprint(), out
      ensures Valid() && !rollingBack
      ensures Model() == old(Model()).CheckSimulation().0
      ensures out.commands == old(out.commands) + old(Model()).CheckSimulation().1
    {
      hide InputQueue.Valid;
      var error := FirstError();
      if error.Some? {
        AdjustSimulation(error.value, out);
      }
    }

    /** Everything below the confirmed frame is dropped; earlier confirmations must not have gone further. */
    method SetLastConfirmedFrame(frame: nat)
      requires Valid()
      requires 0 < frame ==>
                 forall i | 0 <= i < |queues| :: queues[i].discarded <= queues[i].DiscardLimit(frame - 1) + 1
      modifies this`lastConfirmedFrame, this`queues, QueueObjects()
      ensures Valid() && Model() == old(Model()).SetLastConfirmedFrame(frame)
    {
      hide InputQueue.Valid;
      lastConfirmedFrame := frame;
      if frame > 0 {
        DiscardAll(frame - 1);
      }
    }

    method DiscardAll(frame: nat)
      requires Valid()
      requires forall i | 0 <= i < |queues| :: queues[i].discarded <= queues[i].DiscardLimit(frame) + 1
      modifies this`queues, QueueObjects()
      ensures Valid() && |queues| == |old(queues)|
      ensures forall i | 0 <= i < |queues| :: queues[i] == old(queues)[i].Discard(frame)
    {
      hide InputQueue.Valid;
      for i := 0 to |inputQueues|
        invariant Valid() && |queues| == |old(queues)|
        invariant forall k | 0 <= k < i :: queues[k] == old(queues)[k].Discard(frame)
        invariant forall k | i <= k < |queues| :: queues[k] == old(queues)[k]
      {
        DiscardFrom(i, frame);
      }
    }

    method DiscardFrom(player: nat, frame: nat)
      requires Valid() && player < |queues|
      requires queues[player].discarded <= queues[player].DiscardLimit(frame) + 1
      modifies this`queues, inputQueues[player]
      ensures Valid() && queues == old(queues)[player := old(queues)[player].Discard(frame)]
    {
      inputQueues[player].DiscardConfirmedFrames(frame);
      queues := queues[player := inputQueues[player].Model()];
      assert forall k | 0 <= k < |inputQueues| && k != player :: inputQueues[k] != inputQueues[player];
      OthersKept(player);
    }

    /** Hands an input to a player's queue, local or remote. */
    method AddInput(player: nat, input: FrameInput<I>)
      requires Valid() && player < |queues| && !IsNull(input.frame)
      requires IsNull(queues[player].lastUser) || input.frame == queues[player].lastUser + 1
      requires input.frame + queues[player].delay + 1 - queues[player].discarded <= MAX_ROLLBACK_FRAMES
      modifies this`queues, QueueObjects()
      ensures Valid() && queues == old(queues)[player := old(queues)[player].AddInput(input).0]
    {
      var _ := inputQueues[player].AddInput(input);
      queues := queues[player := inputQueues[player].Model()];
      assert forall k | 0 <= k < |inputQueues| && k != player ::
          inputQueues[k] != inputQueues[player] && inputQueues[k].inputs != inputQueues[player].inputs;
      OthersKept(player);
    }

    method SetFrameDelay(player: nat, delay: nat)
      requires Valid() && player < |queues|
      modifies this`queues, QueueObjects()
      ensures Valid() && queues == old(queues)[player := old(queues)[player].SetFrameDelay(delay)]
    {
      inputQueues[player].SetFrameDelay(delay);
      queues := queues[player := inputQueues[player].Model()];
      assert forall k | 0 <= k < |inputQueues| && k != player :: inputQueues[k] != inputQueues[player];
      OthersKept(player);
    }
  }

  /** Advancing i + 1 frames is advancing i frames and then one more. */
  lemma {:induction false} IncrementOnce<S, I>(s: Sync<S, I>, i: nat)
    requires s.saved.Valid()
    ensures var (s1, first) := s.IncrementBy(i);
            s.IncrementBy(i + 1) == (s1.IncrementFrame().0, first + s1.IncrementFrame().1)
    decreases i
  {
    if i == 0 {
      assert s.IncrementFrame().0.IncrementBy(0) == (s.IncrementFrame().0, []);
      assert s.IncrementFrame().1 + [] == s.IncrementFrame().1 == [] + s.IncrementFrame().1;
    } else {
      IncrementOnce(s.IncrementFrame().0, i - 1);
      var (s1, first) := s.IncrementFrame().0.IncrementBy(i - 1);
      AppendAssociates(s.IncrementFrame().1, first, s1.IncrementFrame().1);
    }
  }
}
