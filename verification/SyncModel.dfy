/**
 The rollback engine on values, with a client that runs its commands. A saved cell is named by its ring slot, which
 session and client share.
 */
module SyncModel {
  import opened Frames
  import opened QueueModel

  /** MAX_PREDICTION_FRAMES + 2 */
  const CELLS: nat := 10

  /** (j + 1) % CELLS */
  function NextSlot(j: nat): nat {
    if j + 1 == CELLS then 0 else j + 1
  }

  datatype Cell<S> = Cell(frame: Frame, data: Option<S>)

  datatype Notice =
    | Connected(player: nat)
    | Synchronizing(player: nat, total: nat, count: nat)
    | Synchronized(player: nat)
    | Running
    | ConnectionInterrupted(player: nat, disconnectTimeout: nat)

  datatype Command<I> =
    | Save(slot: nat, frame: nat)
    | Load(slot: nat)
    | AdvanceFrame(frame: nat, inputs: seq<I>)
    | Notify(notice: Notice)

  // ---------------------------------------------------------------------------------------------
  // The ring of saved states
  // ---------------------------------------------------------------------------------------------

  datatype Saved<S> = Saved(head: nat, cells: seq<Cell<S>>)
  {
    predicate Valid() {
      |cells| == CELLS && head < CELLS
    }

    /** Claims the next cell for `frame`. The cell is emptied now, long before the client fills it. */
    function Push(frame: nat): Saved<S>
      requires Valid()
    {
      Saved(NextSlot(head), cells[head := Cell(frame, None)])
    }

    /** Claims cells for `count` frames starting at `first`. */
    function PushAll(first: nat, count: nat): (r: Saved<S>)
      requires Valid()
      ensures r.Valid()
      decreases count
    {
      if count == 0 then this else Push(first).PushAll(first + 1, count - 1)
    }
  }

  /** The lowest slot whose cell is for `frame`. */
  function FindIndex<S>(cells: seq<Cell<S>>, frame: Frame): (r: Option<nat>)
    ensures r.Some? ==> r.value < |cells| && cells[r.value].frame == frame
    ensures r.Some? ==> forall j | 0 <= j < r.value :: cells[j].frame != frame
    ensures r.None? ==> forall j | 0 <= j < |cells| :: cells[j].frame != frame
  {
    FindFrom(cells, frame, 0)
  }

  function FindFrom<S>(cells: seq<Cell<S>>, frame: Frame, from: nat): (r: Option<nat>)
    requires from <= |cells|
    ensures r.Some? ==> from <= r.value < |cells| && cells[r.value].frame == frame
    ensures r.Some? ==> forall j | from <= j < r.value :: cells[j].frame != frame
    ensures r.None? ==> forall j | from <= j < |cells| :: cells[j].frame != frame
    decreases |cells| - from
  {
    if from == |cells| then None
    else if cells[from].frame == frame then Some(from)
    else FindFrom(cells, frame, from + 1)
  }

  // ---------------------------------------------------------------------------------------------
  // The engine
  // ---------------------------------------------------------------------------------------------

  datatype Sync<S, I(==)> = Sync(saved: Saved<S>, queues: seq<Queue<I>>, lastConfirmed: Frame, frameCount: nat)
  {
    ghost predicate HasFrame(frame: Frame) {
      FindIndex(saved.cells, frame).Some?
    }

    function SaveCurrentFrame(): (Sync<S, I>, seq<Command<I>>)
      requires saved.Valid()
    {
      (this.(saved := saved.Push(frameCount)), [Save(saved.head, frameCount)])
    }

    /** Fetches every player's input for the current frame. */
    function SynchronizeInputs(): (Sync<S, I>, seq<I>) {
      (this.(queues := Requested(queues, frameCount)), Fetched(queues, frameCount))
    }

    function IncrementFrame(): (r: (Sync<S, I>, seq<Command<I>>))
      requires saved.Valid()
      ensures r.0.saved.Valid() && |r.0.queues| == |queues|
    {
      var (s0, first) := if frameCount == 0 then SaveCurrentFrame() else (this, []);
      var (s1, inputs) := s0.SynchronizeInputs();
      var s2 := s1.(frameCount := frameCount + 1);
      var (s3, last) := s2.SaveCurrentFrame();
      (s3, first + [AdvanceFrame(frameCount, inputs)] + last)
    }

    function IncrementBy(count: nat): (r: (Sync<S, I>, seq<Command<I>>))
      requires saved.Valid()
      ensures r.0.saved.Valid() && |r.0.queues| == |queues|
      decreases count
    {
      if count == 0 then (this, [])
      else
        var (s, first) := IncrementFrame();
        var (s', rest) := s.IncrementBy(count - 1);
        (s', first + rest)
    }

    /** Goes back to `frame`; the cell must be in the ring unless there is nothing to do. */
    function LoadFrame(frame: nat): (r: (Sync<S, I>, seq<Command<I>>))
      requires saved.Valid()
      requires frame == frameCount || HasFrame(frame)
      ensures r.0.saved.Valid() && |r.0.queues| == |queues|
    {
      if frame == frameCount then (this, [])
      else
        var slot := FindIndex(saved.cells, frame).value;
        (this.(saved := saved.(head := NextSlot(slot)), frameCount := frame), [Load(slot)])
    }

    function ResetPrediction(): Sync<S, I> {
      this.(queues := seq(|queues|, i requires 0 <= i < |queues| => queues[i].ResetPrediction()))
    }

    function AdjustSimulation(seekTo: nat): (r: (Sync<S, I>, seq<Command<I>>))
      requires saved.Valid()
      requires seekTo == frameCount || (seekTo < frameCount && HasFrame(seekTo))
      ensures r.0.saved.Valid() && |r.0.queues| == |queues|
    {
      var (s0, load) := LoadFrame(seekTo);
      var (s1, rest) := s0.ResetPrediction().IncrementBy(frameCount - seekTo);
      (s1, load + rest)
    }

    function CheckSimulation(): (r: (Sync<S, I>, seq<Command<I>>))
      requires saved.Valid()
      requires var seekTo := FirstIncorrect(queues);
               seekTo.Some? ==> seekTo.value == frameCount || (seekTo.value < frameCount && HasFrame(seekTo.value))
      ensures r.0.saved.Valid() && |r.0.queues| == |queues|
    {
      match FirstIncorrect(queues)
      case None => (this, [])
      case Some(seekTo) => AdjustSimulation(seekTo)
    }

    function SetLastConfirmedFrame(frame: nat): (r: Sync<S, I>)
      ensures |r.queues| == |queues|
    {
      this.(lastConfirmed := frame,
            queues := if frame == 0 then queues
                      else seq(|queues|, i requires 0 <= i < |queues| => queues[i].Discard(frame - 1)))
    }
  }

  lemma AdjustUnfolds<S, I>(s: Sync<S, I>, e: nat)
    requires s.saved.Valid() && (e == s.frameCount || (e < s.frameCount && s.HasFrame(e)))
    ensures var (s0, load) := s.LoadFrame(e);
            var (s', rest) := s0.ResetPrediction().IncrementBy(s.frameCount - e);
            s.AdjustSimulation(e) == (s', load + rest)
  {
  }

  function Requested<I>(queues: seq<Queue<I>>, frame: nat): (r: seq<Queue<I>>)
  {
    seq(|queues|, i requires 0 <= i < |queues| => queues[i].GetInput(frame).0)
  }

  function Fetched<I>(queues: seq<Queue<I>>, frame: nat): (r: seq<I>)
  {
    seq(|queues|, i requires 0 <= i < |queues| => queues[i].GetInput(frame).1.entry.input)
  }

  /** The earliest frame any queue has flagged. */
  function FirstIncorrect<I>(queues: seq<Queue<I>>): (r: Option<nat>)
    ensures r.None? <==> forall i | 0 <= i < |queues| :: IsNull(queues[i].firstIncorrect)
    ensures r.Some? ==> exists i | 0 <= i < |queues| :: queues[i].firstIncorrect == r.value
    ensures r.Some? ==> forall i | 0 <= i < |queues| ::
                          IsNull(queues[i].firstIncorrect) || r.value <= queues[i].firstIncorrect
  {
    if queues == [] then None
    else
      var last := queues[|queues| - 1].firstIncorrect;
      var rest := FirstIncorrect(queues[..|queues| - 1]);
      if IsNull(last) then
        (assert forall i | 0 <= i < |queues| - 1 :: queues[i] == queues[..|queues| - 1][i]; rest)
      else if rest.None? then Some(last)
      else Some(Min(rest.value, last))
  }

  lemma FirstIncorrectOfNone<I>()
    ensures FirstIncorrect<I>([]) == None
  {
  }

  lemma FirstIncorrectStep<I>(queues: seq<Queue<I>>, i: nat)
    requires i < |queues|
    ensures var (before, last) := (FirstIncorrect(queues[..i]), queues[i].firstIncorrect);
            FirstIncorrect(queues[..i + 1]) ==
            if IsNull(last) || (before.Some? && before.value <= last) then before else Some(last)
  {
    assert queues[..i + 1][..i] == queues[..i];
  }

  // ---------------------------------------------------------------------------------------------
  // The client
  // ---------------------------------------------------------------------------------------------

  datatype Game<!S, !I> = Game(init: S, step: (S, seq<I>) -> S)

  datatype Outcome<S> = Crashed | Ran(state: S, cells: seq<Cell<S>>)

  /** One command. Loading an empty cell panics, and so does saving to a cell that is for no frame. */
  function Execute<S, I>(game: Game<S, I>, command: Command<I>, state: S, cells: seq<Cell<S>>): Outcome<S> {
    match command
    case Save(slot, _) =>
      if slot < |cells| && !IsNull(cells[slot].frame)
      then Ran(state, cells[slot := cells[slot].(data := Some(state))])
      else Crashed
    case Load(slot) =>
      if slot < |cells| && cells[slot].data.Some? then Ran(cells[slot].data.value, cells) else Crashed
    case AdvanceFrame(_, inputs) => Ran(game.step(state, inputs), cells)
    case Notify(_) => Ran(state, cells)
  }

  function ExecuteAll<S, I>(game: Game<S, I>, commands: seq<Command<I>>, state: S, cells: seq<Cell<S>>): Outcome<S>
    decreases |commands|
  {
    if commands == [] then Ran(state, cells)
    else
      match Execute(game, commands[0], state, cells)
      case Crashed => Crashed
      case Ran(state', cells') => ExecuteAll(game, commands[1..], state', cells')
  }

  /** The simulation with no rollback at all: the state after playing `rows` from the start. */
  function Play<S, I>(game: Game<S, I>, rows: seq<seq<I>>): S {
    if rows == [] then game.init
    else game.step(Play(game, rows[..|rows| - 1]), rows[|rows| - 1])
  }

  /** Everybody's input for frame g, as far as the queues know it. */
  function Row<I>(queues: seq<Queue<I>>, g: nat): seq<I> {
    seq(|queues|, i requires 0 <= i < |queues| => queues[i].Belief(g))
  }

  function Rows<I>(queues: seq<Queue<I>>, n: nat): seq<seq<I>> {
    seq(n, g requires 0 <= g => Row(queues, g))
  }

  /** Rows of inputs as far as the streams have them: a missing one repeats the latest there is, or zero. */
  ghost predicate AsKnown<I>(rows: seq<seq<I>>, queues: seq<Queue<I>>, zero: I) {
    forall g | 0 <= g < |rows| ::
      && |rows[g]| == |queues|
      && forall i | 0 <= i < |queues| ::
           var stream := queues[i].stream;
           rows[g][i] == if g < |stream| then stream[g] else if stream != [] then stream[|stream| - 1] else zero
  }

  /** Waiting for every input and then simulating n frames; missing inputs repeat the player's last one. */
  function Replay<S, I>(game: Game<S, I>, queues: seq<Queue<I>>, n: nat): S {
    Play(game, Rows(queues, n))
  }
}
