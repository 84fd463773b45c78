/**
 Why a rollback is invisible. The session issues commands, emptying cells as it goes; the client runs them later. A
 `Promise` says what the client will have once it has run everything issued so far: the state that plays the given
 rows of input from the start, and the right state in every cell that counts.
 */
module Rollback {
  import opened Frames
  import opened QueueModel
  import opened SyncModel
  import opened SavedRing

  // ---------------------------------------------------------------------------------------------
  // Running commands
  // ---------------------------------------------------------------------------------------------

  lemma {:induction false} ExecuteAppend<S, I>(
    game: Game<S, I>, a: seq<Command<I>>, b: seq<Command<I>>, state: S, cells: seq<Cell<S>>)
    ensures ExecuteAll(game, a + b, state, cells) ==
            match ExecuteAll(game, a, state, cells)
            case Crashed => Crashed
            case Ran(state', cells') => ExecuteAll(game, b, state', cells')
    decreases |a|
  {
    if a == [] {
      assert a + b == b;
    } else {
      assert (a + b)[1..] == a[1..] + b;
      match Execute(game, a[0], state, cells) {
        case Crashed =>
        case Ran(state', cells') => ExecuteAppend(game, a[1..], b, state', cells');
      }
    }
  }

  /** Running commands changes neither the number of cells nor the frames they are for. */
  lemma {:induction false} ExecuteKeepsFrames<S, I>(
    game: Game<S, I>, commands: seq<Command<I>>, state: S, cells: seq<Cell<S>>)
    ensures match ExecuteAll(game, commands, state, cells)
            case Crashed => true
            case Ran(_, cells') =>
              |cells'| == |cells| && forall j | 0 <= j < |cells| :: cells'[j].frame == cells[j].frame
    decreases |commands|
  {
    if commands != [] {
      match Execute(game, commands[0], state, cells) {
        case Crashed =>
        case Ran(state', cells') => ExecuteKeepsFrames(game, commands[1..], state', cells');
      }
    }
  }

  /** Commands that load nothing, and save only to cells that are for a frame, never crash the client. */
  lemma {:induction false} LoadlessRuns<S, I>(
    game: Game<S, I>, commands: seq<Command<I>>, state: S, cells: seq<Cell<S>>)
    requires forall c | c in commands ::
               !c.Load? && (c.Save? ==> c.slot < |cells| && !IsNull(cells[c.slot].frame))
    ensures ExecuteAll(game, commands, state, cells).Ran?
    decreases |commands|
  {
    if commands != [] {
      assert commands[0] in commands;
      var next := Execute(game, commands[0], state, cells);
      assert forall c | c in commands[1..] :: c in commands;
      LoadlessRuns(game, commands[1..], next.state, next.cells);
    }
  }

  ghost predicate LoadsFrom<I>(commands: seq<Command<I>>, slot: nat) {
    Load(slot) in commands
  }

  ghost predicate SameExcept<S>(a: seq<Cell<S>>, b: seq<Cell<S>>, slot: nat) {
    |a| == |b| && forall j | 0 <= j < |a| && j != slot :: a[j] == b[j]
  }

  /**
   Emptying a cell when a command is issued, rather than when it is run, makes no difference to the commands issued
   before it, as long as none of those loads that cell.
   */
  lemma {:induction false} EarlyResetIsHarmless<S, I>(
    game: Game<S, I>, commands: seq<Command<I>>, state: S, a: seq<Cell<S>>, b: seq<Cell<S>>, slot: nat)
    requires SameExcept(a, b, slot) && slot < |b| && !IsNull(b[slot].frame)
    requires !LoadsFrom(commands, slot)
    ensures match ExecuteAll(game, commands, state, a)
            case Crashed => true
            case Ran(stateA, cellsA) =>
              match ExecuteAll(game, commands, state, b)
              case Crashed => false
              case Ran(stateB, cellsB) => stateA == stateB && SameExcept(cellsA, cellsB, slot)
    decreases |commands|
  {
    if commands != [] {
      assert commands[0] in commands;
      var (x, y) := (Execute(game, commands[0], state, a), Execute(game, commands[0], state, b));
      if x.Ran? {
        assert y.Ran? && x.state == y.state && SameExcept(x.cells, y.cells, slot);
        forall c | c in commands[1..] ensures c in commands {}
        EarlyResetIsHarmless(game, commands[1..], x.state, x.cells, y.cells, slot);
      }
    }
  }

  // ---------------------------------------------------------------------------------------------
  // What the client will have
  // ---------------------------------------------------------------------------------------------

  /** The cells in `good` will hold the states of the frames they are for, and the client the state after all rows. */
  ghost predicate Promise<S, I>(
    game: Game<S, I>, cells: seq<Cell<S>>, commands: seq<Command<I>>, state: S, rows: seq<seq<I>>, good: set<nat>)
  {
    && |cells| == CELLS
    && (forall j | j in good :: j < CELLS)
    && var outcome := ExecuteAll(game, commands, state, cells);
       && outcome.Ran?
       && outcome.state == Play(game, rows)
       && |outcome.cells| == CELLS
       && forall j | j in good ::
            && 0 <= cells[j].frame <= |rows|
            && outcome.cells[j].data == Some(Play(game, rows[..cells[j].frame]))
  }

  lemma {:induction false} SaveKeepsPromise<S, I>(
    game: Game<S, I>, saved: Saved<S>, commands: seq<Command<I>>, state: S, rows: seq<seq<I>>, good: set<nat>)
    requires saved.Valid() && Promise(game, saved.cells, commands, state, rows, good)
    requires !LoadsFrom(commands, saved.head)
    ensures Promise(game, saved.Push(|rows|).cells, commands + [Save(saved.head, |rows|)], state, rows,
                    good + {saved.head})
  {
    var cells := saved.Push(|rows|).cells;
    EarlyResetIsHarmless(game, commands, state, saved.cells, cells, saved.head);
    ExecuteKeepsFrames(game, commands, state, cells);
    ExecuteAppend(game, commands, [Save(saved.head, |rows|)], state, cells);
    assert rows[..|rows|] == rows;
    var before := ExecuteAll(game, commands, state, cells);
    var step: seq<Command<I>> := [Save(saved.head, |rows|)];
    assert ExecuteAll(game, step, before.state, before.cells) == Execute(game, step[0], before.state, before.cells);
  }

  lemma {:induction false} AdvanceKeepsPromise<S, I>(
    game: Game<S, I>, cells: seq<Cell<S>>, commands: seq<Command<I>>, state: S, rows: seq<seq<I>>, good: set<nat>,
    row: seq<I>)
    requires Promise(game, cells, commands, state, rows, good)
    ensures Promise(game, cells, commands + [AdvanceFrame(|rows|, row)], state, rows + [row], good)
  {
    var step := AdvanceFrame(|rows|, row);
    ExecuteAppend(game, commands, [step], state, cells);
    var before := ExecuteAll(game, commands, state, cells);
    assert ExecuteAll(game, [step], before.state, before.cells) == Execute(game, step, before.state, before.cells);
    assert (rows + [row])[..|rows|] == rows;
    forall j | j in good
      ensures (rows + [row])[..cells[j].frame] == rows[..cells[j].frame]
    {
    }
  }

  lemma {:induction false} LoadKeepsPromise<S, I>(
    game: Game<S, I>, cells: seq<Cell<S>>, commands: seq<Command<I>>, state: S, rows: seq<seq<I>>, good: set<nat>,
    slot: nat, kept: set<nat>)
    requires Promise(game, cells, commands, state, rows, good)
    requires slot in good && kept <= good
    requires forall j | j in kept :: cells[j].frame <= cells[slot].frame
    ensures Promise(game, cells, commands + [Load(slot)], state, rows[..cells[slot].frame], kept)
  {
    var step := Load(slot);
    ExecuteAppend(game, commands, [step], state, cells);
    var before := ExecuteAll(game, commands, state, cells);
    assert ExecuteAll(game, [step], before.state, before.cells) == Execute(game, step, before.state, before.cells);
    forall j | j in kept
      ensures rows[..cells[slot].frame][..cells[j].frame] == rows[..cells[j].frame]
    {
    }
  }

  lemma {:induction false} NotifyKeepsPromise<S, I>(
    game: Game<S, I>, cells: seq<Cell<S>>, commands: seq<Command<I>>, state: S, rows: seq<seq<I>>, good: set<nat>,
    notice: Notice)
    requires Promise(game, cells, commands, state, rows, good)
    ensures Promise(game, cells, commands + [Notify(notice)], state, rows, good)
  {
    ExecuteAppend(game, commands, [Notify(notice)], state, cells);
    var before := ExecuteAll(game, commands, state, cells);
    assert ExecuteAll(game, [Notify(notice)], before.state, before.cells)
        == Execute(game, Notify(notice), before.state, before.cells);
  }

  // ---------------------------------------------------------------------------------------------
  // The queues between two calls
  // ---------------------------------------------------------------------------------------------

  /** A queue that has answered for frames 0..n-1 with exactly what it now believes about them. */
  ghost predicate Settled<I>(q: Queue<I>, n: nat) {
    && IsNull(q.firstIncorrect)
    && q.lastRequested == n - 1
    && (q.guess.None? ==> n <= |q.stream|)
    && (q.guess.Some? ==> |q.stream| < n && q.guess.value == q.Last())
  }

  ghost predicate AllSettled<I>(queues: seq<Queue<I>>, n: nat) {
    forall i | 0 <= i < |queues| :: Settled(queues[i], n)
  }

  /** Fetching the next frame, or any frame right after a reset, answers with the belief and settles the queue. */
  lemma {:induction false} GetSettles<I>(q: Queue<I>, n: nat)
    requires Settled(q, n) || q == q.ResetPrediction()
    ensures var (q', r) := q.GetInput(n);
            && Settled(q', n + 1)
            && r.entry == FrameInput(n, q.Belief(n))
            && q' == q.(lastRequested := n, guess := q'.guess)
  {
  }

  ghost function BeliefMap<I>(q: Queue<I>, n: nat): map<int, I> {
    map g: int | 0 <= g < n :: q.Belief(g)
  }

  /** q is what q0, settled at n, has become while inputs kept arriving. */
  ghost predicate Grown<I>(q0: Queue<I>, q: Queue<I>, n: nat) {
    && q.Sound(BeliefMap(q0, n)) && q.Watched(BeliefMap(q0, n))
    && q.lastRequested == n - 1
    && |q0.stream| <= |q.stream|
    && (IsNull(q.firstIncorrect) || |q0.stream| <= q.firstIncorrect)
    && q.zero == q0.zero && q.discarded == q0.discarded
  }

  lemma SettledHasGrown<I>(q: Queue<I>, n: nat)
    requires Settled(q, n)
    ensures Grown(q, q, n)
  {
  }

  lemma {:induction false} PadFlagsNewFrames<I>(q: Queue<I>, frame: nat, bound: nat)
    requires bound <= |q.stream|
    requires IsNull(q.firstIncorrect) || bound <= q.firstIncorrect
    ensures var p := q.PadTo(frame); IsNull(p.firstIncorrect) || bound <= p.firstIncorrect
    decreases frame - |q.stream|
  {
    if |q.stream| < frame {
      PadFlagsNewFrames(q.Push(FrameInput(|q.stream| - 1, q.Last())), frame, bound);
    }
  }

  lemma {:induction false} AddKeepsGrown<I>(q0: Queue<I>, q: Queue<I>, n: nat, user: FrameInput<I>)
    requires Grown(q0, q, n) && !IsNull(user.frame)
    ensures Grown(q0, q.AddInput(user).0, n)
  {
    AddIsSound(q, BeliefMap(q0, n), user);
    AddInputStream(q, user);
    if |q.stream| <= user.frame + q.delay {
      PadFlagsNewFrames(q.(lastUser := user.frame), user.frame + q.delay, |q0.stream|);
    }
  }

  /** Below the first flagged frame the arrivals have changed no belief about the past; unflagged, none at all. */
  lemma {:induction false} GrownBelief<I>(q0: Queue<I>, q: Queue<I>, n: nat, g: nat)
    requires Grown(q0, q, n)
    requires g < n && (IsNull(q.firstIncorrect) || g < q.firstIncorrect)
    ensures q.Belief(g) == q0.Belief(g)
  {
    assert g in BeliefMap(q0, n);
  }

  lemma {:induction false} GrownUnflaggedIsSettled<I>(q0: Queue<I>, q: Queue<I>, n: nat)
    requires Grown(q0, q, n) && IsNull(q.firstIncorrect)
    ensures Settled(q, n)
  {
    if q.guess.None? && 0 < n {
      assert n - 1 in BeliefMap(q0, n);
    }
  }

  // ---------------------------------------------------------------------------------------------
  // Advancing
  // ---------------------------------------------------------------------------------------------

  /** What fetching a frame from every queue does, all queues settled or all just reset. */
  lemma {:induction false} FetchSettles<I>(queues: seq<Queue<I>>, n: nat)
    requires forall i | 0 <= i < |queues| :: Settled(queues[i], n) || queues[i] == queues[i].ResetPrediction()
    ensures Fetched(queues, n) == Row(queues, n)
    ensures AllSettled(Requested(queues, n), n + 1)
    ensures SameStreams(queues, Requested(queues, n))
  {
    forall i | 0 <= i < |queues|
      ensures queues[i].GetInput(n).1.entry == FrameInput(n, queues[i].Belief(n))
      ensures Settled(Requested(queues, n)[i], n + 1)
      ensures SameStream(queues[i], Requested(queues, n)[i])
    {
      GetSettles(queues[i], n);
    }
  }

  ghost predicate SameStream<I>(a: Queue<I>, b: Queue<I>) {
    b == a.(lastRequested := b.lastRequested, guess := b.guess, firstIncorrect := b.firstIncorrect)
  }

  ghost predicate SameStreams<I>(a: seq<Queue<I>>, b: seq<Queue<I>>) {
    |a| == |b| && forall i | 0 <= i < |a| :: SameStream(a[i], b[i])
  }

  lemma SameStreamsSameRows<I>(a: seq<Queue<I>>, b: seq<Queue<I>>, n: nat)
    requires SameStreams(a, b)
    ensures Rows(a, n) == Rows(b, n) && forall g: nat :: Row(a, g) == Row(b, g)
  {
    forall g: nat ensures Row(a, g) == Row(b, g) {
      forall i | 0 <= i < |a| ensures a[i].Belief(g) == b[i].Belief(g) {
        assert SameStream(a[i], b[i]);
      }
    }
  }

  /** No pending load is from one of the next `count` cells. */
  ghost predicate LoadsClear<I>(commands: seq<Command<I>>, head: nat, count: nat) {
    forall j: nat | j < CELLS && LoadsFrom(commands, j) :: count <= Ahead(j, head)
  }

  /** How many cells advancing `count` frames claims: one per frame, and frame 0 itself at the very start. */
  function Claims(frameCount: nat, count: nat): nat {
    if frameCount == 0 && 0 < count then count + 1 else count
  }

  /** The first frame a cell is claimed for when advancing. */
  function FirstClaim(frameCount: nat): nat {
    if frameCount == 0 then 0 else frameCount + 1
  }

  /** Every queue can be asked for the current frame. */
  ghost predicate Ready<S, I>(s: Sync<S, I>) {
    forall i | 0 <= i < |s.queues| :: Settled(s.queues[i], s.frameCount) || s.queues[i] == s.queues[i].ResetPrediction()
  }

  /** Slots that get claimed within the next `count` claims. */
  ghost function Claimed(head: nat, count: nat): set<nat> {
    set j: nat | j < CELLS && Ahead(j, head) < count
  }

  lemma ClaimedSplit(head: nat, a: nat, b: nat)
    requires head < CELLS && a + b <= CELLS
    ensures Claimed(head, a) + Claimed(if head + a < CELLS then head + a else head + a - CELLS, b)
         == Claimed(head, a + b)
  {
  }

  lemma {:induction false} SaveFrameKeepsPromise<S, I>(
    game: Game<S, I>, s: Sync<S, I>, commands: seq<Command<I>>, state: S, rows: seq<seq<I>>, good: set<nat>,
    count: nat)
    requires s.saved.Valid() && s.frameCount == |rows| && count < CELLS
    requires Promise(game, s.saved.cells, commands, state, rows, good)
    requires LoadsClear(commands, s.saved.head, count + 1)
    ensures var (s', issued) := s.SaveCurrentFrame();
            && Promise(game, s'.saved.cells, commands + issued, state, rows, good + {s.saved.head})
            && LoadsClear(commands + issued, s'.saved.head, count)
  {
    var (s', issued) := s.SaveCurrentFrame();
    assert Ahead(s.saved.head, s.saved.head) == 0;
    SaveKeepsPromise(game, s.saved, commands, state, rows, good);
    forall j: nat | j < CELLS && LoadsFrom(commands + issued, j)
      ensures count <= Ahead(j, s'.saved.head)
    {
      assert LoadsFrom(commands, j);
    }
  }

  /** One frame forward keeps the promise, with one more row: what all queues believe about that frame. */
  lemma {:induction false} IncrementKeepsPromise<S, I>(
    game: Game<S, I>, s: Sync<S, I>, commands: seq<Command<I>>, state: S, rows: seq<seq<I>>, good: set<nat>,
    count: nat)
    requires s.saved.Valid() && Ready(s)
    requires s.frameCount == |rows| && Claims(s.frameCount, count + 1) < CELLS
    requires Promise(game, s.saved.cells, commands, state, rows, good)
    requires LoadsClear(commands, s.saved.head, Claims(s.frameCount, count + 1))
    ensures var (s', issued) := s.IncrementFrame();
            && s'.frameCount == s.frameCount + 1 && s'.lastConfirmed == s.lastConfirmed
            && s'.saved == s.saved.PushAll(FirstClaim(s.frameCount), Claims(s.frameCount, 1))
            && AllSettled(s'.queues, s'.frameCount) && SameStreams(s.queues, s'.queues)
            && LoadsClear(commands + issued, s'.saved.head, count)
            && Promise(game, s'.saved.cells, commands + issued, state, rows + [Row(s.queues, s.frameCount)],
                       good + Claimed(s.saved.head, Claims(s.frameCount, 1)))
  {
    var n := s.frameCount;
    FetchSettles(s.queues, n);
    var (s0, first) := if n == 0 then s.SaveCurrentFrame() else (s, []);
    var good0 := if n == 0 then good + {s.saved.head} else good;
    if n == 0 {
      SaveFrameKeepsPromise(game, s, commands, state, rows, good, count + 1);
    } else {
      assert commands + first == commands;
    }
    var advance := AdvanceFrame(n, Row(s.queues, n));
    AdvanceKeepsPromise(game, s0.saved.cells, commands + first, state, rows, good0, Row(s.queues, n));
    var (s1, _) := s0.SynchronizeInputs();
    var s2 := s1.(frameCount := n + 1);
    forall j: nat | j < CELLS && LoadsFrom(commands + first + [advance], j)
      ensures count + 1 <= Ahead(j, s2.saved.head)
    {
      assert LoadsFrom(commands + first, j);
    }
    SaveFrameKeepsPromise(game, s2, commands + first + [advance], state, rows + [Row(s.queues, n)], good0, count);
    var (s', issued) := s.IncrementFrame();
    var last := s2.SaveCurrentFrame().1;
    assert issued == first + [advance] + last;
    assert commands + issued == commands + first + [advance] + last;
    FirstClaimed(s.saved, n);
    assert good + Claimed(s.saved.head, Claims(n, 1)) == good0 + {s2.saved.head};
  }

  lemma FirstClaimed<S>(saved: Saved<S>, n: nat)
    requires saved.Valid()
    ensures Claimed(saved.head, Claims(n, 1)) == if n == 0 then {saved.head, NextSlot(saved.head)} else {saved.head}
  {
    assert Ahead(saved.head, saved.head) == 0 && Ahead(NextSlot(saved.head), saved.head) == 1;
  }

  ghost function RowsFrom<I>(queues: seq<Queue<I>>, first: nat, count: nat): seq<seq<I>> {
    seq(count, k requires 0 <= k => Row(queues, first + k))
  }

  /** What fetching leaves alone, over several frames: only predictions move, and the next cells are claimed. */
  lemma {:induction false} IncrementByShape<S, I>(s: Sync<S, I>, count: nat)
    requires s.saved.Valid() && Ready(s)
    ensures var s' := s.IncrementBy(count).0;
            && s'.frameCount == s.frameCount + count && s'.lastConfirmed == s.lastConfirmed
            && s'.saved == s.saved.PushAll(FirstClaim(s.frameCount), Claims(s.frameCount, count))
            && (0 < count ==> AllSettled(s'.queues, s'.frameCount)) && SameStreams(s.queues, s'.queues)
    decreases count
  {
    if 0 < count {
      FetchSettles(s.queues, s.frameCount);
      var s1 := s.IncrementFrame().0;
      assert s1.saved == s.saved.PushAll(FirstClaim(s.frameCount), Claims(s.frameCount, 1));
      IncrementByShape(s1, count - 1);
      PushAllSplit(s.saved, FirstClaim(s.frameCount), Claims(s.frameCount, 1), count - 1);
      SameStreamsTransitive(s.queues, s1.queues, s.IncrementBy(count).0.queues);
    }
  }

  lemma SameStreamsTransitive<I>(a: seq<Queue<I>>, b: seq<Queue<I>>, c: seq<Queue<I>>)
    requires SameStreams(a, b) && SameStreams(b, c)
    ensures SameStreams(a, c)
  {
    forall i | 0 <= i < |a| ensures SameStream(a[i], c[i]) {
      assert SameStream(a[i], b[i]) && SameStream(b[i], c[i]);
    }
  }

  lemma RowsFromStep<I>(a: seq<Queue<I>>, b: seq<Queue<I>>, rows: seq<seq<I>>, n: nat, count: nat)
    requires SameStreams(a, b) && 0 < count
    ensures rows + [Row(a, n)] + RowsFrom(b, n + 1, count - 1) == rows + RowsFrom(a, n, count)
  {
    SameStreamsSameRows(a, b, 0);
  }

  lemma {:induction false} IncrementByKeepsPromise<S, I>(
    game: Game<S, I>, s: Sync<S, I>, commands: seq<Command<I>>, state: S, rows: seq<seq<I>>, good: set<nat>,
    count: nat)
    requires s.saved.Valid() && Ready(s)
    requires s.frameCount == |rows| && Claims(s.frameCount, count) < CELLS
    requires Promise(game, s.saved.cells, commands, state, rows, good)
    requires LoadsClear(commands, s.saved.head, Claims(s.frameCount, count))
    ensures var (s', issued) := s.IncrementBy(count);
            Promise(game, s'.saved.cells, commands + issued, state, rows + RowsFrom(s.queues, s.frameCount, count),
                    good + Claimed(s.saved.head, Claims(s.frameCount, count)))
    decreases count
  {
    hide *;
    if count == 0 {
      IncrementByNothing(game, s, commands, state, rows, good);
    } else {
      var n := s.frameCount;
      IncrementByUnfolds(s, count);
      ClaimsSplit(s.saved, n, count);
      IncrementKeepsPromise(game, s, commands, state, rows, good, count - 1);
      var (s1, first) := s.IncrementFrame();
      var good1 := good + Claimed(s.saved.head, Claims(n, 1));
      SettledIsReady(s1);
      IncrementByKeepsPromise(game, s1, commands + first, state, rows + [Row(s.queues, n)], good1, count - 1);
      AppendAssociates(commands, first, s1.IncrementBy(count - 1).1);
      RowsFromStep(s.queues, s1.queues, rows, n, count);
      assert good1 + Claimed(s1.saved.head, count - 1) == good + Claimed(s.saved.head, Claims(n, count));
    }
  }

  lemma IncrementByNothing<S, I>(
    game: Game<S, I>, s: Sync<S, I>, commands: seq<Command<I>>, state: S, rows: seq<seq<I>>, good: set<nat>)
    requires s.saved.Valid() && Promise(game, s.saved.cells, commands, state, rows, good)
    ensures var (s', issued) := s.IncrementBy(0);
            Promise(game, s'.saved.cells, commands + issued, state, rows + RowsFrom(s.queues, s.frameCount, 0),
                    good + Claimed(s.saved.head, Claims(s.frameCount, 0)))
  {
    hide Promise;
    assert commands + [] == commands;
    assert rows + RowsFrom(s.queues, s.frameCount, 0) == rows;
    assert good + Claimed(s.saved.head, 0) == good;
  }

  /** Advancing count frames claims the cells of the first one and then those of the rest. */
  lemma ClaimsSplit<S>(saved: Saved<S>, n: nat, count: nat)
    requires saved.Valid() && 0 < count && Claims(n, count) < CELLS
    ensures Claims(n + 1, count - 1) == count - 1 < CELLS
    ensures var next := saved.PushAll(FirstClaim(n), Claims(n, 1)).head;
            Claimed(saved.head, Claims(n, 1)) + Claimed(next, count - 1) == Claimed(saved.head, Claims(n, count))
  {
    PushAllHead(saved, FirstClaim(n), Claims(n, 1));
    ClaimedSplit(saved.head, Claims(n, 1), count - 1);
  }

  lemma IncrementByUnfolds<S, I>(s: Sync<S, I>, count: nat)
    requires s.saved.Valid() && 0 < count
    ensures var (s1, first) := s.IncrementFrame();
            var (s', rest) := s1.IncrementBy(count - 1);
            s1.saved.Valid() && s.IncrementBy(count) == (s', first + rest)
  {
  }

  lemma SettledIsReady<S, I>(s: Sync<S, I>)
    requires AllSettled(s.queues, s.frameCount)
    ensures Ready(s)
  {
  }

  // ---------------------------------------------------------------------------------------------
  // Rolling back
  // ---------------------------------------------------------------------------------------------

  /** Every cell that is for a frame. */
  ghost function Filled<S>(cells: seq<Cell<S>>): set<nat> {
    set j: nat | j < |cells| && !IsNull(cells[j].frame)
  }

  /** The cells that stay valid when the simulation goes back to frame e. */
  ghost function Kept<S>(cells: seq<Cell<S>>, e: nat): set<nat> {
    set j: nat | j < |cells| && 0 <= cells[j].frame <= e
  }

  ghost predicate AllGrown<I>(before: seq<Queue<I>>, after: seq<Queue<I>>, n: nat) {
    |before| == |after| && forall i | 0 <= i < |after| :: Grown(before[i], after[i], n)
  }

  /** The ring once n frames have been played. */
  ghost predicate RingShape<S>(saved: Saved<S>, n: nat) {
    if n == 0 then Blank(saved) else Layout(saved, n, 0) || Layout(saved, n, 1)
  }

  /** A flagged frame has been played, and lies in the part of the past the arrivals have touched. */
  lemma FlaggedFrameWasPlayed<I>(before: seq<Queue<I>>, after: seq<Queue<I>>, n: nat)
    requires AllGrown(before, after, n)
    ensures var e := FirstIncorrect(after);
            e.Some? ==> e.value < n && exists i | 0 <= i < |before| :: |before[i].stream| <= e.value
  {
  }

  /** Up to the first flagged frame, the arrivals have changed nothing the past was played with. */
  lemma RowsBeforeError<I>(before: seq<Queue<I>>, after: seq<Queue<I>>, n: nat, e: nat)
    requires AllGrown(before, after, n) && e <= n
    requires FirstIncorrect(after).Some? ==> e <= FirstIncorrect(after).value
    ensures Rows(before, n)[..e] == Rows(after, e)
  {
    forall g: nat | g < e
      ensures Row(before, g) == Row(after, g)
    {
      forall i | 0 <= i < |before| ensures before[i].Belief(g) == after[i].Belief(g) {
        GrownBelief(before[i], after[i], n, g);
      }
    }
  }

  /** The simulation check can load the frame it goes back to. */
  lemma FlaggedFrameIsFound<S, I>(s: Sync<S, I>, before: seq<Queue<I>>)
    requires RingShape(s.saved, s.frameCount) && AllGrown(before, s.queues, s.frameCount)
    requires var e := FirstIncorrect(s.queues); e.Some? ==> s.frameCount <= e.value + MAX_PREDICTION_FRAMES
    ensures var e := FirstIncorrect(s.queues); e.Some? ==> e.value < s.frameCount && s.HasFrame(e.value)
  {
    FlaggedFrameWasPlayed(before, s.queues, s.frameCount);
    var e := FirstIncorrect(s.queues);
    if e.Some? {
      WindowFrameIsFound(s.saved, s.frameCount, if Layout(s.saved, s.frameCount, 0) then 0 else 1, e.value);
    }
  }

  lemma {:induction false} PromiseFewer<S, I>(
    game: Game<S, I>, cells: seq<Cell<S>>, commands: seq<Command<I>>, state: S, rows: seq<seq<I>>,
    good: set<nat>, fewer: set<nat>)
    requires Promise(game, cells, commands, state, rows, good) && fewer <= good
    ensures Promise(game, cells, commands, state, rows, fewer)
  {
  }

  /** Going back to frame e: the state of frame e is loaded, and only frames up to e are still vouched for. */
  lemma {:induction false} LoadFrameKeepsPromise<S, I>(
    game: Game<S, I>, s: Sync<S, I>, before: seq<Queue<I>>, commands: seq<Command<I>>, state: S, shift: nat, e: nat)
    requires Layout(s.saved, s.frameCount, shift) && AllGrown(before, s.queues, s.frameCount)
    requires FirstIncorrect(s.queues) == Some(e) && e < s.frameCount <= e + MAX_PREDICTION_FRAMES
    requires Promise(game, s.saved.cells, commands, state, Rows(before, s.frameCount), Filled(s.saved.cells))
    requires forall j: nat :: !LoadsFrom(commands, j)
    ensures s.HasFrame(e)
    ensures var (s0, load) := s.LoadFrame(e);
            var slot := LoadSlot(s.frameCount, s.saved.head, e);
            && s0 == s.(saved := s.saved.(head := NextSlot(slot)), frameCount := e)
            && Promise(game, s0.saved.cells, commands + load, state, Rows(s.queues, e), Kept(s.saved.cells, e))
            && LoadsClear(commands + load, s0.saved.head, Claims(e, s.frameCount - e))
  {
    var n := s.frameCount;
    WindowFrameIsFound(s.saved, n, shift, e);
    var slot := LoadSlot(n, s.saved.head, e);
    var (s0, load) := s.LoadFrame(e);
    assert load == [Load(slot)];
    LoadKeepsPromise(game, s.saved.cells, commands, state, Rows(before, n), Filled(s.saved.cells), slot,
                     Kept(s.saved.cells, e));
    RowsBeforeError(before, s.queues, n, e);
    forall j: nat | j < CELLS && LoadsFrom(commands + load, j)
      ensures Claims(e, n - e) <= Ahead(j, s0.saved.head)
    {
      assert !LoadsFrom(commands, j);
      assert j == slot;
    }
  }

  /** What a rollback does to the engine: every queue settled again on an unchanged stream, and the ring in shape. */
  lemma {:induction false} AdjustShape<S, I>(s: Sync<S, I>, shift: nat, e: nat)
    requires Layout(s.saved, s.frameCount, shift)
    requires e < s.frameCount <= e + MAX_PREDICTION_FRAMES && s.HasFrame(e)
    ensures var s' := s.AdjustSimulation(e).0;
            && s'.frameCount == s.frameCount && s'.lastConfirmed == s.lastConfirmed
            && SameStreams(s.queues, s'.queues) && AllSettled(s'.queues, s'.frameCount)
            && RingShape(s'.saved, s'.frameCount)
  {
    WindowFrameIsFound(s.saved, s.frameCount, shift, e);
    var s1 := s.LoadFrame(e).0.ResetPrediction();
    LoadFrameShape(s, e);
    AdjustUnfolds(s, e);
    ReloadKeepsLayout(s.saved, s.frameCount, shift, e);
    ReloadedShape(s.saved, s.frameCount, shift, e);
    hide *;
    IncrementByShape(s1, s.frameCount - e);
    SameStreamsTransitive(s.queues, s1.queues, s.AdjustSimulation(e).0.queues);
  }

  /** Going back to frame e, before playing forward again. */
  lemma LoadFrameShape<S, I>(s: Sync<S, I>, e: nat)
    requires s.saved.Valid() && e < s.frameCount && s.HasFrame(e)
    ensures var s1 := s.LoadFrame(e).0.ResetPrediction();
            && s1.saved == s.saved.(head := NextSlot(FindIndex(s.saved.cells, e).value)) && s1.saved.Valid()
            && s1.frameCount == e && s1.lastConfirmed == s.lastConfirmed
            && Ready(s1) && SameStreams(s.queues, s1.queues)
  {
  }

  lemma ResetShape<S, I>(s: Sync<S, I>)
    requires |s.saved.cells| == CELLS && s.saved.head < CELLS
    ensures var r := s.ResetPrediction();
            && r == s.(queues := r.queues) && r.saved.Valid()
            && Ready(r) && SameStreams(s.queues, r.queues)
  {
  }

  /** Claiming cells for the frames from e to n again is what reloading does to the ring. */
  lemma ReloadedShape<S>(saved: Saved<S>, n: nat, shift: nat, e: nat)
    requires Layout(saved, n, shift) && e < n <= e + MAX_PREDICTION_FRAMES
    ensures var slot := LoadSlot(n, saved.head, e);
            saved.(head := NextSlot(slot)).PushAll(FirstClaim(e), Claims(e, n - e)) == Reloaded(saved, n, e, slot)
    ensures forall after: Saved<S>, shift': nat | shift' <= 1 && Layout(after, n, shift') :: RingShape(after, n)
    ensures Claims(e, n - e) < CELLS
  {
  }

  /**
   A rollback to the first flagged frame. Whatever has arrived since the queues were settled, the commands issued make
   the client hold the replay of everything now believed, and every cell the state of the frame it is for.
   */
  lemma {:induction false} AdjustKeepsPromise<S, I>(
    game: Game<S, I>, s: Sync<S, I>, before: seq<Queue<I>>, commands: seq<Command<I>>, state: S, shift: nat, e: nat)
    requires Layout(s.saved, s.frameCount, shift) && AllGrown(before, s.queues, s.frameCount)
    requires FirstIncorrect(s.queues) == Some(e) && e < s.frameCount <= e + MAX_PREDICTION_FRAMES && s.HasFrame(e)
    requires Promise(game, s.saved.cells, commands, state, Rows(before, s.frameCount), Filled(s.saved.cells))
    requires forall j: nat :: !LoadsFrom(commands, j)
    ensures var (s', issued) := s.AdjustSimulation(e);
            Promise(game, s'.saved.cells, commands + issued, state, Rows(s'.queues, s.frameCount),
                    Filled(s'.saved.cells))
  {
    LoadFrameKeepsPromise(game, s, before, commands, state, shift, e);
    var (s0, load) := s.LoadFrame(e);
    var s1 := s0.ResetPrediction();
    AdjustUnfolds(s, e);
    ReplayKeepsPromise(game, s, s1, commands + load, state, shift, e);
    AppendAssociates(commands, load, s1.IncrementBy(s.frameCount - e).1);
  }

  /** Playing forward again from the loaded frame, with every queue reset. */
  lemma {:induction false} ReplayKeepsPromise<S, I>(
    game: Game<S, I>, s: Sync<S, I>, s1: Sync<S, I>, commands: seq<Command<I>>, state: S, shift: nat, e: nat)
    requires Layout(s.saved, s.frameCount, shift) && e < s.frameCount <= e + MAX_PREDICTION_FRAMES
    requires var slot := LoadSlot(s.frameCount, s.saved.head, e);
             s1 == s.(saved := s.saved.(head := NextSlot(slot)), frameCount := e).ResetPrediction()
    requires Promise(game, s1.saved.cells, commands, state, Rows(s.queues, e), Kept(s.saved.cells, e))
    requires LoadsClear(commands, s1.saved.head, Claims(e, s.frameCount - e))
    ensures var (s', rest) := s1.IncrementBy(s.frameCount - e);
            && s'.saved == Reloaded(s.saved, s.frameCount, e, LoadSlot(s.frameCount, s.saved.head, e))
            && Promise(game, s'.saved.cells, commands + rest, state, Rows(s'.queues, s.frameCount),
                       Filled(s'.saved.cells))
  {
    var n := s.frameCount;
    assert s.saved.Valid() && |Rows(s.queues, e)| == e;
    hide *;
    ReloadedShape(s.saved, n, shift, e);
    ResetShape(s.(saved := s.saved.(head := NextSlot(LoadSlot(n, s.saved.head, e))), frameCount := e));
    var (s', rest) := s1.IncrementBy(n - e);
    IncrementByShape(s1, n - e);
    IncrementByKeepsPromise(game, s1, commands, state, Rows(s.queues, e), Kept(s.saved.cells, e), n - e);
    SameStreamsTransitive(s.queues, s1.queues, s'.queues);
    ReplayedRows(s.queues, s1.queues, s'.queues, e, n);
    ReloadedFilled(s.saved, n, shift, e);
    PromiseFewer(game, s'.saved.cells, commands + rest, state, Rows(s'.queues, n),
                 Kept(s.saved.cells, e) + Claimed(s1.saved.head, Claims(e, n - e)), Filled(s'.saved.cells));
  }

  lemma ReplayedRows<I>(a: seq<Queue<I>>, b: seq<Queue<I>>, c: seq<Queue<I>>, e: nat, n: nat)
    requires SameStreams(a, b) && SameStreams(a, c) && e <= n
    ensures Rows(a, e) + RowsFrom(b, e, n - e) == Rows(c, n)
  {
    SameStreamsSameRows(a, b, n);
    SameStreamsSameRows(a, c, n);
    forall g: nat | g < n
      ensures (Rows(a, e) + RowsFrom(b, e, n - e))[g] == Row(c, g)
    {
    }
  }

  /** After a rollback every filled cell has been claimed again or was for a frame up to e. */
  lemma {:induction false} ReloadedFilled<S>(saved: Saved<S>, n: nat, shift: nat, e: nat)
    requires Layout(saved, n, shift)
    requires e < n <= e + MAX_PREDICTION_FRAMES
    ensures var slot := LoadSlot(n, saved.head, e);
            Filled(Reloaded(saved, n, e, slot).cells)
            <= Kept(saved.cells, e) + Claimed(NextSlot(slot), Claims(e, n - e))
  {
    var slot := LoadSlot(n, saved.head, e);
    var after := Reloaded(saved, n, e, slot);
    forall j | j in Filled(after.cells)
      ensures j in Kept(saved.cells, e) + Claimed(NextSlot(slot), Claims(e, n - e))
    {
      if e == 0 {
        ReloadedSlotFromStart(saved, n, shift, j);
      } else {
        ReloadedSlot(saved, n, shift, e, j);
      }
    }
  }

  /** The simulation check as a whole, flagged or not. */
  lemma {:induction false} CheckShape<S, I>(s: Sync<S, I>, before: seq<Queue<I>>)
    requires RingShape(s.saved, s.frameCount) && AllGrown(before, s.queues, s.frameCount)
    requires var e := FirstIncorrect(s.queues);
             e.Some? ==> e.value < s.frameCount <= e.value + MAX_PREDICTION_FRAMES && s.HasFrame(e.value)
    ensures var s' := s.CheckSimulation().0;
            && s'.frameCount == s.frameCount && s'.lastConfirmed == s.lastConfirmed
            && SameStreams(s.queues, s'.queues) && AllSettled(s'.queues, s'.frameCount)
            && RingShape(s'.saved, s'.frameCount)
  {
    match FirstIncorrect(s.queues) {
      case None =>
        forall i | 0 <= i < |s.queues| ensures Settled(s.queues[i], s.frameCount) {
          GrownUnflaggedIsSettled(before[i], s.queues[i], s.frameCount);
        }
      case Some(e) =>
        AdjustShape(s, if Layout(s.saved, s.frameCount, 0) then 0 else 1, e);
    }
  }

  /** Afterwards the client is promised the replay. */
  lemma {:induction false} CheckKeepsPromise<S, I>(
    game: Game<S, I>, s: Sync<S, I>, before: seq<Queue<I>>, commands: seq<Command<I>>, state: S)
    requires RingShape(s.saved, s.frameCount) && AllGrown(before, s.queues, s.frameCount)
    requires var e := FirstIncorrect(s.queues);
             e.Some? ==> e.value < s.frameCount <= e.value + MAX_PREDICTION_FRAMES && s.HasFrame(e.value)
    requires Promise(game, s.saved.cells, commands, state, Rows(before, s.frameCount), Filled(s.saved.cells))
    requires forall j: nat :: !LoadsFrom(commands, j)
    ensures var (s', issued) := s.CheckSimulation();
            Promise(game, s'.saved.cells, commands + issued, state, Rows(s'.queues, s.frameCount),
                    Filled(s'.saved.cells))
  {
    var n := s.frameCount;
    match FirstIncorrect(s.queues) {
      case None =>
        RowsBeforeError(before, s.queues, n, n);
        assert Rows(before, n)[..n] == Rows(before, n);
        assert commands + s.CheckSimulation().1 == commands;
      case Some(e) =>
        AdjustKeepsPromise(game, s, before, commands, state, if Layout(s.saved, n, 0) then 0 else 1, e);
    }
  }
}
