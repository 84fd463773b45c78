/** The commands of a batch, one by one: what is issued when frames are played, and when the simulation goes back. */
module Batches {
  import opened Frames
  import opened QueueModel
  import opened SyncModel
  import opened SavedRing
  import opened Rollback

  /** Two commands, at position 2 * k behind `at`, that play frame n + k with these inputs and save the one after it. */
  ghost predicate PlaysAndSaves<I>(
    issued: seq<Command<I>>, at: nat, queues: seq<Queue<I>>, head: nat, n: nat, k: nat)
  {
    && at + 2 * k + 1 < |issued|
    && issued[at + 2 * k] == AdvanceFrame(n + k, Row(queues, n + k))
    && issued[at + 2 * k + 1] == Save((head + k) % CELLS, n + k + 1)
  }

  /** The same for `count` frames from n on; the cells saved to follow one another in the ring, from `head` on. */
  ghost predicate Plays<I>(issued: seq<Command<I>>, at: nat, queues: seq<Queue<I>>, head: nat, n: nat, count: nat) {
    && |issued| == at + 2 * count
    && forall k | 0 <= k < count :: PlaysAndSaves(issued, at, queues, head, n, k)
  }

  /** Behind a prefix, with queues of the same streams and the same place in the ring. */
  lemma PlaysBehind<I>(
    prefix: seq<Command<I>>, rest: seq<Command<I>>, at: nat, a: seq<Queue<I>>, b: seq<Queue<I>>, head: nat, head': nat,
    n: nat, count: nat)
    requires Plays(rest, at, a, head, n, count) && SameStreams(b, a) && head % CELLS == head' % CELLS
    ensures Plays(prefix + rest, |prefix| + at, b, head', n, count)
  {
    var (issued, behind) := (prefix + rest, |prefix| + at);
    SameStreamsSameRows(b, a, 0);
    hide SameStreams, Row;
    forall k | 0 <= k < count ensures PlaysAndSaves(issued, behind, b, head', n, k) {
      assert PlaysAndSaves(rest, at, a, head, n, k);
      assert issued[|prefix| + (at + 2 * k)] == rest[at + 2 * k];
      assert issued[|prefix| + (at + 2 * k + 1)] == rest[at + 2 * k + 1];
      assert Row(a, n + k) == Row(b, n + k);
      SamePlace(head, head', k);
    }
  }

  lemma SamePlace(head: nat, head': nat, k: nat)
    requires head % CELLS == head' % CELLS
    ensures (head + k) % CELLS == (head' + k) % CELLS
  {
  }

  /** One frame more in front. */
  lemma PlaysOneMore<I>(issued: seq<Command<I>>, at: nat, queues: seq<Queue<I>>, head: nat, n: nat, count: nat)
    requires Plays(issued, at + 2, queues, head + 1, n + 1, count)
    requires issued[at] == AdvanceFrame(n, Row(queues, n)) && issued[at + 1] == Save(head % CELLS, n + 1)
    ensures Plays(issued, at, queues, head, n, count + 1)
  {
    forall k | 0 <= k < count + 1 ensures PlaysAndSaves(issued, at, queues, head, n, k) {
      if 0 < k {
        assert PlaysAndSaves(issued, at + 2, queues, head + 1, n + 1, k - 1);
      }
    }
  }

  /** One frame. */
  lemma FrameIssues<S, I>(s: Sync<S, I>)
    requires s.saved.Valid() && Ready(s)
    ensures var (s1, issued) := s.IncrementFrame();
            var (n, head) := (s.frameCount, s.saved.head);
            && s1.saved.Valid() && Ready(s1) && SameStreams(s1.queues, s.queues) && SameStreams(s.queues, s1.queues)
            && s1.frameCount == n + 1
            && (if n == 0 then
                  && s1.saved.head % CELLS == (head + 2) % CELLS
                  && issued == [Save(head, 0), AdvanceFrame(n, Row(s.queues, n)), Save((head + 1) % CELLS, n + 1)]
                else
                  && s1.saved.head % CELLS == (head + 1) % CELLS
                  && issued == [AdvanceFrame(n, Row(s.queues, n)), Save(head, n + 1)])
  {
    FetchSettles(s.queues, s.frameCount);
    var s1 := s.IncrementFrame().0;
    forall i | 0 <= i < |s.queues| ensures SameStream(s1.queues[i], s.queues[i]) {
      assert SameStream(s.queues[i], s1.queues[i]);
    }
  }

  lemma HeadIsSlot<S, I>(s: Sync<S, I>)
    requires s.saved.Valid()
    ensures s.saved.head % CELLS == s.saved.head
  {
  }

  lemma NoPlays<S, I>(s: Sync<S, I>)
    requires s.saved.Valid()
    ensures Plays(s.IncrementBy(0).1, 0, s.queues, s.saved.head, s.frameCount, 0)
  {
  }

  /** Playing on: every frame is advanced once, in order, and the frame it leads to is saved to the next cell. */
  lemma {:induction false} PlayIssues<S, I>(s: Sync<S, I>, count: nat)
    requires s.saved.Valid() && Ready(s) && 0 < s.frameCount
    ensures Plays(s.IncrementBy(count).1, 0, s.queues, s.saved.head, s.frameCount, count)
    decreases count
  {
    hide *;
    if count == 0 {
      NoPlays(s);
    } else {
      var (n, head) := (s.frameCount, s.saved.head);
      FrameIssues(s);
      HeadIsSlot(s);
      IncrementByUnfolds(s, count);
      var (s1, first) := s.IncrementFrame();
      PlayIssues(s1, count - 1);
      var rest := s1.IncrementBy(count - 1).1;
      PlaysBehind(first, rest, 0, s1.queues, s.queues, s1.saved.head, head + 1, n + 1, count - 1);
      PlaysOneMore(first + rest, 0, s.queues, head, n, count - 1);
    }
  }

  /** From the start, frame 0 itself is saved first. */
  lemma {:induction false} FirstPlayIssues<S, I>(s: Sync<S, I>, count: nat)
    requires s.saved.Valid() && Ready(s) && s.frameCount == 0 && 0 < count
    ensures var issued := s.IncrementBy(count).1;
            Plays(issued, 1, s.queues, s.saved.head + 1, 0, count) && issued[0] == Save(s.saved.head, 0)
  {
    hide *;
    var head := s.saved.head;
    FrameIssues(s);
    IncrementByUnfolds(s, count);
    var (s1, first) := s.IncrementFrame();
    PlayIssues(s1, count - 1);
    var rest := s1.IncrementBy(count - 1).1;
    PlaysBehind(first, rest, 0, s1.queues, s.queues, s1.saved.head, head + 2, 1, count - 1);
    PlaysOneMore(first + rest, 1, s.queues, head + 1, 0, count - 1);
    PlaysLength(first + rest, 1, s.queues, head + 1, 0, count);
  }

  lemma PlaysLength<I>(issued: seq<Command<I>>, at: nat, queues: seq<Queue<I>>, head: nat, n: nat, count: nat)
    requires Plays(issued, at, queues, head, n, count)
    ensures |issued| == at + 2 * count
  {
  }

  /**
   A rollback to frame e, command by command: the state of frame e is loaded, from a cell for that frame; and then every
   frame from e to the current one is played again with what is now believed, each of its successors being saved to the
   next cell. Going back to the start saves frame 0 a second time.
   */
  lemma {:induction false} RollbackIssues<S, I>(s: Sync<S, I>, e: nat)
    requires s.saved.Valid() && e < s.frameCount && s.HasFrame(e)
    ensures var issued := s.AdjustSimulation(e).1;
            && 0 < |issued| && issued[0].Load?
            && var slot := issued[0].slot;
               && slot < CELLS && s.saved.cells[slot].frame == e
               && if e == 0 then
                    Plays(issued, 2, s.queues, slot + 2, 0, s.frameCount) && issued[1] == Save((slot + 1) % CELLS, 0)
                  else
                    Plays(issued, 1, s.queues, slot + 1, e, s.frameCount - e)
  {
    hide *;
    var s1, slot, load := Reloads(s, e);
    var rest := s1.IncrementBy(s.frameCount - e).1;
    if e == 0 {
      FirstPlayIssues(s1, s.frameCount);
      PlaysBehind(load, rest, 1, s1.queues, s.queues, s1.saved.head + 1, slot + 2, 0, s.frameCount);
    } else {
      PlayIssues(s1, s.frameCount - e);
      PlaysBehind(load, rest, 0, s1.queues, s.queues, s1.saved.head, slot + 1, e, s.frameCount - e);
    }
  }

  /** Going back, before playing forward again. */
  lemma Reloads<S, I>(s: Sync<S, I>, e: nat)
    returns (s1: Sync<S, I>, slot: nat, load: seq<Command<I>>)
    requires s.saved.Valid() && e < s.frameCount && s.HasFrame(e)
    ensures s1.saved.Valid() && Ready(s1) && s1.frameCount == e
    ensures SameStreams(s.queues, s1.queues) && SameStreams(s1.queues, s.queues)
    ensures slot < CELLS && s.saved.cells[slot].frame == e && s1.saved.head == (slot + 1) % CELLS
    ensures (s1.saved.head + 1) % CELLS == (slot + 2) % CELLS && s1.saved.head % CELLS == (slot + 1) % CELLS
    ensures load == [Load(slot)]
    ensures s.AdjustSimulation(e).1 == load + s1.IncrementBy(s.frameCount - e).1
  {
    LoadFrameShape(s, e);
    s1, slot := s.LoadFrame(e).0.ResetPrediction(), FindIndex(s.saved.cells, e).value;
    load := [Load(slot)];
    AdjustUnfolds(s, e);
    forall i | 0 <= i < |s.queues| ensures SameStream(s1.queues[i], s.queues[i]) {
      assert SameStream(s.queues[i], s1.queues[i]);
    }
  }

  // ---------------------------------------------------------------------------------------------
  // The client
  // ---------------------------------------------------------------------------------------------

  /** Command k cannot be run: it loads from a cell that nothing has been saved to, or saves to one for no frame. */
  ghost predicate Fails<S, I>(commands: seq<Command<I>>, k: nat, cells: seq<Cell<S>>)
    requires k < |commands|
  {
    match commands[k]
    case Load(slot) =>
      |cells| <= slot
      || (cells[slot].data.None? && forall j | 0 <= j < k :: !(commands[j].Save? && commands[j].slot == slot))
    case Save(slot, _) => |cells| <= slot || IsNull(cells[slot].frame)
    case _ => false
  }

  /** The client gets through a batch exactly when none of its commands fails. */
  lemma {:induction false} CrashesIff<S, I>(
    game: Game<S, I>, commands: seq<Command<I>>, state: S, cells: seq<Cell<S>>)
    ensures ExecuteAll(game, commands, state, cells).Crashed? <==>
            exists k | 0 <= k < |commands| :: Fails(commands, k, cells)
    decreases |commands|
  {
    if commands != [] {
      var (rest, first) := (commands[1..], Execute(game, commands[0], state, cells));
      assert first.Crashed? <==> Fails(commands, 0, cells);
      if first.Ran? {
        CrashesIff(game, rest, first.state, first.cells);
        forall k | 0 <= k < |rest| ensures Fails(rest, k, first.cells) <==> Fails(commands, k + 1, cells) {
          FailsLater(game, commands, k, state, cells);
        }
        if k :| 0 <= k < |commands| && Fails(commands, k, cells) {
          assert Fails(rest, k - 1, first.cells);
        }
      }
    }
  }

  lemma FailsLater<S, I>(game: Game<S, I>, commands: seq<Command<I>>, k: nat, state: S, cells: seq<Cell<S>>)
    requires k + 1 < |commands|
    requires Execute(game, commands[0], state, cells).Ran?
    ensures Fails(commands[1..], k, Execute(game, commands[0], state, cells).cells) <==> Fails(commands, k + 1, cells)
  {
    var rest := commands[1..];
    assert rest[k] == commands[k + 1];
    if commands[k + 1].Load? {
      var slot := commands[k + 1].slot;
      assert (forall j | 0 <= j < k + 1 :: !(commands[j].Save? && commands[j].slot == slot)) <==>
             (!(commands[0].Save? && commands[0].slot == slot)
              && forall j | 0 <= j < k :: !(rest[j].Save? && rest[j].slot == slot)) by {
        assert forall j | 0 <= j < k :: rest[j] == commands[j + 1];
        assert forall j | 1 <= j < k + 1 :: commands[j] == rest[j - 1];
      }
    }
  }

  /** What a client holds at the end of a batch: its saves, in the state each was made in, on top of what was there. */
  lemma {:induction false} SavedIsRestored<S, I>(
    game: Game<S, I>, state: S, cells: seq<Cell<S>>, slot: nat, frame: nat, between: seq<Command<I>>)
    requires slot < |cells| && !IsNull(cells[slot].frame)
    requires forall c | c in between :: !c.Save? || c.slot != slot
    requires ExecuteAll(game, between, state, cells[slot := cells[slot].(data := Some(state))]).Ran?
    ensures var outcome := ExecuteAll(game, [Save(slot, frame)] + between + [Load(slot)], state, cells);
            outcome.Ran? && outcome.state == state
  {
    var saved := cells[slot := cells[slot].(data := Some(state))];
    var start := [Save(slot, frame)] + between;
    assert start[1..] == between;
    assert ExecuteAll(game, start, state, cells) == ExecuteAll(game, between, state, saved);
    ExecuteAppend(game, start, [Load(slot)], state, cells);
    OthersKeepCell(game, between, state, saved, slot);
    var mid := ExecuteAll(game, between, state, saved);
    var last: seq<Command<I>> := [Load(slot)];
    assert last[1..] == [];
  }

  lemma {:induction false} OthersKeepCell<S, I>(
    game: Game<S, I>, commands: seq<Command<I>>, state: S, cells: seq<Cell<S>>, slot: nat)
    requires slot < |cells| && forall c | c in commands :: !c.Save? || c.slot != slot
    ensures var outcome := ExecuteAll(game, commands, state, cells);
            outcome.Ran? ==> slot < |outcome.cells| && outcome.cells[slot] == cells[slot]
    decreases |commands|
  {
    if commands != [] {
      assert commands[0] in commands && forall c | c in commands[1..] :: c in commands;
      var next := Execute(game, commands[0], state, cells);
      if next.Ran? {
        OthersKeepCell(game, commands[1..], next.state, next.cells, slot);
      }
    }
  }
}
