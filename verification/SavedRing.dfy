/**
 The shape of the ring of saved states: the last frames sit in consecutive cells behind the head, and until it wraps
 frame k is `k + shift` cells from the start. The shift is 0 until frame 0 is saved a second time.
 */
module SavedRing {
  import opened Frames
  import opened SyncModel

  /** How many cells slot j lies behind the head, minus one: 0 for the cell claimed last. */
  function Behind(j: int, head: nat): int {
    if j < head then head - 1 - j else head - 1 - j + CELLS
  }

  /** How many cells slot j lies ahead of the head: 0 for the cell to be claimed next. */
  function Ahead(j: int, head: nat): int {
    if head <= j then j - head else j + CELLS - head
  }

  /** The slot that holds the frame claimed d claims before the last one. */
  function SlotBehind(d: nat, head: nat): (j: nat)
    requires d < CELLS && head < CELLS
    ensures j < CELLS && Behind(j, head) == d
  {
    if d < head then head - 1 - d else head - 1 - d + CELLS
  }

  /** The frame slot j is for once frames 0..n have been saved. */
  function FrameAt(n: nat, shift: nat, head: nat, j: int): int {
    var k := n - Behind(j, head);
    if 0 <= k then k
    else if shift == 1 && j == 0 then 0  // the first copy of frame 0
    else NULL_FRAME
  }

  ghost predicate Layout<S>(saved: Saved<S>, n: nat, shift: nat) {
    && saved.Valid()
    && shift <= 1
    && (n + 1 + shift < CELLS ==> saved.head == n + 1 + shift)
    && (n + 1 + shift == CELLS ==> saved.head == 0)
    && forall j | 0 <= j < CELLS :: saved.cells[j].frame == FrameAt(n, shift, saved.head, j)
  }

  ghost predicate Blank<S>(saved: Saved<S>) {
    saved.Valid() && saved.head == 0 && forall j | 0 <= j < CELLS :: saved.cells[j].frame == NULL_FRAME
  }

  lemma {:induction false} LayoutFirst<S>(saved: Saved<S>)
    requires Blank(saved)
    ensures Layout(saved.Push(0), 0, 0)
  {
  }

  lemma {:induction false} LayoutNext<S>(saved: Saved<S>, n: nat, shift: nat)
    requires Layout(saved, n, shift)
    ensures Layout(saved.Push(n + 1), n + 1, shift)
  {
  }

  /** Claiming `count` cells fills exactly the next `count` slots, in order. */
  lemma {:induction false} PushAllCell<S>(saved: Saved<S>, first: nat, count: nat, j: nat)
    requires saved.Valid() && count <= CELLS && j < CELLS
    ensures var after := saved.PushAll(first, count);
            after.cells[j] == if Ahead(j, saved.head) < count then Cell(first + Ahead(j, saved.head), None)
                              else saved.cells[j]
    decreases count
  {
    if 0 < count {
      PushAllCell(saved.Push(first), first + 1, count - 1, j);
      assert j != saved.head ==> Ahead(j, saved.Push(first).head) == Ahead(j, saved.head) - 1;
      assert j == saved.head ==> Ahead(j, saved.Push(first).head) == CELLS - 1;
    }
  }

  lemma {:induction false} PushAllHead<S>(saved: Saved<S>, first: nat, count: nat)
    requires saved.Valid() && count <= CELLS
    ensures saved.PushAll(first, count).head ==
            if saved.head + count < CELLS then saved.head + count else saved.head + count - CELLS
    decreases count
  {
    if 0 < count {
      PushAllHead(saved.Push(first), first + 1, count - 1);
    }
  }

  lemma {:induction false} PushAllSplit<S>(saved: Saved<S>, first: nat, a: nat, b: nat)
    requires saved.Valid()
    ensures saved.PushAll(first, a + b) == saved.PushAll(first, a).PushAll(first + a, b)
    decreases a
  {
    if 0 < a {
      PushAllSplit(saved.Push(first), first + 1, a - 1, b);
    }
  }

  /** The slot a rollback loads frame e from, and what is claimed on the way back to frame n. */
  function LoadSlot(n: nat, head: nat, e: nat): (j: nat)
    requires head < CELLS && e <= n < e + CELLS
    ensures j < CELLS
  {
    if e == 0 then 0 else SlotBehind(n - e, head)
  }

  function Reloaded<S>(saved: Saved<S>, n: nat, e: nat, slot: nat): (r: Saved<S>)
    requires saved.Valid() && e < n && slot < CELLS
    ensures r.Valid()
  {
    var loaded := saved.(head := NextSlot(slot));
    if e == 0 then loaded.PushAll(0, n + 1) else loaded.PushAll(e + 1, n - e)
  }

  /** A frame in the window is found, and found in the cell that its successors follow. */
  lemma {:induction false} WindowFrameIsFound<S>(saved: Saved<S>, n: nat, shift: nat, e: nat)
    requires Layout(saved, n, shift)
    requires e <= n <= e + MAX_PREDICTION_FRAMES
    ensures FindIndex(saved.cells, e) == Some(LoadSlot(n, saved.head, e))
  {
    assert saved.cells[LoadSlot(n, saved.head, e)].frame == e;
  }

  /** Going back d claims and claiming d cells again returns to the same head, over the same cells. */
  lemma BackAndForth(head: nat, d: nat, j: nat)
    requires head < CELLS && d < CELLS && j < CELLS
    ensures var h := NextSlot(SlotBehind(d, head));
            && (if h + d < CELLS then h + d else h + d - CELLS) == head
            && (Ahead(j, h) < d <==> Behind(j, head) < d)
            && (Ahead(j, h) < d ==> Ahead(j, h) == d - 1 - Behind(j, head))
  {
  }

  /** One slot after a rollback: its frame follows the layout, and it is claimed again or was for a frame up to e. */
  lemma {:induction false} ReloadedSlot<S>(saved: Saved<S>, n: nat, shift: nat, e: nat, j: nat)
    requires Layout(saved, n, shift) && j < CELLS
    requires 0 < e < n <= e + MAX_PREDICTION_FRAMES
    ensures var slot := LoadSlot(n, saved.head, e);
            var after := Reloaded(saved, n, e, slot);
            && after.head == saved.head
            && after.cells[j].frame == FrameAt(n, shift, after.head, j)
            && (Ahead(j, NextSlot(slot)) < n - e || (after.cells[j] == saved.cells[j] && saved.cells[j].frame <= e))
  {
    BackAndForth(saved.head, n - e, j);
    var loaded := saved.(head := NextSlot(LoadSlot(n, saved.head, e)));
    PushAllHead(loaded, e + 1, n - e);
    PushAllCell(loaded, e + 1, n - e, j);
  }

  lemma {:induction false} ReloadedSlotFromStart<S>(saved: Saved<S>, n: nat, shift: nat, j: nat)
    requires Layout(saved, n, shift) && j < CELLS
    requires 0 < n <= MAX_PREDICTION_FRAMES
    ensures var after := Reloaded(saved, n, 0, 0);
            && after.head == (if n + 2 == CELLS then 0 else n + 2)
            && after.cells[j].frame == FrameAt(n, 1, after.head, j)
            && (Ahead(j, 1) < n + 1 || (after.cells[j] == saved.cells[j] && saved.cells[j].frame <= 0))
  {
    PushAllHead(saved.(head := 1), 0, n + 1);
    PushAllCell(saved.(head := 1), 0, n + 1, j);
  }

  /** Rolling back leaves the ring in shape, with one more shift if frame 0 was the target. */
  lemma {:induction false} ReloadKeepsLayout<S>(saved: Saved<S>, n: nat, shift: nat, e: nat)
    requires Layout(saved, n, shift)
    requires e < n <= e + MAX_PREDICTION_FRAMES
    ensures Layout(Reloaded(saved, n, e, LoadSlot(n, saved.head, e)), n, if e == 0 then 1 else shift)
  {
    var after := Reloaded(saved, n, e, LoadSlot(n, saved.head, e));
    forall j: nat | j < CELLS
      ensures after.cells[j].frame == FrameAt(n, if e == 0 then 1 else shift, after.head, j)
      ensures e != 0 ==> after.head == saved.head
      ensures e == 0 ==> after.head == (if n + 2 == CELLS then 0 else n + 2)
    {
      if e == 0 {
        ReloadedSlotFromStart(saved, n, shift, j);
      } else {
        ReloadedSlot(saved, n, shift, e, j);
      }
    }
    assert after.cells[0].frame == FrameAt(n, if e == 0 then 1 else shift, after.head, 0);
  }
}
