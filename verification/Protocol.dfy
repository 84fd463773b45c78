/** One end of a connection as an object: handshake state, input replication, and what it has heard of the others. */
module Protocol {
  import opened Frames
  import opened Compression
  import opened InputBuffer
  import opened Handshake
  import Varint
  import Bitfield

  datatype ConnectionStatus = ConnectionStatus(disconnected: bool, lastFrame: Frame)

  datatype Outgoing =
    | SyncRequest(nonce: nat)
    | SyncAnswer(nonce: nat)
    | InputPacket(start: Frame, ack: Frame, bits: seq<Varint.byte>)
    | AckPacket(ack: Frame)

  /** What the session is told: a change of the connection, or a batch of new inputs. */
  datatype Report = Change(event: Event) | NewInputs(batch: seq<FrameInput<Value>>)

  datatype PeerError = NoError | LocalDisconnected | RemoteDisconnected | InvalidMessage

  // ---------------------------------------------------------------------------------------------
  // What the other peer says about everybody's connection
  // ---------------------------------------------------------------------------------------------

  function MergeOne(mine: ConnectionStatus, theirs: ConnectionStatus): ConnectionStatus {
    ConnectionStatus(mine.disconnected || theirs.disconnected, Max(mine.lastFrame, theirs.lastFrame))
  }

  /** Entry by entry; entries never heard of before are taken over. */
  function Merge(mine: seq<ConnectionStatus>, theirs: seq<ConnectionStatus>): (r: seq<ConnectionStatus>)
    ensures |r| == Max(|mine|, |theirs|)
  {
    seq(Max(|mine|, |theirs|), i requires 0 <= i < Max(|mine|, |theirs|) =>
      if i < |mine| && i < |theirs| then MergeOne(mine[i], theirs[i])
      else if i < |mine| then mine[i]
      else theirs[i])
  }

  function MergeAll(mine: seq<ConnectionStatus>, heard: seq<seq<ConnectionStatus>>): seq<ConnectionStatus>
    decreases |heard|
  {
    if heard == [] then mine else MergeAll(Merge(mine, heard[0]), heard[1..])
  }

  lemma MergeSwaps(mine: seq<ConnectionStatus>, a: seq<ConnectionStatus>, b: seq<ConnectionStatus>)
    ensures Merge(Merge(mine, a), b) == Merge(Merge(mine, b), a)
  {
  }

  lemma MergeRepeats(mine: seq<ConnectionStatus>, a: seq<ConnectionStatus>)
    ensures Merge(Merge(mine, a), a) == Merge(mine, a)
  {
  }

  lemma {:induction false} MergeLater(
    mine: seq<ConnectionStatus>, a: seq<ConnectionStatus>, heard: seq<seq<ConnectionStatus>>)
    ensures MergeAll(Merge(mine, a), heard) == Merge(MergeAll(mine, heard), a)
    decreases |heard|
  {
    if heard != [] {
      MergeSwaps(mine, a, heard[0]);
      MergeLater(Merge(mine, heard[0]), a, heard[1..]);
    }
  }

  lemma {:induction false} MergeHeard(mine: seq<ConnectionStatus>, heard: seq<seq<ConnectionStatus>>, k: nat)
    requires k < |heard|
    ensures MergeAll(mine, heard) == MergeAll(Merge(mine, heard[k]), heard)
    decreases |heard|
  {
    if k == 0 {
      MergeRepeats(mine, heard[0]);
    } else {
      MergeHeard(Merge(mine, heard[0]), heard[1..], k - 1);
      MergeSwaps(mine, heard[0], heard[k]);
    }
  }

  /** Hearing more of the same changes nothing. */
  lemma {:induction false} MergeSubset(
    mine: seq<ConnectionStatus>, heard: seq<seq<ConnectionStatus>>, again: seq<seq<ConnectionStatus>>)
    requires forall k | 0 <= k < |again| :: again[k] in heard
    ensures MergeAll(MergeAll(mine, heard), again) == MergeAll(mine, heard)
    decreases |again|
  {
    if again != [] {
      var k :| 0 <= k < |heard| && heard[k] == again[0];
      MergeHeard(mine, heard, k);
      MergeLater(mine, again[0], heard);
      MergeSubset(mine, heard, again[1..]);
    }
  }

  /**
   What a peer ends up knowing depends only on which statuses it has heard, not on how often or in which order: the
   merge is what makes repeated and reordered packets harmless here.
   */
  lemma {:induction false} MergeIgnoresOrder(
    mine: seq<ConnectionStatus>, a: seq<seq<ConnectionStatus>>, b: seq<seq<ConnectionStatus>>)
    requires forall s :: s in a <==> s in b
    ensures MergeAll(mine, a) == MergeAll(mine, b)
  {
    MergeSubset(mine, a, b);
    MergeSubset(mine, b, a);
    MergeBoth(mine, a, b);
  }

  lemma {:induction false} MergeBoth(
    mine: seq<ConnectionStatus>, a: seq<seq<ConnectionStatus>>, b: seq<seq<ConnectionStatus>>)
    ensures MergeAll(MergeAll(mine, a), b) == MergeAll(MergeAll(mine, b), a)
    decreases |a|
  {
    if a != [] {
      MergeBoth(Merge(mine, a[0]), a[1..], b);
      MergeLater(mine, a[0], b);
    }
  }

  /** What one status list says about connection i, if anything. */
  ghost predicate Says(status: seq<ConnectionStatus>, i: nat, frame: int) {
    i < |status| && status[i].lastFrame == frame
  }

  ghost predicate SaysGone(status: seq<ConnectionStatus>, i: nat) {
    i < |status| && status[i].disconnected
  }

  lemma MergeOneKnows(mine: seq<ConnectionStatus>, a: seq<ConnectionStatus>, i: nat)
    requires i < |Merge(mine, a)|
    ensures var r := Merge(mine, a)[i];
            && (forall f :: Says(mine, i, f) || Says(a, i, f) ==> f <= r.lastFrame)
            && (Says(mine, i, r.lastFrame) || Says(a, i, r.lastFrame))
            && (r.disconnected <==> SaysGone(mine, i) || SaysGone(a, i))
  {
  }

  /** Of every connection a peer knows the latest frame it was told, and that it is gone if anybody ever said so. */
  lemma {:induction false} MergeKnowsAll(mine: seq<ConnectionStatus>, heard: seq<seq<ConnectionStatus>>, i: nat)
    requires i < |MergeAll(mine, heard)|
    ensures var (r, told) := (MergeAll(mine, heard)[i], [mine] + heard);
            && (forall s, f | s in told && Says(s, i, f) :: f <= r.lastFrame)
            && (exists s :: s in told && Says(s, i, r.lastFrame))
            && (r.disconnected <==> exists s :: s in told && SaysGone(s, i))
    decreases |heard|
  {
    var (r, told) := (MergeAll(mine, heard)[i], [mine] + heard);
    if heard == [] {
      assert told == [mine] && mine in told && Says(mine, i, r.lastFrame);
    } else {
      var merged := Merge(mine, heard[0]);
      var later := [merged] + heard[1..];
      MergeKnowsAll(merged, heard[1..], i);
      assert forall s | s in told :: s == mine || s == heard[0] || s in later;
      assert mine in told && heard[0] in told && merged in later;
      assert forall s | s in later && s != merged :: s in told;
      if i < |merged| {
        MergeOneKnows(mine, heard[0], i);
        assert Says(merged, i, merged[i].lastFrame);
      }
    }
  }

  /** What the original asserts of every entry it merges into one it has: the last frame has not decreased. */
  predicate Newer(mine: seq<ConnectionStatus>, theirs: seq<ConnectionStatus>) {
    forall i | 0 <= i < |mine| && i < |theirs| :: mine[i].lastFrame <= theirs[i].lastFrame
  }

  predicate AlwaysNewer(mine: seq<ConnectionStatus>, heard: seq<seq<ConnectionStatus>>)
    decreases |heard|
  {
    heard != [] ==> Newer(mine, heard[0]) && AlwaysNewer(Merge(mine, heard[0]), heard[1..])
  }

  /** From one list to any later one no connection's last frame decreases. */
  ghost predicate NeverDecreasing(statuses: seq<seq<ConnectionStatus>>) {
    forall j, k | 0 <= j < k < |statuses| ::
      forall i: nat | i < |statuses[j]| && i < |statuses[k]| :: statuses[j][i].lastFrame <= statuses[k][i].lastFrame
  }

  ghost predicate AllNewer(mine: seq<ConnectionStatus>, later: seq<seq<ConnectionStatus>>) {
    forall k | 0 <= k < |later| :: Newer(mine, later[k])
  }

  lemma FirstApart(mine: seq<ConnectionStatus>, later: seq<seq<ConnectionStatus>>)
    ensures NeverDecreasing([mine] + later) <==> AllNewer(mine, later) && NeverDecreasing(later)
  {
    var all := [mine] + later;
    assert forall k | 0 <= k < |later| :: later[k] == all[k + 1];
    if NeverDecreasing(all) {
      forall k | 0 <= k < |later| ensures Newer(mine, later[k]) {
        assert Newer(all[0], all[k + 1]);
      }
      forall j, k | 0 <= j < k < |later| ensures Newer(later[j], later[k]) {
        assert Newer(all[j + 1], all[k + 1]);
      }
    }
  }

  /** The assertion holds all along exactly when the statuses come in with last frames that never decrease. */
  lemma {:induction false} AssertionHoldsIffInOrder(mine: seq<ConnectionStatus>, heard: seq<seq<ConnectionStatus>>)
    ensures AlwaysNewer(mine, heard) <==> NeverDecreasing([mine] + heard)
    decreases |heard|
  {
    FirstApart(mine, heard);
    if heard != [] {
      var (first, rest) := (heard[0], heard[1..]);
      AssertionHoldsIffInOrder(Merge(mine, first), rest);
      FirstApart(Merge(mine, first), rest);
      FirstApart(first, rest);
      assert heard == [first] + rest;
      assert AllNewer(mine, heard) <==> Newer(mine, first) && AllNewer(mine, rest) by {
        assert forall k | 0 <= k < |rest| :: rest[k] == heard[k + 1];
      }
      if Newer(mine, first) {
        forall k | 0 <= k < |rest|
          ensures Newer(Merge(mine, first), rest[k]) <==> Newer(mine, rest[k]) && Newer(first, rest[k])
        {
          MergedIsNewest(mine, first, rest[k]);
        }
      }
    }
  }

  lemma MergedIsNewest(mine: seq<ConnectionStatus>, a: seq<ConnectionStatus>, next: seq<ConnectionStatus>)
    requires Newer(mine, a)
    ensures Newer(Merge(mine, a), next) <==> Newer(mine, next) && Newer(a, next)
  {
  }

  /** Two statuses that are fine in the order they were sent are fine swapped only if the later has no news. */
  lemma {:induction false} ReorderingBreaksAssertion(
    mine: seq<ConnectionStatus>, early: seq<ConnectionStatus>, late: seq<ConnectionStatus>)
    requires NeverDecreasing([mine, early, late])
    ensures AlwaysNewer(mine, [early, late])
    ensures AlwaysNewer(mine, [late, early]) <==> Newer(late, early)
  {
    AssertionHoldsIffInOrder(mine, [early, late]);
    AssertionHoldsIffInOrder(mine, [late, early]);
    assert [mine] + [early, late] == [mine, early, late];
    var swapped := [mine, late, early];
    assert [mine] + [late, early] == swapped;
    var sent := [mine, early, late];
    assert Newer(sent[0], sent[1]) && Newer(sent[0], sent[2]);
    assert NeverDecreasing(swapped) ==> Newer(swapped[1], swapped[2]);
  }

  // ---------------------------------------------------------------------------------------------
  // The peer
  // ---------------------------------------------------------------------------------------------

  class Peer {
    const stride: nat
    var state: PeerState
    const encoder: InputEncoder
    const decoder: InputDecoder
    var peerConnectStatus: seq<ConnectionStatus>
    var reports: seq<Report>    // to the session
    var outgoing: seq<Outgoing> // to the network

    constructor (stride: nat, nonce: nat, status: seq<ConnectionStatus>)
      ensures state == Connecting(nonce) && this.stride == stride && peerConnectStatus == status
      ensures reports == [] && outgoing == [] && fresh(encoder) && fresh(decoder)
      ensures encoder.Model() == Encoder([], NULL_FRAME, NULL_FRAME) && decoder.Model() == Decoder(NULL_FRAME)
    {
      this.stride := stride;
      state := Connecting(nonce);
      peerConnectStatus := status;
      reports, outgoing := [], [];
      encoder := new InputEncoder();
      decoder := new InputDecoder();
    }

    method Disconnect()
      modifies this`state
      ensures state == Disconnected
    {
      state := Disconnected;
    }

    /** Tells the session, unless the connection is closed. */
    method PushReport(report: Report) returns (open: bool)
      modifies this`reports
      ensures open == !state.Disconnected?
      ensures reports == old(reports) + if open then [report] else []
    {
      open := !state.Disconnected?;
      if open {
        reports := reports + [report];
      }
    }

    method Send(message: Outgoing) returns (open: bool)
      modifies this`outgoing
      ensures open == !state.Disconnected?
      ensures outgoing == old(outgoing) + if open then [message] else []
    {
      open := !state.Disconnected?;
      if open {
        outgoing := outgoing + [message];
      }
    }

    /** Somebody asks to be answered; once running, only the peer already known is. */
    method OnSyncRequest(magic: nat, nonce: nat) returns (error: PeerError)
      modifies this`outgoing
      ensures error == if state.Running? && magic != state.remoteMagic then InvalidMessage
                       else if state.Disconnected? then RemoteDisconnected
                       else NoError
      ensures outgoing == old(outgoing) + if error.NoError? then [SyncAnswer(nonce)] else []
    {
      if state.Running? && magic != state.remoteMagic {
        return InvalidMessage;
      }
      var open := Send(SyncAnswer(nonce));
      return if open then NoError else RemoteDisconnected;
    }

    method OnReply(magic: nat, nonce: nat) returns (error: PeerError)
      modifies this`state, this`reports, this`outgoing
      ensures var (s, events, useful) := OnSyncReply(old(state), magic, nonce);
              && state == s
              && reports == old(reports) + Changes(events)
              && (error == NoError <==> useful) && (error == InvalidMessage <==> !useful)
              && outgoing == old(outgoing) + if useful && s.Syncing? then [SyncRequest(s.nonce)] else []
    {
      match state {
        case Connecting(own) =>
          if nonce != own {
            return InvalidMessage;
          }
          var _ := PushReport(Change(Connected));
          state := Syncing(own, NUM_SYNC_PACKETS);
          var _ := Send(SyncRequest(own));
          return NoError;
        case Syncing(own, left) =>
          if nonce != own {
            return InvalidMessage;
          }
          var remaining := left - 1;
          if remaining == 0 {
            var _ := PushReport(Change(Synchronized));
            state := Running(magic);
          } else {
            var _ := PushReport(Change(Synchronizing(NUM_SYNC_PACKETS, NUM_SYNC_PACKETS - remaining)));
            state := Syncing(own, remaining);
            var _ := Send(SyncRequest(own));
          }
          return NoError;
        case Running(remote) =>
          return if magic == remote then NoError else InvalidMessage;
        case _ =>
          return InvalidMessage;
      }
    }

    /** Queues a local input while running, then sends everything pending. The pending inputs must fit one buffer. */
    method SendInput(input: FrameInput<Value>) returns (open: bool)
      requires Sized(Payloads(encoder.pending), stride) && |input.input| == stride
      requires (|encoder.pending| + 1) * stride < MAX_BUFFER_SIZE
      modifies encoder, this`outgoing
      ensures var pushed := if state.IsRunning() then old(encoder.Model()).Push(input) else old(encoder.Model());
              && Sized(Payloads(pushed.pending), stride)
              && var (after, start, bits) := pushed.Encode(stride);
                 && encoder.Model() == after
                 && bits.Bytes?
                 && outgoing == old(outgoing) +
                    if open then [InputPacket(start, decoder.lastDecoded, bits.bytes)] else []
      ensures open == !state.Disconnected?
    {
      if state.IsRunning() {
        encoder.Push(input);
      }
      assert Sized(Payloads(encoder.pending), stride) by {
        assert forall i | 0 <= i < |old(encoder.pending)| ::
            Payloads(encoder.pending)[i] == Payloads(old(encoder.pending))[i];
      }
      assert |encoder.pending| * stride <= (|old(encoder.pending)| + 1) * stride;
      open := SendPendingOutput();
    }

    method SendPendingOutput() returns (open: bool)
      requires Sized(Payloads(encoder.pending), stride)
      requires encoder.pending == [] || |encoder.pending| * stride < MAX_BUFFER_SIZE
      modifies encoder`lastEncoded, this`outgoing
      ensures var (after, start, bits) := old(encoder.Model()).Encode(stride);
              && encoder.Model() == after
              && bits.Bytes?
              && outgoing == old(outgoing) + if open then [InputPacket(start, decoder.lastDecoded, bits.bytes)] else []
      ensures open == !state.Disconnected?
    {
      var start, bits := encoder.Encode(stride);
      open := Send(InputPacket(start, decoder.lastDecoded, bits.bytes));
    }

    /**
     A packet of inputs: its statuses are merged, the inputs not seen before are reported and acknowledged, and what it
     acknowledges itself is dropped. Nothing is acknowledged from a packet that cannot be decoded, or once the
     connection is closed.
     */
    method OnInput(status: seq<ConnectionStatus>, start: Frame, ack: Frame, bits: seq<Varint.byte>)
      returns (error: PeerError)
      requires 0 < stride && Bitfield.DecodeLen(bits, 0) != Bitfield.Truncated && WholeValues(bits, stride)
      modifies this`peerConnectStatus, this`reports, this`outgoing, encoder, decoder
      ensures peerConnectStatus == Merge(old(peerConnectStatus), status)
      ensures var (after, batch) := old(decoder.Model()).Decode(stride, start, bits);
              var anything := batch.Some? && batch.value != [];
              && decoder.Model() == after
              && error == (if batch.None? then InvalidMessage
                           else if anything && state.Disconnected? then LocalDisconnected
                           else NoError)
              && encoder.Model() == (if error == NoError then old(encoder.Model()).Acknowledge(ack)
                                     else old(encoder.Model()))
              && (if anything && error == NoError then
                    && reports == old(reports) + [NewInputs(batch.value)]
                    && outgoing == old(outgoing) + [AckPacket(after.lastDecoded)]
                  else
                    reports == old(reports) && outgoing == old(outgoing))
    {
      MergeStatus(status);
      var inputs := decoder.Decode(stride, start, bits);
      if inputs.None? {
        return InvalidMessage;
      }
      if inputs.value != [] {
        var told := PushReport(NewInputs(inputs.value));
        if !told {
          return LocalDisconnected;
        }
        var sent := Send(AckPacket(decoder.lastDecoded));
        if !sent {
          return RemoteDisconnected;
        }
      }
      encoder.AcknowledgeFrame(ack);
      return NoError;
    }

    method MergeStatus(status: seq<ConnectionStatus>)
      modifies this`peerConnectStatus
      ensures peerConnectStatus == Merge(old(peerConnectStatus), status)
    {
      ghost var before := peerConnectStatus;
      for i := 0 to |status|
        invariant |peerConnectStatus| == Max(|before|, i)
        invariant forall k | 0 <= k < |peerConnectStatus| ::
                    peerConnectStatus[k] == Merge(before, status[..i])[k]
      {
        if i < |peerConnectStatus| {
          peerConnectStatus := peerConnectStatus[i := MergeOne(peerConnectStatus[i], status[i])];
        } else {
          peerConnectStatus := peerConnectStatus + [status[i]];
        }
      }
      assert status[..|status|] == status;
    }
  }

  function Changes(events: seq<Event>): (r: seq<Report>)
    ensures |r| == |events|
  {
    seq(|events|, i requires 0 <= i < |events| => Change(events[i]))
  }
}
