/** The state of one peer connection: the synchronizing handshake, interruptions and the final disconnect. */
module Handshake {
  import opened Frames

  const NUM_SYNC_PACKETS: nat := 5

  /** Round trips still to go while synchronizing: never none. */
  type Rounds = n: int | 1 <= n <= NUM_SYNC_PACKETS witness 1

  datatype PeerState =
    | Connecting(nonce: nat)
    | Syncing(nonce: nat, roundtripsRemaining: Rounds)
    | Running(remoteMagic: nat)
    | Interrupted(remoteMagic: nat)
    | Disconnected
  {
    function Nonce(): Option<nat> {
      match this
      case Connecting(nonce) => Some(nonce)
      case Syncing(nonce, _) => Some(nonce)
      case _ => None
    }

    predicate IsRunning() {
      Running? || Interrupted?
    }
  }

  datatype Event =
    | Connected
    | Synchronizing(total: nat, count: nat)
    | Synchronized
    | NetworkInterrupted
    | NetworkResumed

  /** What can happen to a connection. Replies may be anybody's, of any time, any number of times. */
  datatype Trigger =
    | SyncReply(magic: nat, nonce: nat)
    | AnyMessage                          // any other message that is handled without an error
    | Silence                             // nothing has come in for a while
    | Close                               // a timeout, a fault, or the session itself gives up

  /** A reply to the local sync request: the new state, what to tell the session, and whether it was of any use. */
  function OnSyncReply(s: PeerState, magic: nat, nonce: nat): (PeerState, seq<Event>, bool) {
    if s.Nonce().Some? && nonce != s.Nonce().value then (s, [], false)
    else
      match s
      case Connecting(own) => (Syncing(own, NUM_SYNC_PACKETS), [Connected], true)
      case Syncing(own, left) =>
        if left == 1 then (Running(magic), [Synchronized], true)
        else (Syncing(own, left - 1), [Synchronizing(NUM_SYNC_PACKETS, NUM_SYNC_PACKETS - (left - 1))], true)
      case Running(remote) => (s, [], magic == remote)
      case _ => (s, [], false)
  }

  /** Any message handled successfully ends an interruption. */
  function Resume(s: PeerState): (PeerState, seq<Event>) {
    if s.Interrupted? then (Running(s.remoteMagic), [NetworkResumed]) else (s, [])
  }

  /** What the handlers do, in any state: messages still in the queue are handled after the connection is closed. */
  function Handle(s: PeerState, t: Trigger): (PeerState, seq<Event>) {
    match t
    case SyncReply(magic, nonce) =>
      var (s1, events, useful) := OnSyncReply(s, magic, nonce);
      if useful then (Resume(s1).0, events + Resume(s1).1) else (s1, events)
    case AnyMessage => Resume(s)
    case Silence =>
      if s.Interrupted? then (s, [])
      else (if s.Running? then Interrupted(s.remoteMagic) else s, [NetworkInterrupted])
    case Close => (Disconnected, [])
  }

  /** The session is told only while the connection is open. */
  function Step(s: PeerState, t: Trigger): (PeerState, seq<Event>) {
    var (s', events) := Handle(s, t);
    (s', if s.Disconnected? then [] else events)
  }

  function RunSteps(s: PeerState, trace: seq<Trigger>): (PeerState, seq<Event>)
    decreases |trace|
  {
    if trace == [] then (s, [])
    else
      var (s1, first) := Step(s, trace[0]);
      var (s2, rest) := RunSteps(s1, trace[1..]);
      (s2, first + rest)
  }

  /** The events of the handshake, in the only order a session can ever see them. */
  const SCRIPT: seq<Event> := [
    Connected, Synchronizing(5, 1), Synchronizing(5, 2), Synchronizing(5, 3), Synchronizing(5, 4), Synchronized
  ]

  function HandshakeOf(events: seq<Event>): seq<Event> {
    if events == [] then []
    else
      (if events[0].NetworkInterrupted? || events[0].NetworkResumed? then [] else [events[0]])
      + HandshakeOf(events[1..])
  }

  lemma {:induction false} HandshakeAppend(a: seq<Event>, b: seq<Event>)
    ensures HandshakeOf(a + b) == HandshakeOf(a) + HandshakeOf(b)
    decreases |a|
  {
    if a == [] {
      assert a + b == b;
    } else {
      assert (a + b)[1..] == a[1..] + b;
      HandshakeAppend(a[1..], b);
    }
  }

  /** How many events of the script a state accounts for; a closed connection may have stopped anywhere. */
  function Progress(s: PeerState): nat
    requires !s.Disconnected?
  {
    match s
    case Connecting(_) => 0
    case Syncing(_, left) => 6 - left
    case _ => 6
  }

  ghost predicate Proper(s: PeerState, nonce: nat) {
    match s
    case Connecting(own) => own == nonce
    case Syncing(own, _) => own == nonce
    case _ => true
  }

  /** One step emits the next event of the script if it moves the handshake on, and no event of it otherwise. */
  lemma {:induction false} StepFollowsScript(s: PeerState, t: Trigger, nonce: nat)
    requires Proper(s, nonce) && !s.Disconnected?
    ensures var (s', events) := Step(s, t);
            && Proper(s', nonce)
            && (s'.Disconnected? ==> HandshakeOf(events) == [])
            && (!s'.Disconnected? ==>
                  && Progress(s) <= Progress(s') <= Progress(s) + 1
                  && HandshakeOf(events) == SCRIPT[Progress(s)..Progress(s')]
                  && (Progress(s') != Progress(s) ==> t.SyncReply? && t.nonce == nonce))
  {
    assert HandshakeOf([NetworkResumed]) == HandshakeOf([NetworkInterrupted]) == [];
    if t.SyncReply? {
      var (s1, events, useful) := OnSyncReply(s, t.magic, t.nonce);
      assert events + [] == events;
      if |events| == 1 {
        assert HandshakeOf(events) == [events[0]];
        assert SCRIPT[Progress(s)..Progress(s) + 1] == [SCRIPT[Progress(s)]];
      }
    }
  }

  /** Replies in a trace that echo this nonce. */
  function Echoes(trace: seq<Trigger>, nonce: nat): nat {
    if trace == [] then 0
    else (if trace[0].SyncReply? && trace[0].nonce == nonce then 1 else 0) + Echoes(trace[1..], nonce)
  }

  /** From any point of the handshake on, the rest of the script follows up to some point k that the echoes paid for. */
  lemma {:induction false} RunFollowsScript(s: PeerState, trace: seq<Trigger>, nonce: nat) returns (k: nat)
    requires Proper(s, nonce) && !s.Disconnected?
    ensures Progress(s) <= k <= 6 && k <= Progress(s) + Echoes(trace, nonce)
    ensures var (s', events) := RunSteps(s, trace);
            && HandshakeOf(events) == SCRIPT[Progress(s)..k]
            && (!s'.Disconnected? ==> k == Progress(s'))
    decreases |trace|
  {
    assert HandshakeOf([]) == [];
    hide Step, HandshakeOf;
    k := Progress(s);
    assert SCRIPT[k..k] == [];
    if trace != [] {
      var (s1, first) := Step(s, trace[0]);
      var (s2, rest) := RunSteps(s1, trace[1..]);
      StepFollowsScript(s, trace[0], nonce);
      HandshakeAppend(first, rest);
      if s1.Disconnected? {
        DisconnectedIsFinal(trace[1..]);
        assert HandshakeOf(first) + HandshakeOf(rest) == [];
      } else {
        k := RunFollowsScript(s1, trace[1..], nonce);
        ScriptSplit(Progress(s), Progress(s1), k);
      }
    }
  }

  lemma ScriptSplit(a: nat, b: nat, c: nat)
    requires a <= b <= c <= 6
    ensures SCRIPT[a..b] + SCRIPT[b..c] == SCRIPT[a..c]
  {
  }

  /** Once closed, a connection stays closed, whatever is still handled, and is never heard of again. */
  lemma {:induction false} DisconnectedIsFinal(trace: seq<Trigger>)
    ensures RunSteps(Disconnected, trace) == (Disconnected, [])
    decreases |trace|
  {
    if trace != [] {
      DisconnectedIsFinal(trace[1..]);
      var (_, first) := Step(Disconnected, trace[0]);
      assert first + RunSteps(Disconnected, trace[1..]).1 == [];
    }
  }

  /**
   The handshake over whole runs: under any replay or reordering of replies the session sees a prefix of Connected,
   Synchronizing 1..4, Synchronized; all of it once the connection runs, and that takes six replies echoing the nonce.
   The connection then has the magic number of the sixth of them.
   */
  lemma {:induction false} HandshakeIsPrefix(nonce: nat, trace: seq<Trigger>)
    ensures var (s, events) := RunSteps(Connecting(nonce), trace);
            && HandshakeOf(events) <= SCRIPT
            && |HandshakeOf(events)| <= Echoes(trace, nonce)
            && (s.IsRunning() ==>
                  && HandshakeOf(events) == SCRIPT && 6 <= Echoes(trace, nonce)
                  && exists i :: EchoesAt(trace, i, nonce, 6, s.remoteMagic))
  {
    var k := RunFollowsScript(Connecting(nonce), trace, nonce);
    var s := RunSteps(Connecting(nonce), trace).0;
    if s.IsRunning() {
      var i := SixthEchoDecides(Connecting(nonce), trace, nonce);
    }
  }

  /** Reply i of the trace is the n-th that echoes the nonce, and carries this magic number. */
  ghost predicate EchoesAt(trace: seq<Trigger>, i: nat, nonce: nat, n: nat, magic: nat) {
    i < |trace| && trace[i] == SyncReply(magic, nonce) && Echoes(trace[..i], nonce) == n - 1
  }

  lemma {:induction false} SixthEchoDecides(s: PeerState, trace: seq<Trigger>, nonce: nat) returns (i: nat)
    requires Proper(s, nonce) && (s.Connecting? || s.Syncing?) && RunSteps(s, trace).0.IsRunning()
    ensures EchoesAt(trace, i, nonce, 6 - Progress(s), RunSteps(s, trace).0.remoteMagic)
    decreases |trace|
  {
    var (s1, rest) := (Step(s, trace[0]).0, trace[1..]);
    if s1.Disconnected? {
      DisconnectedIsFinal(rest);
    } else if s1.IsRunning() {
      MagicIsFixed(s1, rest);
      i := 0;
      assert Echoes(trace[..0], nonce) == 0;
    } else {
      StepFollowsScript(s, trace[0], nonce);
      var j := SixthEchoDecides(s1, rest, nonce);
      i := j + 1;
      assert trace[..i][0] == trace[0] && trace[..i][1..] == rest[..j];
    }
  }

  /**
   Nothing but closing keeps a handshake from getting on: six echoes, whatever comes between them, and the connection
   runs; fewer, and the session has seen as much of the script as there were echoes.
   */
  lemma {:induction false} EveryEchoCounts(nonce: nat, trace: seq<Trigger>)
    requires Close !in trace
    ensures var (s, events) := RunSteps(Connecting(nonce), trace);
            && (s.IsRunning() <==> 6 <= Echoes(trace, nonce))
            && (!s.IsRunning() ==> HandshakeOf(events) == SCRIPT[..Echoes(trace, nonce)])
  {
    var k := RunFollowsScript(Connecting(nonce), trace, nonce);
    EchoesAddUp(Connecting(nonce), trace, nonce);
  }

  lemma {:induction false} EchoesAddUp(s: PeerState, trace: seq<Trigger>, nonce: nat)
    requires Proper(s, nonce) && !s.Disconnected? && Close !in trace
    ensures var s' := RunSteps(s, trace).0;
            && Proper(s', nonce) && !s'.Disconnected?
            && Progress(s') == if s.IsRunning() || 6 <= Progress(s) + Echoes(trace, nonce) then 6
                               else Progress(s) + Echoes(trace, nonce)
    decreases |trace|
  {
    if trace != [] {
      assert trace[0] in trace && forall t | t in trace[1..] :: t in trace;
      StepFollowsScript(s, trace[0], nonce);
      EchoesAddUp(Step(s, trace[0]).0, trace[1..], nonce);
    }
  }

  /**
   A reply is accepted exactly when it moves the handshake on, which any echo of the nonce does, or comes from the peer
   whose number a running connection has. Nothing else changes anything or is reported.
   */
  lemma ReplyIsAcceptedIff(s: PeerState, magic: nat, nonce: nat)
    ensures var (s', events, useful) := OnSyncReply(s, magic, nonce);
            && (useful <==> s' != s || s == Running(magic))
            && (s' != s <==> (s.Connecting? || s.Syncing?) && nonce == s.nonce)
            && (events != [] <==> s' != s)
  {
  }

  /** A running connection never takes another magic number, whatever comes in. */
  lemma {:induction false} MagicIsFixed(s: PeerState, trace: seq<Trigger>)
    requires s.IsRunning()
    ensures var s' := RunSteps(s, trace).0;
            s'.Disconnected? || (s'.IsRunning() && s'.remoteMagic == s.remoteMagic)
    decreases |trace|
  {
    if trace != [] {
      var s1 := Step(s, trace[0]).0;
      if s1.Disconnected? {
        DisconnectedIsFinal(trace[1..]);
      } else {
        MagicIsFixed(s1, trace[1..]);
      }
    }
  }

  // ---------------------------------------------------------------------------------------------
  // Interruptions
  // ---------------------------------------------------------------------------------------------

  /** Reported interruptions and resumptions, in turn, starting with an interruption or, if `down`, a resumption. */
  predicate TakeTurns(events: seq<Event>, down: bool) {
    events != [] ==>
      && events[0] == (if down then NetworkResumed else NetworkInterrupted)
      && TakeTurns(events[1..], !down)
  }

  lemma {:induction false} TurnsAppend(a: seq<Event>, b: seq<Event>, down: bool)
    requires TakeTurns(a, down) && TakeTurns(b, if |a| % 2 == 0 then down else !down)
    ensures TakeTurns(a + b, down)
    decreases |a|
  {
    if a == [] {
      assert a + b == b;
    } else {
      assert (a + b)[1..] == a[1..] + b;
      TurnsAppend(a[1..], b, !down);
    }
  }

  /** The last thing a trace notices of a peer is silence, nothing being noticed of replies. */
  function SilentAfter(down: bool, trace: seq<Trigger>): bool
    decreases |trace|
  {
    if trace == [] then down
    else SilentAfter(if trace[0].Silence? then true else if trace[0].AnyMessage? then false else down, trace[1..])
  }

  /** A step of a running connection reports at most one change between silent and heard of. */
  lemma StepTakesTurns(s: PeerState, t: Trigger)
    requires s.IsRunning()
    ensures var (s', events) := Step(s, t);
            if t.Close? then s'.Disconnected? && events == []
            else
              && s'.IsRunning()
              && s'.Interrupted? == SilentAfter(s.Interrupted?, [t])
              && events == (if s'.Interrupted? == s.Interrupted? then []
                            else if s'.Interrupted? then [NetworkInterrupted] else [NetworkResumed])
  {
    assert [t][1..] == [];
  }

  /**
   Once a connection runs, the session is told of silence and of its end in turn, each time once, until the connection
   is closed; and the connection is interrupted exactly while the last thing it noticed was silence.
   */
  lemma {:induction false} InterruptionsTakeTurns(s: PeerState, trace: seq<Trigger>)
    requires s.IsRunning()
    ensures var (s', events) := RunSteps(s, trace);
            && TakeTurns(events, s.Interrupted?)
            && (!s'.Disconnected? ==> (s'.Interrupted? <==> (s.Interrupted? != (|events| % 2 == 1))))
            && (Close !in trace ==>
                  !s'.Disconnected? && (s'.Interrupted? <==> SilentAfter(s.Interrupted?, trace)))
    decreases |trace|
  {
    if trace != [] {
      assert trace[0] in trace && forall t | t in trace[1..] :: t in trace;
      StepTakesTurns(s, trace[0]);
      assert [trace[0]][1..] == [];
      var (s1, first) := Step(s, trace[0]);
      var (s2, rest) := RunSteps(s1, trace[1..]);
      hide Step;
      if s1.Disconnected? {
        DisconnectedIsFinal(trace[1..]);
        assert first + rest == [];
      } else {
        InterruptionsTakeTurns(s1, trace[1..]);
        TurnsAppend(first, rest, s.Interrupted?);
        assert |first + rest| == |first| + |rest|;
      }
    }
  }

  function Silences(trace: seq<Trigger>): nat {
    if trace == [] then 0 else (if trace[0].Silence? then 1 else 0) + Silences(trace[1..])
  }

  /** Before it runs, silence changes nothing, and so it is reported again each time. */
  lemma {:induction false} EarlySilenceRepeats(s: PeerState, trace: seq<Trigger>)
    requires s.Connecting? || s.Syncing?
    requires forall t | t in trace :: t.Silence? || t.AnyMessage?
    ensures RunSteps(s, trace) == (s, Repeat(Silences(trace), NetworkInterrupted))
    decreases |trace|
  {
    if trace != [] {
      assert trace[0] in trace && forall t | t in trace[1..] :: t in trace;
      EarlySilenceRepeats(s, trace[1..]);
      var (first, rest) := (Step(s, trace[0]).1, RunSteps(s, trace[1..]).1);
      assert Step(s, trace[0]).0 == s && first == Repeat(if trace[0].Silence? then 1 else 0, NetworkInterrupted);
      assert first + rest == Repeat(|first| + |rest|, NetworkInterrupted);
    } else {
      assert Repeat(0, NetworkInterrupted) == [];
    }
  }
}
