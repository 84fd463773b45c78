/**
 Two sessions playing each other over a network that loses, duplicates and reorders. Peer 0 plays player 0 and peer 1
 plays player 1; each runs its session, its client and its end of the input replication.
 */
module TwoPeers {
  import opened Frames
  import opened QueueModel
  import opened SyncModel
  import opened SessionModel
  import opened Compression
  import opened InputBuffer
  import Varint

  datatype Message =
    | InputMessage(start: Frame, ack: Frame, bits: seq<Varint.byte>)
    | InputAck(ack: Frame)

  /** One peer; `net` is everything it has ever sent, any of which may arrive at any time, repeatedly or never. */
  datatype Peer<S> = Peer(
    session: Session<S, Value>,
    state: S,
    encoder: Encoder,
    decoder: Decoder,
    inbox: seq<Arrival<Value>>,  // reported by the protocol, not yet seen by the session
    raw: seq<Value>,             // every input the local player has given
    net: set<Message>)

  datatype Act =
    | Play(input: Value)          // the local player's input for the current frame
    | Tick                        // advance one frame
    | Look                        // poll without advancing
    | Resend                      // retransmit what is pending
    | Hear(message: Message)      // a message of the other peer comes in
    | Shake                       // the handshake with the other peer completes

  /** Sends all pending inputs along with an acknowledgement. None: too many bytes are pending, and the peer panics. */
  function Send<S>(stride: nat, me: Peer<S>): Option<Peer<S>>
    requires Sized(Payloads(me.encoder.pending), stride)
  {
    var (encoder, start, bits) := me.encoder.Encode(stride);
    if bits.Bytes? then
      Some(me.(encoder := encoder, net := me.net + {InputMessage(start, me.decoder.lastDecoded, bits.bytes)}))
    else None
  }

  function PlayInput<S>(stride: nat, me: Peer<S>, player: nat, input: Value): Option<Peer<S>>
    requires me.session.Shaped() && |input| == stride && Sized(Payloads(me.encoder.pending), stride)
  {
    var (session, result) := me.session.AddLocalInput(player, input);
    match result
    case Accepted(frame) =>
      var encoder := me.encoder.Push(FrameInput(frame, input));
      assert Sized(Payloads(encoder.pending), stride) by {
        assert forall i | 0 <= i < |me.encoder.pending| ::
            Payloads(encoder.pending)[i] == Payloads(me.encoder.pending)[i];
      }
      Send(stride, me.(session := session, encoder := encoder, raw := me.raw + [input]))
    case _ => Some(me)
  }

  /** Runs one call of the session on everything in the inbox, and then its client. */
  function Drain<S>(game: Game<S, Value>, me: Peer<S>, action: Action<Value>): Option<Peer<S>>
    requires me.session.Shaped() && Fits(me.session, action)
  {
    match Take(game, World(me.session, me.state), action)
    case Panicked => None
    case World(session, state) => Some(me.(session := session, state := state, inbox := []))
  }

  /** A message from the other peer: new inputs go to the inbox and are acknowledged; acknowledged ones are dropped. */
  function Receive<S>(stride: nat, me: Peer<S>, other: nat, message: Message): Peer<S>
    requires 0 < stride
  {
    match message
    case InputAck(ack) => me.(encoder := me.encoder.Acknowledge(ack))
    case InputMessage(start, ack, bits) =>
      var (decoder, batch) := me.decoder.Decode(stride, start, bits);
      match batch
      case None => me
      case Some(inputs) =>
        var heard := me.(decoder := decoder, encoder := me.encoder.Acknowledge(ack));
        if inputs == [] then heard
        else heard.(inbox := me.inbox + [Arrival(other, SessionModel.Inputs(inputs))],
                    net := me.net + {InputAck(decoder.lastDecoded)})
  }

  predicate Prepared<S>(stride: nat, me: Peer<S>, act: Act) {
    && 0 < stride && me.session.Shaped() && me.session.WellFormed(me.inbox)
    && Sized(Payloads(me.encoder.pending), stride)
    && (act.Play? ==> |act.input| == stride)
  }

  function Do<S>(game: Game<S, Value>, stride: nat, me: Peer<S>, player: nat, act: Act): Option<Peer<S>>
    requires Prepared(stride, me, act) && player < 2
  {
    match act
    case Play(input) => PlayInput(stride, me, player, input)
    case Tick => Drain(game, me, Advance(me.inbox))
    case Look => Drain(game, me, Poll(me.inbox))
    case Resend => Send(stride, me)
    case Hear(message) => Some(Receive(stride, me, 1 - player, message))
    case Shake => Some(me.(inbox := me.inbox + [Arrival(1 - player, PeerSynchronized(true))]))
  }

  /** The delay that one peer has set for one player, before the first input. */
  type Delays = (nat, nat) -> nat

  function NewPeer<S>(game: Game<S, Value>, stride: nat, delays: Delays, player: nat): Peer<S> {
    var zero := Zero(stride);
    Peer(
      Session(
        Sync(Saved(0, Repeat(CELLS, Cell(NULL_FRAME, None))),
             [Fresh(zero, delays(player, 0)), Fresh(zero, delays(player, 1))], NULL_FRAME, 0),
        [player == 0, player == 1], Repeat(2, NULL_FRAME), true),
      game.init, Encoder([], NULL_FRAME, NULL_FRAME), Decoder(NULL_FRAME), [], [], {})
  }
}
