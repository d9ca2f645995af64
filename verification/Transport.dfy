/**
 The Noise transport of an established session: framing, sealing under sequential nonces and opening,
 over an ideal CipherState (Noise Protocol Framework revision 34, section 5.1): only the holder of the key
 can make a ciphertext that opens, and a failed decryption leaves the nonce where it was.
 */
module Transport {
  import opened Utf8
  import opened Wrappers

  /** What encrypt_frame is given and decrypt_frame returns: str or bytes. */
  datatype Payload = Text(text: string) | Binary(bytes: seq<byte>)

  /** Key of one direction of one session. */
  type Key = nat

  /** Bytes on the wire: a ciphertext as the term it was made from, or anything else. */
  datatype Cipher = Sealed(key: Key, nonce: nat, plaintext: seq<byte>) | Junk(bytes: seq<byte>)

  const FRAME_JSON: byte := 0
  const FRAME_BINARY: byte := 1

  function Mark(payload: Payload): seq<byte> {
    match payload
    case Text(s) => [FRAME_JSON] + Encode(s)
    case Binary(bs) => [FRAME_BINARY] + bs
  }

  /** NoiseTransportFailed, and the exception of decoding bytes that are no text. */
  datatype Failure = Rejected | Undecodable

  /** What follows decryption: the first byte says how to read the others. */
  function Unmark(plaintext: seq<byte>): Result<Payload, Failure> {
    if plaintext != [] && plaintext[0] == FRAME_JSON then
      match Decode(plaintext[1..])
      case Some(s) => Ok(Text(s))
      case None => Err(Undecodable)
    else if plaintext != [] && plaintext[0] == FRAME_BINARY then Ok(Binary(plaintext[1..]))
    else Err(Rejected)
  }

  /** The receiver reads back the payload and, from a first byte of 0 or 1, whether it was text or binary. */
  lemma UnmarkMark(payload: Payload)
    ensures Unmark(Mark(payload)) == Ok(payload)
    ensures Mark(payload) != [] && Mark(payload)[0] == if payload.Text? then 0 else 1
  {
    if payload.Text? { DecodeEncode(payload.text); }
    assert Mark(payload)[1..] == if payload.Text? then Encode(payload.text) else payload.bytes;
  }

  /** Only what a sender marks can be read; without a known first byte it is rejected, else it is bad text. */
  lemma UnmarkWhen(plaintext: seq<byte>, payload: Payload)
    ensures Unmark(plaintext) == Ok(payload) <==> plaintext == Mark(payload)
    ensures Unmark(plaintext) == Err(Rejected) <==> plaintext == [] || plaintext[0] > 1
    ensures Unmark(plaintext) == Err(Undecodable) <==>
            plaintext != [] && plaintext[0] == 0 && Decode(plaintext[1..]).None?
  {
    UnmarkMark(payload);
    if plaintext != [] {
      assert plaintext == [plaintext[0]] + plaintext[1..];
      if Decode(plaintext[1..]).Some? { EncodeDecode(plaintext[1..], Decode(plaintext[1..]).value); }
    }
    hide Decode, Encode;
  }

  /** What the ideal cipher state opens at a given nonce. */
  function Open(key: Key, nonce: nat, data: Cipher): Option<seq<byte>> {
    if data.Sealed? && data.key == key && data.nonce == nonce then Some(data.plaintext) else None
  }

  /** One end of an established session. */
  class NoiseTransport {
    const sendKey: Key
    const recvKey: Key
    var sendNonce: nat
    var recvNonce: nat

    constructor (sendKey: Key, recvKey: Key)
      ensures this.sendKey == sendKey && this.recvKey == recvKey && sendNonce == 0 && recvNonce == 0
    {
      this.sendKey, this.recvKey := sendKey, recvKey;
      sendNonce, recvNonce := 0, 0;
    }

    /** Taking the lock around one encryption makes it one step. */
    method EncryptFrame(payload: Payload) returns (data: Cipher)
      modifies this`sendNonce
      ensures data == Sealed(sendKey, old(sendNonce), Mark(payload))
      ensures sendNonce == old(sendNonce) + 1
    {
      data := Sealed(sendKey, sendNonce, Mark(payload));
      sendNonce := sendNonce + 1;
    }

    /** The counter moves exactly when the ciphertext opened, also when the opened bytes then cannot be read. */
    method DecryptFrame(data: Cipher) returns (r: Result<Payload, Failure>)
      modifies this`recvNonce
      ensures var plain := Open(recvKey, old(recvNonce), data);
              && recvNonce == old(recvNonce) + (if plain.Some? then 1 else 0)
              && r == (if plain.Some? then Unmark(plain.value) else Err(Rejected))
    {
      var plaintext := Open(recvKey, recvNonce, data);
      if plaintext.None? { return Err(Rejected); }
      recvNonce := recvNonce + 1;
      r := Unmark(plaintext.value);
    }
  }

  // ---------------------------------------------------------------- one direction over any network

  /** A raw websocket message: text, or bytes holding a ciphertext. */
  datatype Raw = RawText(text: string) | RawBytes(data: Cipher)

  /** A direction of a session: what was encrypted, and what the receiving client made of its messages. */
  datatype Link = Link(key: Key, sent: seq<Payload>, recvNonce: nat, dispatched: seq<Payload>, closing: bool)

  datatype Event = Encrypted(payload: Payload) | Delivered(raw: Raw)

  /** Ciphertexts the sender has produced so far. */
  predicate Produced(l: Link, c: Cipher) {
    c.Sealed? && c.nonce < |l.sent| && c.plaintext == Mark(l.sent[c.nonce])
  }

  /** Without the key, the network can only repeat the sender's ciphertexts or make some that do not open. */
  predicate CanDeliver(l: Link, raw: Raw) {
    raw.RawBytes? && raw.data.Sealed? && raw.data.key == l.key ==> Produced(l, raw.data)
  }

  /** on_message while a transport is set. */
  function OnMessage(l: Link, raw: Raw): Link {
    match raw
    case RawText(_) => l
    case RawBytes(data) =>
      match Open(l.key, l.recvNonce, data)
      case None => l.(closing := true)
      case Some(plaintext) =>
        var l' := l.(recvNonce := l.recvNonce + 1);
        match Unmark(plaintext)
        case Err(Rejected) => l'.(closing := true)
        case Err(Undecodable) => l'
        case Ok(payload) => l'.(dispatched := l.dispatched + [payload])
  }

  /**
   What a message leads to: text is dropped; what does not open closes and leaves the counter alone; what opens moves
   it, and is dispatched if a sender marked it, closes on an unknown mark, and is lost if it is bad text.
   */
  lemma MessageLeadsTo(l: Link, raw: Raw)
    ensures var opens := raw.RawBytes? && raw.data.Sealed? && raw.data.key == l.key && raw.data.nonce == l.recvNonce;
            var l' := OnMessage(l, raw);
            && (raw.RawText? ==> l' == l)
            && (raw.RawBytes? && !opens ==> l' == l.(closing := true))
            && (opens ==>
                  var plaintext := raw.data.plaintext;
                  && l' == l.(recvNonce := l.recvNonce + 1, dispatched := l'.dispatched, closing := l'.closing)
                  && (forall p | plaintext == Mark(p) ::
                        l'.dispatched == l.dispatched + [p] && l'.closing == l.closing)
                  && ((forall p :: plaintext != Mark(p)) ==> l'.dispatched == l.dispatched)
                  && (plaintext == [] || plaintext[0] > 1 ==> l'.closing)
                  && (plaintext != [] && plaintext[0] == 0 ==> l'.closing == l.closing))
  {
    if raw.RawBytes? && raw.data.Sealed? && raw.data.key == l.key && raw.data.nonce == l.recvNonce {
      var plaintext := raw.data.plaintext;
      forall p ensures Unmark(plaintext) == Ok(p) <==> plaintext == Mark(p) { UnmarkWhen(plaintext, p); }
      UnmarkWhen(plaintext, Text(""));
    }
    hide Mark, Unmark;
  }

  /** The receiving side of a client while a transport is set; sent is what its peer has encrypted. */
  class Receiver {
    const transport: NoiseTransport
    var dispatched: seq<Payload>
    var closing: bool

    constructor (transport: NoiseTransport)
      ensures this.transport == transport && dispatched == [] && !closing
    {
      this.transport := transport;
      dispatched, closing := [], false;
    }

    ghost function State(sent: seq<Payload>): Link
      reads this, transport
    {
      Link(transport.recvKey, sent, transport.recvNonce, dispatched, closing)
    }

    method HandleMessage(raw: Raw)
      modifies this, transport`recvNonce
      ensures forall sent :: State(sent) == OnMessage(old(State(sent)), raw)
    {
      if raw.RawText? { return; }
      var r := transport.DecryptFrame(raw.data);
      match r
      case Ok(payload) => dispatched := dispatched + [payload];
      case Err(Rejected) => closing := true;
      case Err(Undecodable) =>
    }
  }

  function LinkStep(l: Link, e: Event): Link {
    match e
    case Encrypted(payload) => l.(sent := l.sent + [payload])
    case Delivered(raw) => OnMessage(l, raw)
  }

  /** A run in which the network drops, repeats, reorders, delays and forges as it likes. */
  predicate Run(l: Link, es: seq<Event>)
    decreases es
  {
    es == [] || ((es[0].Delivered? ==> CanDeliver(l, es[0].raw)) && Run(LinkStep(l, es[0]), es[1..]))
  }

  function After(l: Link, es: seq<Event>): Link
    decreases es
  {
    if es == [] then l else After(LinkStep(l, es[0]), es[1..])
  }

  function Fresh(key: Key): Link { Link(key, [], 0, [], false) }

  ghost predicate InOrder(l: Link) {
    l.recvNonce == |l.dispatched| <= |l.sent| && l.dispatched == l.sent[..|l.dispatched|]
  }

  lemma LinkStepKeepsOrder(l: Link, e: Event)
    requires InOrder(l) && (e.Delivered? ==> CanDeliver(l, e.raw))
    ensures InOrder(LinkStep(l, e))
  {
    if e.Delivered? && e.raw.RawBytes? && Open(l.key, l.recvNonce, e.raw.data).Some? {
      UnmarkMark(l.sent[l.recvNonce]);
    }
  }

  lemma {:induction false} OrderKept(l: Link, es: seq<Event>)
    requires InOrder(l) && Run(l, es)
    ensures InOrder(After(l, es))
    decreases es
  {
    if es != [] {
      LinkStepKeepsOrder(l, es[0]);
      OrderKept(LinkStep(l, es[0]), es[1..]);
    }
  }

  /** Whatever the network does, what the client dispatches is a prefix of what the peer encrypted. */
  lemma PrefixSafety(key: Key, es: seq<Event>)
    requires Run(Fresh(key), es)
    ensures After(Fresh(key), es).dispatched <= After(Fresh(key), es).sent
  {
    OrderKept(Fresh(key), es);
  }

  /** A session in which a frame was rejected or did not open is being closed, and only such a session. */
  lemma {:induction false} ClosesOnFirstReject(l: Link, es: seq<Event>)
    requires InOrder(l) && Run(l, es) && !l.closing
    ensures !After(l, es).closing <==>
            forall i | 0 <= i < |es| && es[i].Delivered? && es[i].raw.RawBytes? ::
              Open(l.key, After(l, es[..i]).recvNonce, es[i].raw.data).Some?
    decreases es
  {
    if es != [] {
      var l' := LinkStep(l, es[0]);
      LinkStepKeepsOrder(l, es[0]);
      if es[0].Delivered? && es[0].raw.RawBytes? && Open(l.key, l.recvNonce, es[0].raw.data).Some? {
        UnmarkMark(l.sent[l.recvNonce]);
      }
      assert After(l, es[..0]) == l;
      if l'.closing {
        ClosingStays(l', es[1..]);
      } else {
        ClosesOnFirstReject(l', es[1..]);
        forall i | 0 < i <= |es| ensures After(l, es[..i]) == After(l', es[1..][..i - 1]) {
          assert es[..i][1..] == es[1..][..i - 1];
        }
        assert forall i | 0 < i < |es| :: es[i] == es[1..][i - 1];
      }
    }
  }

  lemma {:induction false} ClosingStays(l: Link, es: seq<Event>)
    requires l.closing
    ensures After(l, es).closing
    decreases es
  {
    if es != [] { ClosingStays(LinkStep(l, es[0]), es[1..]); }
  }

  // ---------------------------------------------------------------- when everything arrives

  /** Delivery of the sender's ciphertexts, named by their nonces, in the order given. */
  function DeliverNonces(l: Link, nonces: seq<nat>): Link
    requires forall i | 0 <= i < |nonces| :: nonces[i] < |l.sent|
    decreases nonces
  {
    if nonces == [] then l
    else DeliverNonces(OnMessage(l, RawBytes(Sealed(l.key, nonces[0], Mark(l.sent[nonces[0]])))), nonces[1..])
  }

  lemma {:induction false} DeliverNoncesCounts(l: Link, nonces: seq<nat>)
    requires forall i | 0 <= i < |nonces| :: nonces[i] < |l.sent|
    ensures var l' := DeliverNonces(l, nonces);
            && l'.sent == l.sent
            && l.recvNonce <= l'.recvNonce <= l.recvNonce + |nonces|
            && (l'.recvNonce == l.recvNonce + |nonces| <==>
                forall i | 0 <= i < |nonces| :: nonces[i] == l.recvNonce + i)
    decreases nonces
  {
    if nonces != [] {
      var l' := OnMessage(l, RawBytes(Sealed(l.key, nonces[0], Mark(l.sent[nonces[0]]))));
      DeliverNoncesCounts(l', nonces[1..]);
      if nonces[0] == l.recvNonce {
        assert forall i | 1 <= i < |nonces| :: nonces[i] == nonces[1..][i - 1];
      }
    }
  }

  lemma {:induction false} DeliverNoncesInOrder(l: Link, nonces: seq<nat>)
    requires InOrder(l) && forall i | 0 <= i < |nonces| :: nonces[i] < |l.sent|
    ensures InOrder(DeliverNonces(l, nonces))
    decreases nonces
  {
    if nonces != [] {
      var raw := RawBytes(Sealed(l.key, nonces[0], Mark(l.sent[nonces[0]])));
      LinkStepKeepsOrder(l, Delivered(raw));
      DeliverNoncesInOrder(OnMessage(l, raw), nonces[1..]);
    }
  }

  /**
   Encryption and the socket write are not one step, so frames may reach the wire in another order. When
   each frame arrives exactly once, the peer gets the whole session exactly when they were written in
   encryption order.
   */
  lemma FullDeliveryNeedsEncryptionOrder(key: Key, sent: seq<Payload>, nonces: seq<nat>)
    requires |nonces| == |sent| && forall i | 0 <= i < |nonces| :: nonces[i] < |sent|
    ensures DeliverNonces(Link(key, sent, 0, [], false), nonces).dispatched == sent
       <==> forall i | 0 <= i < |nonces| :: nonces[i] == i
  {
    var l := Link(key, sent, 0, [], false);
    DeliverNoncesCounts(l, nonces);
    DeliverNoncesInOrder(l, nonces);
    var l' := DeliverNonces(l, nonces);
    assert |l'.dispatched| == |sent| ==> l'.dispatched == sent;
  }
}
