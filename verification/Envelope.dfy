/** Message envelopes: the chain of signatures their hops leave, and the route they take
    (src/messaging/mod.rs). Signatures are ideal: one names the key and the very bytes it was made for,
    and nothing else verifies. Serialisation is injective: bytes are the thing they were made from. */
module Envelope {
  import opened Common

  datatype Address = Client(name: XorName) | Node(name: XorName) | Section(name: XorName)

  datatype NodeDuties = NodeConfig

  datatype AdultDuties = ChunkStorage

  datatype ElderDuties = Gateway | Metadata | Payment | Transfer | Rewards

  datatype Duty = Adult(adult: AdultDuties) | Elder(elder: ElderDuties) | NodeDuty(node: NodeDuties)

  /** What a command needs for its route; `body` is the rest of it. */
  datatype Cmd =
    | Auth(body: Bytes)
    | Data(dst: XorName, payer: PublicKey, body: Bytes)
    | TransferCmd(dst: XorName, body: Bytes)

  datatype Message =
    | Command(cmd: Cmd, id: XorName)
    | Query(dst: XorName, id: XorName, body: Bytes)
    | Event(client: XorName, id: XorName, body: Bytes)
    | QueryResponse(queryOrigin: Address, id: XorName, body: Bytes)
    | CmdError(cmdOrigin: Address, id: XorName, body: Bytes)
    | NodeCmd(dstAddress: Address, id: XorName, body: Bytes)
    | NodeEvent(dstAddress: Address, id: XorName, body: Bytes)
    | NodeQuery(dstAddress: Address, id: XorName, body: Bytes)
    | NodeCmdError(cmdOrigin: Address, id: XorName, body: Bytes)
    | NodeQueryResponse(queryOrigin: Address, id: XorName, body: Bytes)

  datatype Proof = Proof(key: PublicKey, signature: Signature)

  datatype MsgSender =
    | ClientSender(proof: Proof)
    | NodeSender(duty: Duty, proof: Proof)
    | SectionSender(duty: Duty, proof: Proof)

  datatype MsgEnvelope = MsgEnvelope(message: Message, origin: MsgSender, proxies: seq<MsgSender>)

  /** Serialised bytes. */
  datatype Payload = OfMessage(message: Message) | OfEnvelope(envelope: MsgEnvelope)

  datatype Signature = Signature(key: PublicKey, payload: Payload)

  predicate Verifies(key: PublicKey, signature: Signature, payload: Payload) {
    signature == Signature(key, payload)
  }

  function MostRecentSender(e: MsgEnvelope): MsgSender {
    if e.proxies == [] then e.origin else e.proxies[|e.proxies| - 1]
  }

  /** Where a sender is to be found. */
  function SenderAddress(sender: MsgSender): Address {
    match sender
    case ClientSender(proof) => Client(KeyName(proof.key))
    case NodeSender(_, proof) => Node(KeyName(proof.key))
    case SectionSender(_, proof) => Section(KeyName(proof.key))
  }

  function WithProxy(e: MsgEnvelope, proxy: MsgSender): MsgEnvelope {
    e.(proxies := e.proxies + [proxy])
  }

  /** Checks the last signature only. */
  predicate Verify(e: MsgEnvelope) {
    var payload := if e.proxies == [] then OfMessage(e.message)
                   else OfEnvelope(e.(proxies := e.proxies[..|e.proxies| - 1]));
    var signer := MostRecentSender(e).proof;
    Verifies(signer.key, signer.signature, payload)
  }

  function Destination(e: MsgEnvelope): Address {
    match e.message
    case Command(cmd, _) => CmdDst(e, cmd)
    case Query(dst, _, _) => Section(dst)
    case Event(client, _, _) => Client(client)
    case QueryResponse(queryOrigin, _, _) => queryOrigin
    case CmdError(cmdOrigin, _, _) => cmdOrigin
    case NodeCmd(dst, _, _) => dst
    case NodeEvent(dst, _, _) => dst
    case NodeQuery(dst, _, _) => dst
    case NodeCmdError(cmdOrigin, _, _) => cmdOrigin
    case NodeQueryResponse(queryOrigin, _, _) => queryOrigin
  }

  function CmdDst(e: MsgEnvelope, cmd: Cmd): Address {
    match cmd
    case Auth(_) => Section(KeyName(e.origin.proof.key))
    case TransferCmd(dst, _) => Section(dst)
    case Data(dst, payer, _) =>
      match MostRecentSender(e)
      case ClientSender(_) => Section(KeyName(e.origin.proof.key))
      case NodeSender(Elder(Gateway), _) => Section(KeyName(payer))
      case NodeSender(Elder(Payment), _) => Section(dst)
      case SectionSender(Elder(Payment), _) => Section(dst)
      case _ => Section(KeyName(e.origin.proof.key))
  }

  // ----- the signature chain

  /** The envelope as it was after its first `n` proxies. */
  function Prefix(e: MsgEnvelope, n: nat): MsgEnvelope
    requires n <= |e.proxies|
  {
    e.(proxies := e.proxies[..n])
  }

  /** The origin signed the message, and every proxy the envelope as it received it. */
  ghost predicate ChainSigned(e: MsgEnvelope) {
    && e.origin.proof.signature == Signature(e.origin.proof.key, OfMessage(e.message))
    && forall i | 0 <= i < |e.proxies| ::
         e.proxies[i].proof.signature == Signature(e.proxies[i].proof.key, OfEnvelope(Prefix(e, i)))
  }

  /** An envelope verifies at every stage of its journey exactly if every hop signed what it received. */
  lemma VerifiesThroughout(e: MsgEnvelope)
    ensures (forall n | 0 <= n <= |e.proxies| :: Verify(Prefix(e, n))) <==> ChainSigned(e)
  {
    forall n | 0 < n <= |e.proxies|
      ensures Verify(Prefix(e, n)) <==>
          e.proxies[n - 1].proof.signature == Signature(e.proxies[n - 1].proof.key, OfEnvelope(Prefix(e, n - 1)))
    {
      assert Prefix(e, n).proxies[..n - 1] == e.proxies[..n - 1];
    }
    assert Verify(Prefix(e, 0)) <==> e.origin.proof.signature == Signature(e.origin.proof.key, OfMessage(e.message));
    if forall n | 0 <= n <= |e.proxies| :: Verify(Prefix(e, n)) {
      forall i | 0 <= i < |e.proxies|
        ensures e.proxies[i].proof.signature == Signature(e.proxies[i].proof.key, OfEnvelope(Prefix(e, i)))
      {
        assert Verify(Prefix(e, i + 1));
      }
    }
  }

  /** Someone who sends or hands on a message: a client, a node with a duty, or a section that has
      accumulated its own signature. */
  datatype Hop =
    | ClientHop(key: PublicKey)
    | NodeHop(duty: Duty, key: PublicKey)
    | SectionHop(duty: Duty, key: PublicKey)

  /** The sender a hop adds, having signed the payload. */
  function Signed(hop: Hop, payload: Payload): MsgSender {
    var proof := Proof(hop.key, Signature(hop.key, payload));
    match hop
    case ClientHop(_) => ClientSender(proof)
    case NodeHop(duty, _) => NodeSender(duty, proof)
    case SectionHop(duty, _) => SectionSender(duty, proof)
  }

  /** The envelope an honest origin sends, after honest hops. */
  function Travel(message: Message, origin: Hop, hops: seq<Hop>): (e: MsgEnvelope)
    ensures |e.proxies| == |hops| && e.message == message && e.origin == Signed(origin, OfMessage(message))
  {
    if hops == [] then MsgEnvelope(message, Signed(origin, OfMessage(message)), [])
    else
      var before := Travel(message, origin, hops[..|hops| - 1]);
      WithProxy(before, Signed(hops[|hops| - 1], OfEnvelope(before)))
  }

  /** Every envelope that travelled through honest hops is signed throughout, hence verifies at every
      stage. */
  lemma {:induction false} HonestTravelVerifies(message: Message, origin: Hop, hops: seq<Hop>)
    ensures ChainSigned(Travel(message, origin, hops))
    ensures forall n | 0 <= n <= |hops| :: Verify(Prefix(Travel(message, origin, hops), n))
  {
    var e := Travel(message, origin, hops);
    if hops != [] {
      var before := Travel(message, origin, hops[..|hops| - 1]);
      HonestTravelVerifies(message, origin, hops[..|hops| - 1]);
      forall i | 0 <= i < |e.proxies|
        ensures e.proxies[i].proof.signature == Signature(e.proxies[i].proof.key, OfEnvelope(Prefix(e, i)))
      {
        if i < |before.proxies| {
          assert e.proxies[..i] == before.proxies[..i];
          assert Prefix(e, i) == Prefix(before, i);
        } else {
          assert e.proxies[..i] == before.proxies;
          assert Prefix(e, i) == before;
        }
      }
    }
    VerifiesThroughout(e);
  }

  /** Though only the last link is checked, the last signature stands for everything before it: two
      envelopes that verify with one signature by a proxy carry the same message, from the same origin,
      through the same earlier hops. */
  lemma LastSignatureCoversAll(a: MsgEnvelope, b: MsgEnvelope)
    requires Verify(a) && Verify(b) && a.proxies != []
    requires MostRecentSender(a).proof == MostRecentSender(b).proof
    ensures |a.proxies| == |b.proxies| && a.message == b.message && a.origin == b.origin
    ensures a.proxies[..|a.proxies| - 1] == b.proxies[..|b.proxies| - 1]
  {
    var before := a.(proxies := a.proxies[..|a.proxies| - 1]);
    assert MostRecentSender(a).proof.signature.payload == OfEnvelope(before);
    assert b.proxies != [];
    var before' := b.(proxies := b.proxies[..|b.proxies| - 1]);
    assert MostRecentSender(b).proof.signature.payload == OfEnvelope(before');
    assert before == before';
    assert |before.proxies| == |a.proxies| - 1 && |before'.proxies| == |b.proxies| - 1;
  }

  /** What checking the last link leaves open is exactly the links before: an envelope that verifies is
      signed throughout exactly if it was when its last hop received it. */
  lemma LastLinkIsNotTheChain(e: MsgEnvelope)
    requires Verify(e) && e.proxies != []
    ensures ChainSigned(e) <==> ChainSigned(Prefix(e, |e.proxies| - 1))
  {
    var n := |e.proxies| - 1;
    var before := Prefix(e, n);
    assert forall i | 0 <= i < n :: before.proxies[i] == e.proxies[i];
    forall i | 0 <= i < n
      ensures Prefix(before, i) == Prefix(e, i)
    {
      assert before.proxies[..i] == e.proxies[..i];
    }
    assert e.proxies[n].proof.signature == Signature(e.proxies[n].proof.key, OfEnvelope(before));
    if ChainSigned(e) {
      forall i | 0 <= i < n
        ensures before.proxies[i].proof.signature ==
            Signature(before.proxies[i].proof.key, OfEnvelope(Prefix(before, i)))
      {
        assert Prefix(before, i) == Prefix(e, i);
      }
    }
    if ChainSigned(before) {
      forall i | 0 <= i < |e.proxies|
        ensures e.proxies[i].proof.signature == Signature(e.proxies[i].proof.key, OfEnvelope(Prefix(e, i)))
      {
        if i < n {
          assert Prefix(before, i) == Prefix(e, i);
          assert before.proxies[i] == e.proxies[i];
        }
      }
    }
  }

  /** One honest hop makes any envelope verify, however it came to be, and neither mends nor breaks the
      chain before it. */
  lemma HonestHopVerifies(before: MsgEnvelope, hop: Hop)
    ensures var after := WithProxy(before, Signed(hop, OfEnvelope(before)));
            Verify(after) && (ChainSigned(after) <==> ChainSigned(before))
  {
    var after := WithProxy(before, Signed(hop, OfEnvelope(before)));
    assert Prefix(after, |before.proxies|) == before by {
      assert after.proxies[..|before.proxies|] == before.proxies;
    }
    LastLinkIsNotTheChain(after);
  }

  /** And those links can be wrong: an envelope whose origin is signed with another key verifies once a
      gateway has signed it, although it did not verify before. `VerifiesThroughout` says when an
      envelope that verifies is signed throughout. */
  lemma UnsignedOriginVerifies(message: Message, client: PublicKey, other: PublicKey, gateway: PublicKey)
    requires client != other
    ensures var origin := ClientSender(Proof(client, Signature(other, OfMessage(message))));
            var sent := MsgEnvelope(message, origin, []);
            var e := WithProxy(sent, Signed(NodeHop(Elder(Gateway), gateway), OfEnvelope(sent)));
            Verify(e) && !Verify(sent) && !ChainSigned(e)
  {
    var sent := MsgEnvelope(message, ClientSender(Proof(client, Signature(other, OfMessage(message)))), []);
    var e := WithProxy(sent, Signed(NodeHop(Elder(Gateway), gateway), OfEnvelope(sent)));
    assert e.(proxies := e.proxies[..0]) == sent;
  }

  // ----- the route

  predicate IsData(m: Message) {
    m.Command? && m.cmd.Data?
  }

  predicate OnGatewayNode(sender: MsgSender) {
    sender.NodeSender? && sender.duty == Elder(Gateway)
  }

  predicate OnPayment(sender: MsgSender) {
    !sender.ClientSender? && sender.duty == Elder(Payment)
  }

  /** Hops decide nothing but the destination of data commands, and of those only the last hop does. */
  lemma HopsBeforeTheLastDoNotCount(a: MsgEnvelope, b: MsgEnvelope)
    requires a.message == b.message && a.origin == b.origin
    requires IsData(a.message) ==> MostRecentSender(a) == MostRecentSender(b)
    ensures Destination(a) == Destination(b)
  {
  }

  /** Where any data command goes next: to the payer from a gateway node, to the data from a node or a
      section on payment duty, and back to the origin from everyone else: clients, other duties, and
      sections on gateway duty. */
  lemma DataGoesByLastSender(e: MsgEnvelope)
    requires IsData(e.message)
    ensures Destination(e) ==
        if OnGatewayNode(MostRecentSender(e)) then Section(KeyName(e.message.cmd.payer))
        else if OnPayment(MostRecentSender(e)) then Section(e.message.cmd.dst)
        else Section(KeyName(e.origin.proof.key))
  {
  }

  /** Answers and errors find their way back: one that records the address of the sender it answers goes to
      the client, node or section whose key that sender showed, whoever answers and whatever the hops. */
  lemma AnswersReturn(asked: MsgEnvelope, answer: MsgEnvelope)
    requires match answer.message
             case QueryResponse(to, _, _) => to == SenderAddress(asked.origin)
             case CmdError(to, _, _) => to == SenderAddress(asked.origin)
             case NodeCmdError(to, _, _) => to == SenderAddress(asked.origin)
             case NodeQueryResponse(to, _, _) => to == SenderAddress(asked.origin)
             case _ => false
    ensures var name := KeyName(asked.origin.proof.key);
            Destination(answer) == if asked.origin.ClientSender? then Client(name)
                                   else if asked.origin.NodeSender? then Node(name)
                                   else Section(name)
  {
  }

  /** All other messages but data commands name their destination themselves, except that an authorisation
      goes to the section of its origin. */
  lemma OthersGoWhereTheySay(e: MsgEnvelope)
    ensures e.message.Command? && e.message.cmd.Auth? ==> Destination(e) == Section(KeyName(e.origin.proof.key))
    ensures e.message.Command? && e.message.cmd.TransferCmd? ==> Destination(e) == Section(e.message.cmd.dst)
    ensures e.message.Query? ==> Destination(e) == Section(e.message.dst)
    ensures e.message.Event? ==> Destination(e) == Client(e.message.client)
    ensures e.message.NodeCmd? || e.message.NodeEvent? || e.message.NodeQuery? ==>
        Destination(e) == e.message.dstAddress
  {
  }

  /** The whole route of a data command, whoever sent it and whatever hops it took before: from the client
      to its own section, from a gateway to the section of the payer, from payment to the section of the
      data; and the envelope verifies all along. */
  lemma DataRoute(message: Message, origin: Hop, earlier: seq<Hop>, gateway: PublicKey, payment: Hop)
    requires IsData(message)
    requires !payment.ClientHop? && payment.duty == Elder(Payment)
    ensures var atOrigin := Travel(message, origin, []);
            var atGateway := Travel(message, origin, earlier + [NodeHop(Elder(Gateway), gateway)]);
            var atPayment := Travel(message, origin, earlier + [NodeHop(Elder(Gateway), gateway)] + [payment]);
            && Verify(atOrigin) && Verify(atGateway) && Verify(atPayment)
            && (origin.ClientHop? ==> Destination(atOrigin) == Section(KeyName(origin.key)))
            && Destination(atGateway) == Section(KeyName(message.cmd.payer))
            && Destination(atPayment) == Section(message.cmd.dst)
  {
    var toGateway := earlier + [NodeHop(Elder(Gateway), gateway)];
    LastHop(message, origin, toGateway);
    LastHop(message, origin, toGateway + [payment]);
    DataGoesByLastSender(Travel(message, origin, []));
    DataGoesByLastSender(Travel(message, origin, toGateway));
    DataGoesByLastSender(Travel(message, origin, toGateway + [payment]));
    TravelVerifies(message, origin, []);
    TravelVerifies(message, origin, toGateway);
    TravelVerifies(message, origin, toGateway + [payment]);
  }

  lemma LastHop(message: Message, origin: Hop, hops: seq<Hop>)
    requires hops != []
    ensures var before := Travel(message, origin, hops[..|hops| - 1]);
            MostRecentSender(Travel(message, origin, hops)) == Signed(hops[|hops| - 1], OfEnvelope(before))
  {
  }

  lemma TravelVerifies(message: Message, origin: Hop, hops: seq<Hop>)
    ensures Verify(Travel(message, origin, hops))
  {
    HonestTravelVerifies(message, origin, hops);
    var e := Travel(message, origin, hops);
    assert e.proxies[..|hops|] == e.proxies;
    assert Prefix(e, |hops|) == e;
  }
}
