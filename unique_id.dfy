/** The unique-id node (src/bin/unique-id.rs). It answers Generate with a
    freshly drawn UUID; drawing it is a random foreign call, so the value is an
    input here: `Process` receives the UUID that `Uuid::new_v4()` would have
    returned, and nothing is claimed about its uniqueness. */
module UniqueId {
  import opened MsgProtocol

  /** A version-4 UUID: 128 opaque bits. */
  type Uuid = bv128

  /** The payload enum `UniqueIdMessage`. */
  datatype UniqueIdMessage =
    | Init(nodeId: string, nodeIds: seq<string>)
    | InitOk
    | Generate
    | GenerateOk(id: Uuid)

  /** The payloads `process` has an arm for. */
  predicate IsRequest(p: UniqueIdMessage)
  {
    p.Init? || p.Generate?
  }

  /** One inbound message together with the UUID the generator yields while
      it is processed. */
  datatype Delivery = Delivery(msg: Message<UniqueIdMessage>, uuid: Uuid)

  /** `process` as a function of the counter: the next counter and the outcome. */
  function Step(id: int, d: Delivery): (r: (int, Outcome<UniqueIdMessage>))
    ensures r.1.Err? <==> !IsRequest(d.msg.body.payload)
    ensures r.1.Err? ==> r.0 == id && r.1.unknown == d.msg
    ensures d.msg.body.payload.Init? ==> RepliesWith(r.1, d.msg, id, InitOk) && r.0 == id + 1
    // Generate is answered with the generator's value
    ensures d.msg.body.payload.Generate? ==> RepliesWith(r.1, d.msg, id, GenerateOk(d.uuid)) && r.0 == id + 1
  {
    match d.msg.body.payload
    case Init(_, _) => (id + 1, Ok(Some(Reply(d.msg, id, InitOk))))
    case Generate => (id + 1, Ok(Some(Reply(d.msg, id, GenerateOk(d.uuid)))))
    case _ => (id, Err(d.msg))
  }

  /** `UniqueIdGeneratorMaelstromNode`. */
  class UniqueIdGeneratorMaelstromNode {
    var id: int

    /** `UniqueIdGeneratorMaelstromNode::new`. */
    constructor (id: int)
      ensures this.id == id
    {
      this.id := id;
    }

    /** `Default::default`: the counter starts at 1. */
    constructor Default()
      ensures id == 1
    {
      id := 1;
    }

    /** `Processor::process`; `uuid` stands for the value of `Uuid::new_v4()`. */
    method Process(msg: Message<UniqueIdMessage>, uuid: Uuid) returns (r: Outcome<UniqueIdMessage>)
      modifies this
      ensures (id, r) == Step(old(id), Delivery(msg, uuid))
    {
      match msg.body.payload {
        case Init(_, _) =>
          r := Ok(Some(Reply(msg, id, InitOk)));
          id := id + 1;
        case Generate =>
          r := Ok(Some(Reply(msg, id, GenerateOk(uuid))));
          id := id + 1;
        case _ =>
          r := Err(msg);
      }
    }
  }

  /** Over any stream, exactly the Init and Generate messages are answered, and
      the counter advances by the number of answers. */
  lemma {:induction false} RunCountsReplies(id: int, ds: seq<Delivery>)
    ensures Run(Step, id, ds).0 == id + CountOk(Run(Step, id, ds).1)
    ensures forall i :: 0 <= i < |ds| ==> (Run(Step, id, ds).1[i].Ok? <==> IsRequest(ds[i].msg.body.payload))
    decreases |ds|
  {
    if ds != [] {
      var first := Step(id, ds[0]);
      var rest := Run(Step, first.0, ds[1..]);
      RunCons(Step, id, ds);
      RunCountsReplies(first.0, ds[1..]);
      var outs := Run(Step, id, ds).1;
      assert outs[1..] == rest.1;
      forall i | 0 < i < |ds|
        ensures outs[i].Ok? <==> IsRequest(ds[i].msg.body.payload)
      {
        assert ds[i] == ds[1..][i - 1];
      }
    }
  }

  /** The answer to the `i`-th message of a stream carries the counter's value
      advanced by the answers before it, goes back to that message's sender,
      and a GenerateOk answer carries the UUID drawn for that message. */
  lemma {:induction false} RunReplyAt(id: int, ds: seq<Delivery>, i: nat)
    requires i < |ds| && Run(Step, id, ds).1[i].Ok?
    ensures Run(Step, id, ds).1[i].reply.Some?
    ensures IsReplyTo(Run(Step, id, ds).1[i].reply.value, ds[i].msg, id + CountOk(Run(Step, id, ds).1[..i]))
    ensures ds[i].msg.body.payload.Generate? ==> Run(Step, id, ds).1[i].reply.value.body.payload == GenerateOk(ds[i].uuid)
    decreases i
  {
    var first := Step(id, ds[0]);
    var rest := Run(Step, first.0, ds[1..]);
    RunCons(Step, id, ds);
    var outs := Run(Step, id, ds).1;
    if i == 0 {
      assert outs[..0] == [];
    } else {
      assert outs[i] == rest.1[i - 1];
      RunReplyAt(first.0, ds[1..], i - 1);
      CountOkCons(first.1, rest.1, i - 1);
      assert ds[i] == ds[1..][i - 1];
    }
  }

  /** Consecutive Init/Generate requests get consecutive message ids. */
  lemma {:induction false} RequestsNumberedConsecutively(id: int, ds: seq<Delivery>)
    requires forall i :: 0 <= i < |ds| ==> IsRequest(ds[i].msg.body.payload)
    ensures var r := Run(Step, id, ds);
      && r.0 == id + |ds|
      && forall i :: 0 <= i < |ds| ==>
           r.1[i].Ok? && r.1[i].reply.Some? && IsReplyTo(r.1[i].reply.value, ds[i].msg, id + i)
  {
    RunCountsReplies(id, ds);
    var outs := Run(Step, id, ds).1;
    forall i | 0 <= i < |ds|
      ensures outs[i].reply.Some? && IsReplyTo(outs[i].reply.value, ds[i].msg, id + i)
    {
      assert forall j :: 0 <= j < i ==> outs[..i][j] == outs[j];
      assert CountOk(outs[..i]) == i;
      RunReplyAt(id, ds, i);
    }
    assert outs[..|ds|] == outs;
  }
}
