/** The echo node (src/bin/echo.rs) over the shared payload enum of
    src/lib.rs. Its only state is the message counter. */
module Echo {
  import opened MsgProtocol

  /** The payload enum `MessageBodyType` declared in src/lib.rs. */
  datatype MessageBodyType =
    | Init(nodeId: string, nodeIds: seq<string>)
    | InitOk
    | EchoOk(echo: string)
    | Echo(echo: string)
    | Generate
    | GenerateOk(id: int)

  /** The payloads `EchoProcessor::process` has an arm for. */
  predicate IsRequest(p: MessageBodyType)
  {
    p.Init? || p.Echo?
  }

  /** `process` as a function of the counter: the next counter and the outcome. */
  function Step(id: int, msg: Message<MessageBodyType>): (r: (int, Outcome<MessageBodyType>))
    ensures r.1.Err? <==> !IsRequest(msg.body.payload)
    ensures r.1.Err? ==> r.0 == id && r.1.unknown == msg
    // Init is acknowledged; node_id and node_ids are ignored
    ensures msg.body.payload.Init? ==> RepliesWith(r.1, msg, id, InitOk) && r.0 == id + 1
    // Echo is answered with the same text
    ensures msg.body.payload.Echo? ==> RepliesWith(r.1, msg, id, EchoOk(msg.body.payload.echo)) && r.0 == id + 1
  {
    match msg.body.payload
    case Init(_, _) => (id + 1, Ok(Some(Reply(msg, id, InitOk))))
    case Echo(echo) => (id + 1, Ok(Some(Reply(msg, id, EchoOk(echo)))))
    case _ => (id, Err(msg))
  }

  /** `EchoProcessor`. */
  class EchoProcessor {
    var id: int

    /** `EchoProcessor::new`. */
    constructor (id: int)
      ensures this.id == id
    {
      this.id := id;
    }

    /** `Default::default`: the counter starts at 1. */
    constructor Default()
      ensures id == 1
    {
      id := 1;
    }

    /** `Processor::process`. */
    method Process(msg: Message<MessageBodyType>) returns (r: Outcome<MessageBodyType>)
      modifies this
      ensures (id, r) == Step(old(id), msg)
    {
      match msg.body.payload {
        case Init(_, _) =>
          r := Ok(Some(Reply(msg, id, InitOk)));
          id := id + 1;
        case Echo(echo) =>
          var reply := Reply(msg, id, EchoOk(echo));
          id := id + 1;
          r := Ok(Some(reply));
        case _ =>
          r := Err(msg);
      }
    }
  }

  /** Over any stream, exactly the Init and Echo messages are answered, and the
      counter advances by the number of answers. */
  lemma {:induction false} RunCountsReplies(id: int, msgs: seq<Message<MessageBodyType>>)
    ensures Run(Step, id, msgs).0 == id + CountOk(Run(Step, id, msgs).1)
    ensures forall i :: 0 <= i < |msgs| ==> (Run(Step, id, msgs).1[i].Ok? <==> IsRequest(msgs[i].body.payload))
    decreases |msgs|
  {
    if msgs != [] {
      var first := Step(id, msgs[0]);
      var rest := Run(Step, first.0, msgs[1..]);
      RunCons(Step, id, msgs);
      RunCountsReplies(first.0, msgs[1..]);
      var outs := Run(Step, id, msgs).1;
      assert outs[1..] == rest.1;
      forall i | 0 < i < |msgs|
        ensures outs[i].Ok? <==> IsRequest(msgs[i].body.payload)
      {
        assert msgs[i] == msgs[1..][i - 1];
      }
    }
  }

  /** The answer to the `i`-th message of a stream carries the counter's value
      advanced by the answers before it and goes back to that message's sender. */
  lemma {:induction false} RunReplyAt(id: int, msgs: seq<Message<MessageBodyType>>, i: nat)
    requires i < |msgs| && Run(Step, id, msgs).1[i].Ok?
    ensures Run(Step, id, msgs).1[i].reply.Some?
    ensures IsReplyTo(Run(Step, id, msgs).1[i].reply.value, msgs[i], id + CountOk(Run(Step, id, msgs).1[..i]))
    decreases i
  {
    var first := Step(id, msgs[0]);
    var rest := Run(Step, first.0, msgs[1..]);
    RunCons(Step, id, msgs);
    var outs := Run(Step, id, msgs).1;
    if i == 0 {
      assert outs[..0] == [];
    } else {
      assert outs[i] == rest.1[i - 1];
      RunReplyAt(first.0, msgs[1..], i - 1);
      CountOkCons(first.1, rest.1, i - 1);
      assert msgs[i] == msgs[1..][i - 1];
    }
  }

  /** The counter test: consecutive Init/Echo requests get consecutive message
      ids, each reply answering its own request. */
  lemma {:induction false} RequestsNumberedConsecutively(id: int, msgs: seq<Message<MessageBodyType>>)
    requires forall i :: 0 <= i < |msgs| ==> IsRequest(msgs[i].body.payload)
    ensures var r := Run(Step, id, msgs);
      && r.0 == id + |msgs|
      && forall i :: 0 <= i < |msgs| ==>
           r.1[i].Ok? && r.1[i].reply.Some? && IsReplyTo(r.1[i].reply.value, msgs[i], id + i)
  {
    RunCountsReplies(id, msgs);
    var outs := Run(Step, id, msgs).1;
    forall i | 0 <= i < |msgs|
      ensures outs[i].reply.Some? && IsReplyTo(outs[i].reply.value, msgs[i], id + i)
    {
      assert forall j :: 0 <= j < i ==> outs[..i][j] == outs[j];
      assert CountOk(outs[..i]) == i;
      RunReplyAt(id, msgs, i);
    }
    assert outs[..|msgs|] == outs;
  }
}
