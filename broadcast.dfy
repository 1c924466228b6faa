/** The broadcast node (src/bin/broadcast.rs): a message counter, the values
    received so far, the node's own id once initialised, and its neighbours.
    `Process` answers Init, Broadcast, Read and Topology with one reply each
    and rejects every other payload. */
module BroadcastNode {
  import opened MsgProtocol

  /** The payload enum `BroadcastMessage`. */
  datatype BroadcastMessage =
    | Init(nodeId: string, nodeIds: seq<string>)
    | InitOk
    | Broadcast(message: int)
    | BroadcastOk
    | Read
    | ReadOk(messages: seq<int>)
    | Topology(topology: map<string, seq<string>>)
    | TopologyOk

  /** The payloads `process` has an arm for; the rest fall into the error arm. */
  predicate IsRequest(p: BroadcastMessage)
  {
    p.Init? || p.Broadcast? || p.Read? || p.Topology?
  }

  /** The four fields of `BroadcastMaelstromNode`, as a value. */
  datatype NodeState = NodeState(id: int, messages: seq<int>, nodeId: Option<string>, nodeIds: seq<string>)

  /** What `Vec::retain(|n| n != x)` leaves: every element other than `x`, in
      order (see RemoveAllConcat for the order). */
  function RemoveAll(xs: seq<string>, x: string): (r: seq<string>)
    ensures multiset(r) == multiset(xs)[x := 0]
    ensures x !in r
    ensures forall y :: y in r <==> y in xs && y != x
    decreases |xs|
  {
    if xs == [] then []
    else
      var last := xs[|xs| - 1];
      assert xs == xs[..|xs| - 1] + [last];
      RemoveAll(xs[..|xs| - 1], x) + (if last == x then [] else [last])
  }

  /** Filtering distributes over concatenation, so the kept elements keep their
      relative order. */
  lemma {:induction false} RemoveAllConcat(a: seq<string>, b: seq<string>, x: string)
    ensures RemoveAll(a + b, x) == RemoveAll(a, x) + RemoveAll(b, x)
    decreases |b|
  {
    if b == [] {
      assert a + b == a;
    } else {
      var last := b[|b| - 1];
      var front := b[..|b| - 1];
      assert (a + b)[..|a + b| - 1] == a + front;
      assert (a + b)[|a + b| - 1] == last;
      RemoveAllConcat(a, front, x);
    }
  }

  /** Filtering out an id that is not in the list leaves the list as it was. */
  lemma {:induction false} RemoveAllAbsent(xs: seq<string>, x: string)
    requires x !in xs
    ensures RemoveAll(xs, x) == xs
    decreases |xs|
  {
    if xs != [] {
      RemoveAllAbsent(xs[..|xs| - 1], x);
      assert xs == xs[..|xs| - 1] + [xs[|xs| - 1]];
    }
  }

  /** `process` as a function of the node's state: the next state and the outcome. */
  function Step(s: NodeState, msg: Message<BroadcastMessage>): (r: (NodeState, Outcome<BroadcastMessage>))
    // every payload without an arm is rejected, and rejection changes nothing
    ensures r.1.Err? <==> !IsRequest(msg.body.payload)
    ensures r.1.Err? ==> r.0 == s && r.1.unknown == msg
    // every handled payload gets one reply numbered with the pre-call counter
    ensures r.1.Ok? ==> r.0.id == s.id + 1 && r.1.reply.Some? && IsReplyTo(r.1.reply.value, msg, s.id)
    // Init: remember the own id, keep every other node as neighbour
    ensures msg.body.payload.Init? ==>
      && RepliesWith(r.1, msg, s.id, InitOk)
      && r.0.nodeId == Some(msg.body.payload.nodeId)
      && r.0.nodeIds == RemoveAll(msg.body.payload.nodeIds, msg.body.payload.nodeId)
      && r.0.messages == s.messages
    // Broadcast: append the value, duplicates included
    ensures msg.body.payload.Broadcast? ==>
      && RepliesWith(r.1, msg, s.id, BroadcastOk)
      && r.0.messages == s.messages + [msg.body.payload.message]
      && r.0.nodeId == s.nodeId && r.0.nodeIds == s.nodeIds
    // Read: answer with exactly the stored values, change nothing else
    ensures msg.body.payload.Read? ==>
      && RepliesWith(r.1, msg, s.id, ReadOk(s.messages))
      && r.0 == s.(id := s.id + 1)
    // Topology: always acknowledged; applied only when the own id is known and mapped
    ensures msg.body.payload.Topology? ==>
      && RepliesWith(r.1, msg, s.id, TopologyOk)
      && r.0.messages == s.messages && r.0.nodeId == s.nodeId
    ensures msg.body.payload.Topology? && s.nodeId.Some? && s.nodeId.value in msg.body.payload.topology ==>
      r.0.nodeIds == msg.body.payload.topology[s.nodeId.value]
    ensures msg.body.payload.Topology? && !(s.nodeId.Some? && s.nodeId.value in msg.body.payload.topology) ==>
      r.0.nodeIds == s.nodeIds
  {
    match msg.body.payload
    case Init(own, all) =>
      (s.(id := s.id + 1, nodeId := Some(own), nodeIds := RemoveAll(all, own)),
       Ok(Some(Reply(msg, s.id, InitOk))))
    case Broadcast(value) =>
      (s.(id := s.id + 1, messages := s.messages + [value]),
       Ok(Some(Reply(msg, s.id, BroadcastOk))))
    case Read =>
      (s.(id := s.id + 1), Ok(Some(Reply(msg, s.id, ReadOk(s.messages)))))
    case Topology(topology) =>
      var nodeIds := if s.nodeId.Some? && s.nodeId.value in topology then topology[s.nodeId.value] else s.nodeIds;
      (s.(id := s.id + 1, nodeIds := nodeIds), Ok(Some(Reply(msg, s.id, TopologyOk))))
    case _ =>
      (s, Err(msg))
  }

  /** `BroadcastMaelstromNode`, whose `process` updates its fields in place. */
  class BroadcastMaelstromNode {
    var id: int
    var messages: seq<int>
    var nodeId: Option<string>
    // all nodes in the network except this one, once initialised
    var nodeIds: seq<string>

    function State(): NodeState
      reads this
    {
      NodeState(id, messages, nodeId, nodeIds)
    }

    /** `BroadcastMaelstromNode::new`. */
    constructor (id: int, nodeId: Option<string>, messages: seq<int>, nodeIds: seq<string>)
      ensures State() == NodeState(id, messages, nodeId, nodeIds)
    {
      this.id := id;
      this.nodeId := nodeId;
      this.messages := messages;
      this.nodeIds := nodeIds;
    }

    /** `Default::default`: counter at 1, not initialised, nothing stored. */
    constructor Default()
      ensures id == 1 && nodeId == None && messages == [] && nodeIds == []
    {
      id := 1;
      nodeId := None;
      messages := [];
      nodeIds := [];
    }

    /** `self.node_ids.retain(|n| n != own)`. */
    method RetainOthers(own: string)
      modifies this`nodeIds
      ensures nodeIds == RemoveAll(old(nodeIds), own)
    {
      var kept: seq<string> := [];
      var i := 0;
      while i < |nodeIds|
        invariant 0 <= i <= |nodeIds|
        invariant kept == RemoveAll(nodeIds[..i], own)
      {
        assert nodeIds[..i + 1][..i] == nodeIds[..i];
        if nodeIds[i] != own {
          kept := kept + [nodeIds[i]];
        }
        i := i + 1;
      }
      assert nodeIds[..i] == nodeIds;
      nodeIds := kept;
    }

    /** `Processor::process`. */
    method Process(msg: Message<BroadcastMessage>) returns (r: Outcome<BroadcastMessage>)
      modifies this
      ensures (State(), r) == Step(old(State()), msg)
    {
      ghost var pre := State();
      match msg.body.payload {
        case Init(own, all) =>
          r := Ok(Some(Reply(msg, id, InitOk)));
          id := id + 1;
          nodeId := Some(own);
          nodeIds := all;
          RetainOthers(own);
          assert State() == Step(pre, msg).0;
        case Broadcast(value) =>
          messages := messages + [value];
          r := Ok(Some(Reply(msg, id, BroadcastOk)));
          id := id + 1;
        case Read =>
          r := Ok(Some(Reply(msg, id, ReadOk(messages))));
          id := id + 1;
        case Topology(topology) =>
          r := Ok(Some(Reply(msg, id, TopologyOk)));
          if nodeId.Some? && nodeId.value in topology {
            nodeIds := topology[nodeId.value];
          }
          id := id + 1;
        case _ =>
          r := Err(msg);
      }
    }
  }

  /** Over any stream of messages, exactly the handled ones are answered, and
      the counter advances by the number of answers: errors consume no id. */
  lemma {:induction false} RunCountsReplies(s: NodeState, msgs: seq<Message<BroadcastMessage>>)
    ensures Run(Step, s, msgs).0.id == s.id + CountOk(Run(Step, s, msgs).1)
    ensures forall i :: 0 <= i < |msgs| ==> (Run(Step, s, msgs).1[i].Ok? <==> IsRequest(msgs[i].body.payload))
    decreases |msgs|
  {
    if msgs != [] {
      var first := Step(s, msgs[0]);
      var rest := Run(Step, first.0, msgs[1..]);
      RunCons(Step, s, msgs);
      RunCountsReplies(first.0, msgs[1..]);
      var outs := Run(Step, s, msgs).1;
      assert outs[1..] == rest.1;
      forall i | 0 < i < |msgs|
        ensures outs[i].Ok? <==> IsRequest(msgs[i].body.payload)
      {
        assert msgs[i] == msgs[1..][i - 1];
      }
    }
  }

  /** The answer to the `i`-th message of a stream is numbered with the
      counter's value advanced by the answers before it, and goes back to the
      sender of that message. */
  lemma {:induction false} RunReplyAt(s: NodeState, msgs: seq<Message<BroadcastMessage>>, i: nat)
    requires i < |msgs| && Run(Step, s, msgs).1[i].Ok?
    ensures Run(Step, s, msgs).1[i].reply.Some?
    ensures IsReplyTo(Run(Step, s, msgs).1[i].reply.value, msgs[i], s.id + CountOk(Run(Step, s, msgs).1[..i]))
    decreases i
  {
    var first := Step(s, msgs[0]);
    var rest := Run(Step, first.0, msgs[1..]);
    RunCons(Step, s, msgs);
    var outs := Run(Step, s, msgs).1;
    if i == 0 {
      assert outs[..0] == [];
    } else {
      assert outs[i] == rest.1[i - 1];
      RunReplyAt(first.0, msgs[1..], i - 1);
      CountOkCons(first.1, rest.1, i - 1);
      assert msgs[i] == msgs[1..][i - 1];
      assert first.0.id == s.id + (if first.1.Ok? then 1 else 0);
    }
  }

  /** The property the counter test pins down: a stream of handled messages gets
      replies numbered consecutively from the counter's value, each answering
      its own request. */
  lemma {:induction false} RequestsNumberedConsecutively(s: NodeState, msgs: seq<Message<BroadcastMessage>>)
    requires forall i :: 0 <= i < |msgs| ==> IsRequest(msgs[i].body.payload)
    ensures var r := Run(Step, s, msgs);
      && r.0.id == s.id + |msgs|
      && forall i :: 0 <= i < |msgs| ==>
           r.1[i].Ok? && r.1[i].reply.Some? && IsReplyTo(r.1[i].reply.value, msgs[i], s.id + i)
  {
    RunCountsReplies(s, msgs);
    var outs := Run(Step, s, msgs).1;
    forall i | 0 <= i < |msgs|
      ensures outs[i].reply.Some? && IsReplyTo(outs[i].reply.value, msgs[i], s.id + i)
    {
      assert forall j :: 0 <= j < i ==> outs[..i][j] == outs[j];
      assert CountOk(outs[..i]) == i;
      RunReplyAt(s, msgs, i);
    }
    assert outs[..|msgs|] == outs;
  }

  /** A stream of Broadcast messages appends its values in arrival order,
      duplicates included, and leaves the node's identity and neighbours alone. */
  lemma {:induction false} BroadcastsAppendInOrder(s: NodeState, values: seq<int>, msgs: seq<Message<BroadcastMessage>>)
    requires |msgs| == |values|
    requires forall i :: 0 <= i < |msgs| ==> msgs[i].body.payload == Broadcast(values[i])
    ensures var r := Run(Step, s, msgs);
      r.0.messages == s.messages + values && r.0.nodeId == s.nodeId && r.0.nodeIds == s.nodeIds
    decreases |msgs|
  {
    if msgs != [] {
      RunCons(Step, s, msgs);
      var first := Step(s, msgs[0]);
      assert forall i :: 0 <= i < |msgs| - 1 ==> msgs[1..][i] == msgs[i + 1];
      BroadcastsAppendInOrder(first.0, values[1..], msgs[1..]);
      assert s.messages + values == s.messages + [values[0]] + values[1..];
    }
  }

  /** A Read after a stream of Broadcasts returns the earlier values followed
      by the broadcast ones, in arrival order and with duplicates. */
  lemma {:induction false} ReadAfterBroadcasts(s: NodeState, values: seq<int>, msgs: seq<Message<BroadcastMessage>>, read: Message<BroadcastMessage>)
    requires |msgs| == |values|
    requires forall i :: 0 <= i < |msgs| ==> msgs[i].body.payload == Broadcast(values[i])
    requires read.body.payload == Read
    ensures RepliesWith(Step(Run(Step, s, msgs).0, read).1, read, s.id + |msgs|, ReadOk(s.messages + values))
  {
    BroadcastsAppendInOrder(s, values, msgs);
    RequestsNumberedConsecutively(s, msgs);
  }

  /** Stored values are never lost or reordered: the values held before a
      stream are a prefix of those held after it. */
  lemma {:induction false} MessagesOnlyGrow(s: NodeState, msgs: seq<Message<BroadcastMessage>>)
    ensures s.messages <= Run(Step, s, msgs).0.messages
    decreases |msgs|
  {
    if msgs != [] {
      RunCons(Step, s, msgs);
      var first := Step(s, msgs[0]);
      MessagesOnlyGrow(first.0, msgs[1..]);
      assert s.messages <= first.0.messages;
    }
  }

  /** Only Init sets the node's own id: a stream without Init keeps it. */
  lemma {:induction false} NodeIdOnlyFromInit(s: NodeState, msgs: seq<Message<BroadcastMessage>>)
    requires forall i :: 0 <= i < |msgs| ==> !msgs[i].body.payload.Init?
    ensures Run(Step, s, msgs).0.nodeId == s.nodeId
    decreases |msgs|
  {
    if msgs != [] {
      RunCons(Step, s, msgs);
      assert forall i :: 0 <= i < |msgs| - 1 ==> msgs[1..][i] == msgs[i + 1];
      NodeIdOnlyFromInit(Step(s, msgs[0]).0, msgs[1..]);
    }
  }

  /** Unlike Init, Topology installs the mapped list as given: when that list
      names the node itself, the node becomes its own neighbour. */
  lemma TopologyKeepsOwnIdWhenListed(s: NodeState, msg: Message<BroadcastMessage>, own: string)
    requires s.nodeId == Some(own)
    requires msg.body.payload.Topology? && own in msg.body.payload.topology
    requires own in msg.body.payload.topology[own]
    ensures own in Step(s, msg).0.nodeIds
  {
  }

  /** The initialisation test: a fresh node told it is "node1" of
      ["node1", "node2"] answers InitOk numbered 1 and keeps only "node2". */
  method InitScenario()
  {
    var node := new BroadcastMaelstromNode.Default();
    var request := Message(Some("src"), Some("dest"), Body(Some(1), None, Init("node1", ["node1", "node2"])));
    var r := node.Process(request);
    assert RemoveAll(["node1"], "node1") == [];
    assert RemoveAll(["node1", "node2"], "node1") == ["node2"];
    assert r == Ok(Some(Message(Some("dest"), Some("src"), Body(Some(1), Some(1), InitOk))));
    assert node.nodeId == Some("node1") && node.nodeIds == ["node2"];
  }

  /** The topology tests: a node that knows it is "node1" adopts the list the
      topology maps to it; one whose id is not mapped, or not yet known, keeps
      its neighbours. All three are acknowledged. */
  method TopologyScenario()
  {
    var topology := map["node1" := ["node2", "node3"], "node2" := ["node3"], "node3" := ["node2"]];
    var request := Message(Some("src"), Some("dest"), Body(Some(1), None, Topology(topology)));
    var ack := Ok(Some(Message(Some("dest"), Some("src"), Body(Some(1), Some(1), TopologyOk))));

    var known := new BroadcastMaelstromNode(1, Some("node1"), [], ["node1"]);
    var r := known.Process(request);
    assert r == ack && known.nodeIds == ["node2", "node3"];

    var uninitialised := new BroadcastMaelstromNode.Default();
    r := uninitialised.Process(request);
    assert r == ack && uninitialised.nodeId == None && uninitialised.nodeIds == [];

    var unmapped := new BroadcastMaelstromNode(1, Some("node1"), [], ["node1"]);
    request := request.(body := request.body.(payload := Topology(topology - {"node1"})));
    r := unmapped.Process(request);
    assert r == ack && unmapped.nodeIds == ["node1"];
  }
}
