/** The envelope shared by every node kind (src/lib.rs, module `msg_protocol`):
    a message carries an optional sender and addressee and a body holding an
    optional message id, an optional correlation id and a tagged payload.
    A processor consumes one inbound message and yields either at most one
    reply or an error naming the message it did not recognise. */
module MsgProtocol {

  datatype Option<+T> = None | Some(value: T)

  /** `Message`: `src`, `dest` and `body`. The payload type is a parameter,
      one enum per node kind. */
  datatype Message<P> = Message(src: Option<string>, dest: Option<string>, body: Body<P>)

  /** `Body`: `msg_id` and `in_reply_to` (i64, or usize in src/main.rs; unbounded here)
      and the payload that serde flattens into the body. */
  datatype Body<P> = Body(msgId: Option<int>, inReplyTo: Option<int>, payload: P)

  /** What `Processor::process` returns: `Ok` with at most one reply, or the
      "Received unknown message" error, which carries the offending message. */
  datatype Outcome<P> = Ok(reply: Option<Message<P>>) | Err(unknown: Message<P>)

  /** The reply every handler builds: `src` and `dest` swapped, stamped with the
      processor's current counter, correlated to the request's `msg_id`. */
  function Reply<P>(request: Message<P>, id: int, payload: P): Message<P>
  {
    Message(request.dest, request.src, Body(Some(id), request.body.msgId, payload))
  }

  /** `reply` answers `request`: it goes back to the sender, from the address the
      request was sent to, carries message id `id` and names the request's id
      as the one it replies to. */
  predicate IsReplyTo<P>(reply: Message<P>, request: Message<P>, id: int)
  {
    && reply.src == request.dest
    && reply.dest == request.src
    && reply.body.msgId == Some(id)
    && reply.body.inReplyTo == request.body.msgId
  }

  /** The outcome is a successful single reply to `request`, numbered `id`,
      whose payload is `payload`. */
  predicate RepliesWith<P(==)>(o: Outcome<P>, request: Message<P>, id: int, payload: P)
  {
    o.Ok? && o.reply.Some? && IsReplyTo(o.reply.value, request, id) && o.reply.value.body.payload == payload
  }

  /** The runner's loop over the input stream, without the I/O: feed the inputs
      to `step` one at a time, in order, threading the processor's state, and
      collect one outcome per input. */
  function Run<S, I, O>(step: (S, I) -> (S, O), s: S, inputs: seq<I>): (r: (S, seq<O>))
    ensures |r.1| == |inputs|
    decreases |inputs|
  {
    if inputs == [] then (s, [])
    else
      var first := step(s, inputs[0]);
      var rest := Run(step, first.0, inputs[1..]);
      (rest.0, [first.1] + rest.1)
  }

  /** The number of successful outcomes: every one of them is a reply and
      consumes one message id. */
  function CountOk<P>(outs: seq<Outcome<P>>): (n: nat)
    ensures n <= |outs|
    ensures n == |outs| <==> forall i :: 0 <= i < |outs| ==> outs[i].Ok?
    decreases |outs|
  {
    if outs == [] then 0
    else (if outs[0].Ok? then 1 else 0) + CountOk(outs[1..])
  }

  /** Peeling the first input off a run. */
  lemma RunCons<S, I, O>(step: (S, I) -> (S, O), s: S, inputs: seq<I>)
    requires inputs != []
    ensures Run(step, s, inputs).0 == Run(step, step(s, inputs[0]).0, inputs[1..]).0
    ensures Run(step, s, inputs).1 == [step(s, inputs[0]).1] + Run(step, step(s, inputs[0]).0, inputs[1..]).1
  {
  }

  /** Counting the successes of a prefix one outcome at a time. */
  lemma {:induction false} CountOkCons<P>(o: Outcome<P>, outs: seq<Outcome<P>>, i: nat)
    requires i <= |outs|
    ensures CountOk(([o] + outs)[..i + 1]) == (if o.Ok? then 1 else 0) + CountOk(outs[..i])
  {
    assert ([o] + outs)[..i + 1] == [o] + outs[..i];
    assert ([o] + outs[..i])[1..] == outs[..i];
  }
}
