# Maelstrom node processors

A model of the message processors of maelstrom-rust: small Rust programs that
each play one node of a Maelstrom workload. Each program owns a processor
object. The processor takes one inbound message, updates its own fields and
returns either at most one reply or an "unknown message" error. Every reply goes
back to the sender, with `src` and `dest` swapped. It is stamped with the
processor's counter as `msg_id` and carries the request's `msg_id` as
`in_reply_to`. The counter advances by one per reply.

Four processors are modelled:

- `BroadcastNode` (src/bin/broadcast.rs). It keeps a counter, the broadcast
  values received so far, its own node id and its neighbour list. It handles
  Init, Broadcast, Read and Topology.
- `Echo` (src/bin/echo.rs). It handles Init and Echo over the payload enum of
  src/lib.rs.
- `MainEcho` (src/main.rs). This is the stand-alone echo program, with its own
  payload enum and a `usize` counter.
- `UniqueId` (src/bin/unique-id.rs). It handles Init and Generate. The generated
  UUID is an input.

`MsgProtocol` holds the shared envelope (`Message`, `Body`), the outcome of
`process`, and `Run`. `Run` is the runner loop without its I/O: it feeds a
stream of messages to a processor, in order.

Each processor is a class whose fields mirror the Rust struct. Its `Process`
method updates those fields in place, and its postcondition ties the new
fields and the outcome to `Step`. `Step` is a pure function of the old state
and the message. The promised behaviour is stated on `Step` and proved about
streams of messages through `Run`.

The behaviour follows the code. In the broadcast node, a broadcast value is
appended with no deduplication. The node does not forward values to its
neighbours, does not track what each peer has seen, and never re-sends values.
Each call returns one optional reply, not a list. A Topology update installs
the mapped list as given, so the list can name the node itself. Only Init
removes the node's own id (`TopologyKeepsOwnIdWhenListed`).

The snapshot of src/lib.rs declares a non-generic `Message`. Yet
src/bin/broadcast.rs and src/bin/unique-id.rs use `Message<Payload>` and
`Processor<Payload>`. The model takes the generic form: `Message<P>`, with one
payload datatype per node kind.

Two client methods in `BroadcastNode` replay the source's unit tests against
the class contracts. `InitScenario` replays src/bin/broadcast.rs:263-271.
`TopologyScenario` replays the three topology tests at
src/bin/broadcast.rs:283-333. They have no postcondition, so they have no row
below.

## Model

| member | source | states |
|---|---|---|
| MsgProtocol.Run | src/lib.rs:71-84 | the runner feeds messages to the processor one at a time, in order, and yields exactly one outcome per message |
| BroadcastNode.RemoveAll | src/bin/broadcast.rs:80-83 | `retain` with the test `n != own` keeps exactly the elements other than `own`, with their multiplicities; `own` is no longer present |
| BroadcastNode.RemoveAllConcat | src/bin/broadcast.rs:83 | retain keeps the relative order of the kept ids: filtering a concatenation is the concatenation of the filtered parts |
| BroadcastNode.RemoveAllAbsent | src/bin/broadcast.rs:83 | when the own id is not in the list, retain leaves the list unchanged |
| BroadcastNode.Step | src/bin/broadcast.rs:63-141 | exactly Init/Broadcast/Read/Topology are answered, each with one reply to the sender numbered with the pre-call counter, and the counter grows by one; Init sets `node_id` and the neighbours to the given list without the own id; Broadcast appends the value, duplicates included, and acknowledges; Read answers `ReadOk` with exactly the stored values and changes nothing else; Topology is always acknowledged and replaces the neighbours only when the own id is known and mapped; any other payload is an error that carries the message and changes no field |
| BroadcastNode.BroadcastMaelstromNode.constructor | src/bin/broadcast.rs:19-31 | `new` sets the four fields to the given values |
| BroadcastNode.BroadcastMaelstromNode.Default | src/bin/broadcast.rs:34-38 | `default` starts with counter 1, no own id, and no values or neighbours |
| BroadcastNode.BroadcastMaelstromNode.RetainOthers | src/bin/broadcast.rs:83 | the in-place retain leaves `node_ids` equal to the old list without the own id |
| BroadcastNode.BroadcastMaelstromNode.Process | src/bin/broadcast.rs:63-141 | the fields after the call and the returned outcome are those `Step` gives for the fields before the call |
| BroadcastNode.RunCountsReplies | src/bin/broadcast.rs:68-140 | over any stream, a message is answered exactly when it is Init/Broadcast/Read/Topology, and the counter ends advanced by the number of answers (errors consume no id) |
| BroadcastNode.RunReplyAt | src/bin/broadcast.rs:363-388 | the answer to the i-th message of a stream goes back to that message's sender, replies to its `msg_id`, and is numbered with the initial counter plus the answers before it |
| BroadcastNode.RequestsNumberedConsecutively | src/bin/broadcast.rs:363-388 | a stream of handled requests gets replies numbered consecutively from the counter, each answering its own request, and the counter ends advanced by the stream's length |
| BroadcastNode.BroadcastsAppendInOrder | src/bin/broadcast.rs:86-98 | a stream of Broadcasts appends its values in arrival order with duplicates kept, and leaves `node_id` and `node_ids` unchanged |
| BroadcastNode.ReadAfterBroadcasts | src/bin/broadcast.rs:100-113 | a Read after a stream of Broadcasts answers `ReadOk` with the earlier values followed by the broadcast ones |
| BroadcastNode.MessagesOnlyGrow | src/bin/broadcast.rs:86-114 | stored values are never dropped or reordered: the values before a stream are a prefix of the values after it |
| BroadcastNode.NodeIdOnlyFromInit | src/bin/broadcast.rs:80 | only Init sets the own id: a stream without Init leaves `node_id` unchanged |
| BroadcastNode.TopologyKeepsOwnIdWhenListed | src/bin/broadcast.rs:127-132 | Topology does not filter the own id: if the mapped list names the node, the node becomes its own neighbour |
| Echo.Step | src/bin/echo.rs:21-57 | Init gets `InitOk` and Echo gets `EchoOk` with the same text, each addressed back to the sender and numbered with the pre-call counter, and the counter grows by one; any other payload is an error that carries the message and leaves the counter unchanged |
| Echo.EchoProcessor.constructor | src/bin/echo.rs:10-14 | `new` sets the counter to the given value |
| Echo.EchoProcessor.Default | src/bin/echo.rs:16-20 | `default` starts the counter at 1 |
| Echo.EchoProcessor.Process | src/bin/echo.rs:22-57 | the counter after the call and the outcome are those `Step` gives for the counter before it |
| Echo.RunCountsReplies | src/bin/echo.rs:23-56 | over any stream, exactly the Init and Echo messages are answered, and the counter ends advanced by the number of answers |
| Echo.RunReplyAt | src/bin/echo.rs:156-181 | the answer to the i-th message goes back to its sender and is numbered with the initial counter plus the answers before it |
| Echo.RequestsNumberedConsecutively | src/bin/echo.rs:156-181 | consecutive Init/Echo requests get consecutive `msg_id`s from the counter, each replying to its own request |
| MainEcho.Step | src/main.rs:51-86 | Init gets `InitOk` and Echo gets `EchoOk` with the same text, each addressed back to the sender and numbered with the pre-call counter, and the counter grows by one; anything else is an error that leaves the counter unchanged |
| MainEcho.MessageProcessor.constructor | src/main.rs:48-50 | `new` starts the counter at 1 |
| MainEcho.MessageProcessor.Process | src/main.rs:51-86 | the counter after the call and the outcome are those `Step` gives for the counter before it |
| MainEcho.RunCountsReplies | src/main.rs:52-85 | over any stream, exactly the Init and Echo messages are answered, and the counter ends advanced by the number of answers |
| MainEcho.RunReplyAt | src/main.rs:230-255 | the answer to the i-th message goes back to its sender and is numbered with the initial counter plus the answers before it |
| MainEcho.RequestsNumberedConsecutively | src/main.rs:230-255 | consecutive Init/Echo requests get consecutive `msg_id`s from the counter, each replying to its own request |
| MainEcho.RepliesFromNewCountFromOne | src/main.rs:230-255 | starting from `new`, the replies to consecutive requests are numbered 1, 2, 3, ... |
| UniqueId.Step | src/bin/unique-id.rs:39-77 | Init gets `InitOk` and Generate gets `GenerateOk` carrying the generator's value, each addressed back to the sender and numbered with the pre-call counter, and the counter grows by one; `InitOk`/`GenerateOk` inputs are errors that leave the counter unchanged |
| UniqueId.UniqueIdGeneratorMaelstromNode.constructor | src/bin/unique-id.rs:12-16 | `new` sets the counter to the given value |
| UniqueId.UniqueIdGeneratorMaelstromNode.Default | src/bin/unique-id.rs:18-22 | `default` starts the counter at 1 |
| UniqueId.UniqueIdGeneratorMaelstromNode.Process | src/bin/unique-id.rs:39-77 | the counter after the call and the outcome are those `Step` gives for the counter before it and the drawn UUID |
| UniqueId.RunCountsReplies | src/bin/unique-id.rs:44-76 | over any stream, exactly the Init and Generate messages are answered, and the counter ends advanced by the number of answers |
| UniqueId.RunReplyAt | src/bin/unique-id.rs:44-76 | the answer to the i-th message goes back to its sender, is numbered with the initial counter plus the answers before it, and a `GenerateOk` carries the UUID drawn for that message |
| UniqueId.RequestsNumberedConsecutively | src/bin/unique-id.rs:59-72 | consecutive Init/Generate requests get consecutive `msg_id`s from the counter |

## Left out

- The runner's I/O (`runner::run` and `serialize` in src/lib.rs, and `serialize` and `main` in src/main.rs): reading JSON from stdin, writing replies and newlines to stdout, and logging malformed lines. `Run` keeps only the in-order processing loop.
- JSON encoding and decoding: the serde round-trip tests depend on derived implementations that the model cannot see. The datatypes mirror the Rust types instead.
- The text of the error: the model returns `Err` carrying the offending message, not the `{:?}` rendering of it.
- `Uuid::new_v4()` is a random foreign call. Its value is a parameter of `Process`, and uniqueness is not claimed.
- Counter width: `id` and `msg_id` are unbounded integers. The model does not capture i64 or usize overflow of `self.id += 1`, which would panic in a debug build and wrap in a release build.
- src/bin/id-generator.rs is not part of this model: its `process` is `todo!()`, so it has no behaviour to model.
- Gossip fan-out to neighbours, deduplication of delivered values, per-peer seen tracking and anti-entropy re-sends are not present in the code and are not modelled.
