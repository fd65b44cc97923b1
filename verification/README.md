# A verified model of ZppAdapter

This Dafny project models five parts of ZppAdapter and proves what they are for.

**Protobuf and JSON** (`zpp/src/pb2json.cpp`, `zpp/json_rapid.hpp`). A message tree is written as a JSON tree whose
objects carry `@type` and in which `Any` wrappers dissolve; a callback traversal flattens a JSON tree to events, and a
stack machine builds a message from them.

- `Traversal.dfy`: JSON values, the traversal as loops with a mutable hint, the event stream, its flat reading, a reader
  that inverts it.
- `Dom.dfy`: the DOM object and its setters. `Protobuf.dfy`: schema and messages. `Encoder.dfy`: `Pb2json`.
- `EncoderShape.dfy`: what the encoder's output looks like. `Decoder.dfy`: the stack machine and `Json2pb`.
- `BigStep.dfy`: the machine refines a recursive decoder that has no stack, over every tree whose arrays stand only as
  members, aborted runs and undefined behaviour included.
- `Framing.dfy`: when the machine keeps its frames in order, even when a leaf aborts the run: exactly when a dry run that
  knows types and no values does not fail, and for every document whose objects are in order.
- `FittingJson.dfy`: what a document means, by looking its members up by field name, and that every document that fits the
  schema, encoder output or not, decodes to exactly that message unless it holds an enum value. `MemberOrder.dfy`: the
  order of members makes no difference at any depth.
- `RoundTrip.dfy`, `Translation.dfy`: what decoding after encoding gives for *every* message, exactly when that is the
  message itself, and the normal form of messages with chains of `Any`.
- `JsonRoundTrip.dfy`: the other direction, for documents.

**Source routing** (`zpp/zmq.hpp`). `Routing.dfy` holds `RoutePath` and `MsgStack`, changed in place; `RouteNetwork.dfy`
the framing of a route on the wire and routes that travel through routers, request and reply.

**Double-buffered queue** (`zpp/base/msg_queue.hpp`). `MessageQueue.dfy` is a state machine over the steps of one
producer and one consumer inside their locks; the other threads wait outside. Each reading of the pointer `que_in` and
its use are separate steps, because the exchange in `Pop` does not take `spin_in`. At that granularity the queue is
*not* first in, first out: `OvertakingHappens` and `EmptyFrontHappens` are runs that show it. `HazardExactly` says which
steps break it and that no other does, and `CoarseRunsAreFifo` that if no exchange falls between the reading of the
pointer and its use, every interleaving is first in, first out and carries exactly one wakeup token.

**Ring of free objects** (same file). `MessagePool.dfy`: bit clearing, masked indices with a counter that wraps, and the
account of every object ever created, `PreAlloc` and the object it loses included.

**Timers** (`zpp/base/timer.hpp`). `Deadlines.dfy` is the ordered deadline set with its scan that stops early;
`Rendezvous.dfy` the state machine of waiters and deliverers. A `Pop` may report success to a `Wait` that times out
(`LateDeliveryIsLost`); `ReceivedExactly` says when that does not happen.

Conventions. Methods with loops and fields follow the code; each is proved to compute a function, and the lemmas are
about that function. The callback pointer given to the traversal is a function value, and its hint an object with the
state that the value reads and writes; `Json2field` is proved equal to the value that `Json2pb` passes. Undefined
behaviour of C++ (null and uninitialised pointers, empty containers, protobuf's fatal errors) is an explicit result, so
that its absence can be proved. Memory is a parameter where the code asks for it, the clock is a parameter, and each
critical section under a spin lock is one step. How many socket calls succeed before one fails is a number the socket
holds. The hop counter of a route travels with the message in `RouteNetwork.Transit`, while the code's `CalcRoute` gets
it from its caller. `ZERRC` and its relatives only log. Result codes are symbols: their numbers come from a header that
is not part of this model.

Where code and comments differ, the code is followed: `zpp/pb2json.h` describes `@type` as a type URL and field names in
lower camel case, while the code writes the bare full name and the names of the `.proto` file; the usage notes in
`zpp/base/timer.hpp` call the operations Post, Ack and Check.

## Model

| member | source | states |
|---|---|---|
| Traversal.ForEach | zpp/json_rapid.hpp:740-770 | visits any value without a name; Begin and End codes are ignored, the code of the contents is returned |
| Traversal.EachObject | zpp/json_rapid.hpp:689-724 | visits members in order under their names and stops after the first that fails |
| Traversal.EachArray | zpp/json_rapid.hpp:726-738 | visits elements in order without a name and stops after the first that fails |
| Traversal.VisitRunsFlat | zpp/json_rapid.hpp:689-770 | the recursive traversal equals a flat reading of the event stream that closes the open containers when a leaf fails |
| Traversal.AbortShape | zpp/json_rapid.hpp:689-770 | for every callback and value, the calls made are the full stream up to the first failing leaf, then the End events owed there, innermost first, and that leaf's code is returned; else the full stream and ZOK |
| Traversal.AbortIsCut | zpp/json_rapid.hpp:689-770 | when a leaf fails, the calls made are exactly the stream, every container closed, of the value cut off behind that leaf |
| Traversal.ParseEvents | zpp/json_rapid.hpp:689-770 | a reader of events recovers name and value exactly from the stream of any value and leaves what follows: the stream is well bracketed and loses nothing |
| Traversal.RecorderSeesEverything | zpp/json_rapid.hpp:740-770 | a callback that records and never fails sees the full stream and the traversal returns ZOK |
| Dom.RJson.Set | zpp/json_rapid.hpp:355-628 | the keyed setters: replace a member of the setter's type, refuse another type, append a new key |
| Dom.RJson.AddMember | zpp/json_rapid.hpp:665-683 | replace a container by erasing and appending, refuse to replace a scalar, append a new key; the source is left null |
| Dom.PutScalarStores | zpp/json_rapid.hpp:355-628 | a keyed write stores under its key, keeps all other keys, their order and the distinctness of names, or is refused and changes nothing; each setter may replace exactly what it could have written itself, by type and range |
| Dom.PutMemberStores | zpp/json_rapid.hpp:665-683 | the same for adding a container, refused exactly in place of a scalar; erase and append moves the key to the end and keeps the order of the others |
| Encoder.Field2json | zpp/src/pb2json.cpp:19-99 | appends exactly the encoding of one value, nothing for bytes, and always returns ZOK |
| Encoder.WriteItems | zpp/src/pb2json.cpp:410-414 | the array of a repeated field holds the encodings of its values in order, bytes skipped |
| Encoder.WriteField | zpp/src/pb2json.cpp:404-417 | a repeated field becomes one array member, a singular one a plain member |
| Encoder.WriteFields | zpp/src/pb2json.cpp:399-424 | the fields that are set, in field order, each under a key not used before |
| Encoder.Pb2json | zpp/src/pb2json.cpp:365-425 | the document afterwards, for every message; the code is ZCAST_FAIL exactly for a root Any that does not resolve, which leaves the document alone, whatever nested calls return |
| EncoderShape.MessageFits | zpp/src/pb2json.cpp:400-421 | every object at every depth starts with `@type` naming a known type, the one its field declares if it declares one, has distinct keys that are fields of that type with values of their kinds, and arrays only for repeated fields |
| EncoderShape.ObjectsStandFor | zpp/src/pb2json.cpp:19-99 | the document stands for the message at every depth, inside every Any: each object names its message's type and lists fields in schema order; under each field's name stands its value, or element by element its values, or nothing if it is unset; a string up to its first NUL, a float widened, an enum value as the unsigned number of its 32 bits, no bytes |
| EncoderShape.EncodedIsRegular | zpp/src/pb2json.cpp:80-88 | so the output holds arrays only as direct members, as the decoder needs |
| Decoder.Json2field | zpp/src/pb2json.cpp:257-328 | the stack after one event, in every branch, pushes, pops and merges included; brackets give ZOK but for the end of an object where none can come |
| Decoder.SetMessageInPlace | zpp/src/pb2json.cpp:130-230 | where a leaf goes: an `@` string creates the message, other leaves are translated by field kind into the named frame or the one below an array frame |
| Decoder.MergeInPlace | zpp/src/pb2json.cpp:232-256 | a finished message is set, added or packed into the parent's field, or dropped when there is no such field |
| Decoder.Json2pb | zpp/src/pb2json.cpp:330-347 | runs the machine over the document; a message only if exactly one frame is left |
| Decoder.Json2pbInto | zpp/src/pb2json.cpp:348-364 | the overload that swaps the result into the caller's message; when decoding fails its code is returned and that message is untouched |
| BigStep.MembersRefine | zpp/src/pb2json.cpp:257-328 | stack-machine lemma: over the members of an object, from any stack, everything below the top frame is restored and the top frame holds what a decoder without a stack computes, with the same code and the same undefined behaviour |
| BigStep.MemberRefines | zpp/src/pb2json.cpp:257-328 | the same for one member of any value: the nearest message frame gains the decoded value, the rest of the stack is unchanged |
| BigStep.ItemsRefine | zpp/src/pb2json.cpp:130-256 | inside an array, elements go into the message one below the array frame |
| BigStep.JsonToMessage | zpp/src/pb2json.cpp:330-347 | Json2pb on a root object returns the recursive decoder's message or the code of the leaf that stopped it |
| Framing.DefinedExactly | zpp/src/pb2json.cpp:130-347 | for every regular root object, undefined behaviour, the code returned and the type of the message depend on types alone: a dry run over types, with its own table of the codes of leaves by the kind of their field, tells all three; no message comes with a failure |
| Framing.HeightKept | zpp/src/pb2json.cpp:257-328 | over any JSON value whatever, arrays inside arrays included, the stack ends at the height it started from unless the run became undefined; only a root object leaves a frame |
| Framing.OnlyObjectsDecode | zpp/src/pb2json.cpp:330-347 | no root but an object is taken for a message, and null gives ZPARAM_INVALID |
| Framing.TagStarts | zpp/src/pb2json.cpp:109-128 | a leading type member makes its frame a new message, to be merged under the name it was opened with, that of its array, or at the root that of its type |
| Framing.RootBalanced | zpp/src/pb2json.cpp:257-347 | for every document whose objects name their types first and stand where such objects may, whatever its leaves, the run never becomes undefined and leaves exactly one frame, with a message of the named type, whether or not a leaf aborts |
| Framing.FramesBalanced | zpp/src/pb2json.cpp:269-317 | a member of such a document, at any depth, leaves the stack at its starting height with every frame below unchanged and a message of the same type in the frame itself, whether or not a leaf aborts |
| Framing.ElementFramesBalanced | zpp/src/pb2json.cpp:269-317 | the same for an element of an array, whose own frame is unchanged too |
| Framing.BalancedExactly | zpp/src/pb2json.cpp:269-317 | for any member of any regular tree the frames are balanced if and only if the dry run does not fail on it |
| FittingJson.MembersRead | zpp/src/pb2json.cpp:130-328 | members that fit a type's fields, in any order and of any depth, fill in the fields they name and leave the others as they were: null and numbers of another type or range add nothing, an object under another name is dropped, a repeated field gains all values, a singular one holds the last and is unset by its zero; an enum value in one of them, and nothing else, stops the decoder |
| FittingJson.FittingJsonDecodes | zpp/src/pb2json.cpp:330-347 | Json2pb on any document that fits the schema returns ZCAST_FAIL if and only if the document holds an enum value at some depth, and otherwise exactly the message whose every field holds what the member of its name says |
| FittingJson.DecodedConforms | zpp/src/pb2json.cpp:330-347 | without an enum value that message conforms to the schema and has the type the document names |
| FittingJson.EncodedFits | zpp/src/pb2json.cpp:365-425 | the encoder writes documents that fit, for every message all of whose Anys resolve |
| MemberOrder.OrderDoesNotMatter | zpp/src/pb2json.cpp:130-347 | two fitting documents that differ in the order of members only, at any depth, decode alike |
| RoundTrip.TagCreates | zpp/src/pb2json.cpp:109-128 | a leading `@type` naming a known type starts a new empty message of that type |
| RoundTrip.ValReadsBack | zpp/src/pb2json.cpp:130-256 | one value written by the encoder is stored back, as a member and as an array element, or stops the decoder in the stated way |
| RoundTrip.MessageReadsBack | zpp/src/pb2json.cpp:257-347 | the object written for a message decodes to its image, stops at its first enum value, or crashes at its first unresolved Any |
| Translation.ThereAndBackIs | zpp/src/pb2json.cpp:330-425 | decoding after encoding, for every message whatever it holds |
| Translation.RoundTripExactly | zpp/src/pb2json.cpp:330-425 | decoding after encoding gives the message back if and only if it is no Any and holds no bytes, no enum, no NUL in a string, no float lost through double, and no Any that is unresolved or holds an Any |
| Translation.RoundTripInto | zpp/src/pb2json.cpp:348-364 | the overload that fills the caller's message of the same type gives the message back if and only if the same condition holds |
| Translation.NormalForm | zpp/src/pb2json.cpp:373-396 | with chains of Any and an Any at the root, decoding gives the message with its chains collapsed, which encodes to the same JSON and is a round trip |
| JsonRoundTrip.DecodedRoundTrips | zpp/src/pb2json.cpp:330-425 | what a fitting document without an enum value decodes to is given back by encoding and decoding it again if and only if it holds no bytes and no float lost through double; that is so whenever the document puts nothing into a bytes field and narrowing is done once |
| Routing.MsgStack.Rotate | zpp/zmq.hpp:382-391 | the two-counter loop reverses the whole list, for every length |
| Routing.RoutePath.CalcRoute | zpp/zmq.hpp:725-738 | swaps the front identity with the next hop and counts in one byte; end mark and refusal change neither the lists nor the counter |
| Routing.RoutePath.CalcRouteOut | zpp/zmq.hpp:740-762 | the same, and whether the next hop is an outer one; the last byte of the next identity is read only before the last hop |
| Routing.RoutePath.RotateRoute | zpp/zmq.hpp:617-634 | the list after closing the surplus and the two-counter loop, and exactly which entries were closed, negative counts included |
| Routing.RoutePath.CloseMsg | zpp/zmq.hpp:637-663 | the chosen lists are emptied and each of their frames is closed once, unless the route does not own them |
| Routing.RotateKeepsOrCloses | zpp/zmq.hpp:617-634 | for 0 < h <= n: the reverse of the first h and at most the next entry stay, every other entry is closed once, nothing is lost |
| Routing.RotateNothing | zpp/zmq.hpp:617-634 | without hops, or with a count below -1, nothing is rotated or closed; with -1 the whole list is closed |
| Routing.RotateTwice | zpp/zmq.hpp:617-634 | rotating the whole list is full reversal, and twice gives it back |
| Common.ReverseTwice | zpp/zmq.hpp:382-391 | rotating a stack twice gives it back, for every length |
| RouteNetwork.Socket.Send | zpp/zmq.hpp:989-1065 | one message of first source, empty frame, body, empty frame, destinations, behind what was left of a failed one; refused when the body has less than two frames; when a call fails, exactly the frames before it are out, without an end |
| RouteNetwork.SentAreEmpty | zpp/zmq.hpp:989-1065 | of the frames on the wire exactly those sent are left empty in the route; the others, and the sources never sent, are as they were |
| RouteNetwork.Socket.Recv | zpp/zmq.hpp:1067-1095 | the loop over stat and more adds each frame to its part, closes separators and surplus, and accepts when it ends in the third part; when a call fails, the frames before it are kept that way |
| RouteNetwork.KeptOrClosed | zpp/zmq.hpp:1067-1095 | each frame received is in one of the three parts or was closed, once; of an accepted message just the two separators were closed |
| RouteNetwork.ReceivedExactly | zpp/zmq.hpp:1067-1095 | receiving accepts exactly the messages with two empty frames, and the three parts joined give the message back |
| RouteNetwork.ReceiveAfterSend | zpp/zmq.hpp:989-1095 | receive after send is the identity if and only if there is at most one source and no empty frame |
| RouteNetwork.StartExactly | zpp/zmq.hpp:989-1095 | the first hop arrives exactly when the body has two frames or more and no frame but the next identity is empty; a shorter body is refused and the message stays |
| RouteNetwork.Forwarding | zpp/zmq.hpp:725-738 | after k hops through the network the message is at the next node, the front is the node before, the list is the first k senders and the unused rest |
| RouteNetwork.EndMarkOnTime | zpp/zmq.hpp:731-737 | the end mark comes after exactly n hops, for n <= 255, and the message goes no further |
| RouteNetwork.EndMarkExactly | zpp/zmq.hpp:725-738 | some node sees the end mark if and only if the list has at most 255 entries |
| RouteNetwork.RequestReply | zpp/zmq.hpp:617-738 | the target rotates with the counter that CalcRoute leaves at the end mark; the reply takes the reversed path to the origin, where the same call and rotation restore the list first sent |
| MessageQueue.StepExactly | zpp/base/msg_queue.hpp:68-92 | a step from a good state leads to a good state if and only if it is none of the two hazards |
| MessageQueue.HazardExactly | zpp/base/msg_queue.hpp:68-92 | a step from a good state is no hazard if and only if every continuation of it that is free of hazards keeps order, conservation, the one token and defined behaviour |
| MessageQueue.FifoAndToken | zpp/base/msg_queue.hpp:68-92 | in every interleaving without a hazard: pushed equals popped, then que_out, then que_in; one token exactly while que_in is not empty; no front of an empty queue |
| MessageQueue.GivenComeOut | zpp/base/msg_queue.hpp:68-92 | told by the steps' labels alone: the values given to the pushes are, in order, those that came out, as many as fronts were taken, then que_out, then que_in, then the one not stored yet |
| MessageQueue.CoarseRunsAreFifo | zpp/base/msg_queue.hpp:68-92 | every interleaving in which no exchange separates a reading of que_in from its use is free of hazards |
| MessageQueue.StoreHazardReorders | zpp/base/msg_queue.hpp:70 | from every good state with the first hazard, and with no hazard after it, a later push overtakes and the stored value loses its token |
| MessageQueue.TestHazardUndefined | zpp/base/msg_queue.hpp:71-73 | from every good state with the second hazard, and with no hazard after it, the front of an empty queue is taken |
| MessageQueue.OvertakingHappens | zpp/base/msg_queue.hpp:70-84 | a run from the empty queue in which y is pushed before z and z is popped instead |
| MessageQueue.EmptyFrontHappens | zpp/base/msg_queue.hpp:71-89 | a run from the empty queue that takes the front of an empty queue |
| MessageQueue.MsgQueue.constructor | zpp/base/msg_queue.hpp:53-59 | the initial state of the machine |
| MessageQueue.MsgQueue.Push | zpp/base/msg_queue.hpp:68-74 | Push run without interruption is the machine's producer steps |
| MessageQueue.MsgQueue.Pop | zpp/base/msg_queue.hpp:76-92 | Pop run without interruption is the machine's consumer steps; it returns the oldest value and keeps the rest in order, or times out exactly when there is none |
| MessagePool.MsgPoolRing.constructor | zpp/base/msg_queue.hpp:121-132 | the bit-clearing loop gives a power of two with n < capacity <= 2n |
| MessagePool.MsgPoolRing.Alloc | zpp/base/msg_queue.hpp:154-167 | takes the oldest free object, or a new one when there is none, or reports that memory is out |
| MessagePool.MsgPoolRing.Free | zpp/base/msg_queue.hpp:169-181 | while the ring is not full the object is released once and becomes last in it, and nothing is deleted; otherwise it is deleted and the ring stays |
| MessagePool.MsgPoolRing.PreAlloc | zpp/base/msg_queue.hpp:142-152 | of the objects created, all but exactly one are in the ring, and that one is lost; nothing happens unless position and size are 0 |
| MessagePool.MsgPoolRing.Destroy | zpp/base/msg_queue.hpp:134-140 | deletes each object of the ring once |
| MessagePool.MaskIsMod | zpp/base/msg_queue.hpp:128 | masking with one less than a power of two is the remainder |
| MessagePool.MaskedIndex | zpp/base/msg_queue.hpp:157-173 | the masked index is the ring index, for a counter that may have wrapped |
| MessagePool.RunsBalance | zpp/base/msg_queue.hpp:118-189 | over every run, pre-allocations included, each created object is held, free, deleted or lost, in one of these and once; each pre-allocation loses exactly one and nothing else does; the destructor deletes each free object once |
| MessagePool.RingIsFifo | zpp/base/msg_queue.hpp:142-181 | over every run, what is handed out of the ring is, in order, what was in it, given back while it was not full, or pre-allocated, and the rest of that is in it at the end |
| Deadlines.AsyncTimer.Push | zpp/base/timer.hpp:176-183 | stores the pair of deadline and key in order |
| Deadlines.AsyncTimer.Pop | zpp/base/timer.hpp:185-202 | the erasing loop removes the first entry of the key, and says whether there was one |
| Deadlines.AsyncTimer.Timer | zpp/base/timer.hpp:204-223 | the loop that stops early calls the callback with the keys of exactly the first entries, as far as they are due, and keeps the rest; those are the entries its history counts as fired |
| Deadlines.ScanFiresDue | zpp/base/timer.hpp:204-223 | what fires is exactly what is due, each once and in order of deadline, and what stays is exactly the rest |
| Deadlines.PopRemovesEarliest | zpp/base/timer.hpp:185-202 | the entry removed is the key's earliest and nothing else changes |
| Deadlines.RunsAccounted | zpp/base/timer.hpp:176-223 | over every run each storing of a pair is matched by one leaving or by its being there, and no pair fires before its deadline |
| Rendezvous.RendezvousSafe | zpp/base/timer.hpp:91-134 | in every interleaving each entry refers to the live semaphore of its key's waiter, nothing touches a dead one, and a Wait that succeeds has the value of the last successful Pop |
| Rendezvous.DeliveriesAccounted | zpp/base/timer.hpp:107-134 | successful Pops for a Wait are those received plus the tokens left in its semaphore at the end |
| Rendezvous.ReceivedExactly | zpp/base/timer.hpp:107-134 | all of them are received if and only if none found the waiter served or no longer waiting and the wait did not fail with a token there |
| Rendezvous.LateDeliveryIsLost | zpp/base/timer.hpp:107-134 | a run in which Pop reports success and Wait a time-out |
| Rendezvous.SyncTimer.Push | zpp/base/timer.hpp:91-105 | registers the waiter with a fresh semaphore, or refuses a key in use: the machine's Push step, from any state that objects and machine agree on |
| Rendezvous.SyncTimer.AwaitToken | zpp/base/timer.hpp:110 | takes a token if there is one: the machine's SemWait step, whatever other threads did before |
| Rendezvous.SyncTimer.EraseKey | zpp/base/timer.hpp:111-113 | removes the key: the machine's Erase step |
| Rendezvous.SyncTimer.Finalise | zpp/base/timer.hpp:115 | finalises the semaphore: the machine's Finish step |
| Rendezvous.SyncTimer.Wait | zpp/base/timer.hpp:107-117 | the three in order; without another thread in between it succeeds exactly with a token, and a success finds the value of the last delivery |
| Rendezvous.SyncTimer.Pop | zpp/base/timer.hpp:119-134 | stores the value, then posts, or reports that the key is not there: the machine's Pop step |

## Left out

- BigStep.JsonToMessage: covers the trees in which arrays stand only as members and under names that do not start with `@`; an array directly inside an array makes the code read a pointer it never set, which the machine in `Decoder.dfy` reports but the recursive decoder does not follow.
- FittingJson.FittingJsonDecodes: covers documents in which no object has two members of one name, a second member with an `@` name, a name or type name with a NUL, or a leaf or array under a name that is no field of the type. There the decoder lets the last of two win or appends both, changes the type, reads up to the NUL, and fails on a leaf; `Framing.DefinedExactly` still says when that is defined and with what code.
- Routing.RoutePath.CalcRoute: the caller must have a front identity when there is a next hop, as the code reads it without asking.
- Routing.RoutePath.RotateRoute: at most as many hops as there are destinations; beyond that the code indexes past the end.
- MessagePool.MsgPoolRing.constructor: sizes from 1 to 2^30 - 1; for 0 the code leaves the capacity unset, and for other sizes the doubling overflows or the count is negative.
- MessagePool.MsgPoolRing.Free: what the object's own Release does is left to the object; the model counts the calls.
- MessageQueue.MsgQueue.Pop: taking turns with other threads is in the state machine, not in the method; a wait there succeeds at once or times out.
- Data races inside one `std::queue` are finer than the steps of the queue's state machine; memory order is not modelled.
- The ring's counter wraps at 2^32; C++ leaves the overflow of a signed counter undefined.
- Bytes on the wire, URL prefixes of `Any`, protobuf reflection and rapidjson's memory management: an Any is a message of a known type or does not resolve.
- JSON that names `google.protobuf.Any` itself as a type and sets its raw `type_url` and `value`: such fields count as unknown.
- Oneof groups, extensions, unknown fields and the required fields of proto2.
- Checks of the code for null arguments, the setters without a key, and the getters of RJson.
- Rendezvous.SyncTimer.Wait: its contract is for a call that no other thread interrupts; what others do between its three points is in the state machine, and the methods for those points hold from any of its states.
- Copying helpers of RoutePath and MsgStack, `SwapMsg`, `DestId` and the like: one-line members.
- Sockets, endpoints, polling, the retrying request and the monitor in `zpp/src/zmq.cpp`: they depend on live sockets.
- `LoadFile`, `SaveFile`, `Dump`, tracing; the libevent, REST, MySQL, SQLite and nng wrappers; reference-counted objects, locks and statistics.
