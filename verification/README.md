# UniTransmit: a verified model

UniTransmit puts several transports behind one byte-stream interface. This project models the parts of
it where order, concurrency and framing decide whether bytes arrive, and proves what they guarantee.

| file | what it covers |
|---|---|
| `RemainingLength.dfy`, `MqttPackets.dfy` | the MQTT 3.1.1 length codec, the packets the client builds, and parsing a byte stream into frames |
| `MqttSession.dfy`, `MqttTransport.dfy` | one MQTT client over a socket that picks every partial send and receive and every failure: session grammar, frame boundaries, the queue, and two clients end to end |
| `SendMutex.dfy` | any number of concurrent MQTT writers, interleaved between check, lock, partial sends and unlock |
| `Monitor.dfy` | the mutex, condition variable and deque behind both the GATT endpoint buffer and the MQTT queue, with any number of readers and writers, one shared access at a time |
| `Gatt.dfy` | the process-wide GATT registry and every interleaving of constructors, destructors, lookups, appends and reads |
| `Udp.dfy` | the datagram-to-stream adaptation and the peer table |
| `Tcp.dfy` | accepting, draining and fanning out in the TCP server |
| `Lifecycle.dfy`, `Polling.dfy` | start, close, set_receive_callback and the receiver thread, stopping included; poll_receive over any transport; the loopback transport |
| `Text.dfy`, `Uri.dfy` | the URI parser |
| `Runs.dfy`, `Streams.dfy`, `Sends.dfy` | what these share: runs of a transition system, the byte stream behind every read, fan-outs |

Objects whose methods change fields are classes. Where threads interleave inside a method, the method is
a transition system instead, and every statement is about every schedule from the initial state. Time is
not modelled: a timeout is a wakeup that may come at any moment of a wait that has one. Calls into the
operating system are methods that choose any outcome their contract allows, and whatever may arrive
arrives during the waits. What may go wrong is an input: on a `reliable` socket or server nothing fails that
has something to give, on a `quiet` one nothing arrives during a wait, and in a `steady` client nobody else
lowers the connected flag; each contract says what it promises then, and what it promises in any case.

Some stronger claims are false of the code. They are here with the exact condition under which the code
meets them, and with an input that breaks them where the condition does not already name every such input:

- Stopping does not always end. `close` and `set_receive_callback(nullptr)` join the receiver thread, and by
  default a read of a quiet transport waits without a timeout: the documented use (doc/usage.md:131-144)
  hangs until something arrives (`Lifecycle.StopHangsWhenQuiet`). A join ends for certain, whatever the
  transport does, if and only if the thread can no longer come to such a read (`Lifecycle.JoinEnds`,
  `Lifecycle.JoinHangs`); on a quiet transport, if and only if it does not come to one
  (`Lifecycle.QuietJoinEnds`); and in any case once enough of its calls were answered
  (`Lifecycle.AnswersEndJoin`). For a caller: stopping is certain to end, whenever it is called, if and only
  if the transport's reads do not block without a timeout (`Lifecycle.StopsEndUnlessBlocking`).
- A byte that arrives alone on a quiet transport may be withheld from the callback
  (`Lifecycle.SingleByteWithheld`); it is delivered if and only if read_all does not wait for more
  (`Lifecycle.SingleByteArrives`).
- The end of an MQTT connection does not wake every reader (`Monitor.DisconnectionCanBeMissed`); it does if
  and only if no reader stands between its check and its wait when it is announced (`Monitor.EndIsHeard`).
  Until then a failed send, which lowers the flag and notifies nobody, wakes no one
  (`Monitor.FlagWakesNobody`).
- A write too large for the length field is sent and returns its size, but no peer can read it or anything
  behind it. The messages on a client's wire are its successful writes if and only if it had none, or its
  CONNECT, its SUBSCRIBE if it has a topic to subscribe to, and all of the writes fit the length field and the
  topic has fewer than 65536 bytes (`MqttClient.MessagesFound`).
- A failed send does not end the traffic of an MQTT client (`SendMutex.WriterGoesOnAfterTear`); it does if and
  only if no other writer is waiting for the send mutex (`SendMutex.FailureEndsTheWire`). The wire is nothing
  but whole packets if and only if no packet was torn (`SendMutex.Atomic`).
- A string of 65536 bytes or more does not survive its sixteen-bit length (`MqttPackets.StringRoundTrip`).
- Length fields the encoder would not write are accepted (`RemainingLength.PaddedZeroIsAccepted`): exactly
  those of more than one byte that end in a zero byte (`RemainingLength.OnlyPaddedFieldsDiffer`).
- The first of two GATT transports with one key to leave makes the other unreachable
  (`Gatt.SecondTransportIsCutOff`, `Gatt.FoundUnlessSharedAndLeft`).
- An empty datagram at the head of the queue stops every UDP read and drain for good (`Udp.UdpTransport.Read`,
  `Udp.UdpTransport.ReadAll`); a drain reaches the end of the queue if and only if there is none in it
  (`Udp.DrainsUnlessEmpty`).
- The TCP client list can outgrow `max_connect` (`Tcp.AcceptMayExceed`), and a write can leave a client out if
  and only if it has (`Tcp.SomebodyMayBeLeftOut`).
- Joining two query strings is not always overriding one by the other: two empty ones join to the entry of an
  empty key (`Uri.EmptyJoinHasAKey`, `Uri.JoinIsOverride`).
- `max_connect=0` is documented as unlimited (doc/usage.md:61), but the parser keeps the default of one
  (src/Protocol.cpp:132-138); the model follows the code (`Uri.MaxConnectFromUri`). The transports are
  modelled for every integer bound, so what they do without a bound is covered too.

## Model

| member | source | states |
|---|---|---|
| `RemainingLength.EncodeRemainingLength` | src/MQTT.cpp:30-41 | the loop produces the base-128 encoding the other results are about |
| `RemainingLength.DecodeRemainingLength` | src/MQTT.cpp:43-60 | the loop accepts exactly what the recursive decoder accepts, with the same value and byte count |
| `RemainingLength.DecodeByHand` | src/MQTT.cpp:43-60 | what one, two, three and four bytes decode to, written out: seven bits each, least significant first, and no fifth byte |
| `RemainingLength.RoundTrip` | src/MQTT.cpp:30-60 | decoding an encoded length followed by any bytes gives it back and takes exactly its 1 to 4 bytes, if and only if it is at most 268435455; any larger one is rejected |
| `RemainingLength.EncodeIsShortest` | src/MQTT.cpp:30-60 | no field the decoder accepts for a value is shorter than its encoding |
| `RemainingLength.OnlyPaddedFieldsDiffer` | src/MQTT.cpp:30-60 | an accepted field is the encoding of its value if and only if it is one byte long or does not end in a zero byte |
| `RemainingLength.PaddedZeroIsAccepted` | src/MQTT.cpp:43-60 | such a padded field that the decoder takes |
| `MqttPackets.AppendString` | src/MQTT.cpp:20-28 | appends the sixteen-bit length and all the bytes |
| `MqttPackets.StringRoundTrip` | src/MQTT.cpp:20-28 | what a reader of length-prefixed strings finds, for every string; it is the string if and only if it has fewer than 65536 bytes |
| `MqttPackets.BigEndian` | src/MQTT.cpp:20-23 | sixteen-bit values are written and read most significant byte first; a value is read back if and only if it fits |
| `MqttPackets.Assemble` | src/MQTT.cpp:167-172 | header byte, remaining length and body make one frame |
| `MqttPackets.FrameLayout` | src/MQTT.cpp:167-172 | on the wire the header byte comes first, then the length of the body, then the body |
| `MqttPackets.BuildPublish` | src/MQTT.cpp:164-172 | the packet `write` sends is the PUBLISH frame of topic and data, whose fields `MqttPackets.PublishFields` states |
| `MqttPackets.BuildConnect` | src/MQTT.cpp:219-233 | the packet of `send_connect` is the CONNECT frame |
| `MqttPackets.BuildSubscribe` | src/MQTT.cpp:249-261 | the packet of `send_subscribe` is the SUBSCRIBE frame |
| `MqttPackets.ConnectFields` | src/MQTT.cpp:219-233 | header 0x10, and protocol name "MQTT", level 4 and clean session are read back from a CONNECT; the keep-alive if and only if it fits sixteen bits, the client identifier if and only if its length does |
| `MqttPackets.SubscribeFields` | src/MQTT.cpp:249-261 | header 0x82, and identifier 1, the topic filter (if and only if its length fits) and QoS 0 are read back from a SUBSCRIBE |
| `MqttPackets.PublishFields` | src/MQTT.cpp:164-172 | header 0x30, and the topic with the data right behind it is read back from a PUBLISH if and only if the topic has fewer than 65536 bytes |
| `MqttPackets.DisconnectBytes` | src/MQTT.cpp:119-121 | the two bytes of the destructor are the DISCONNECT frame |
| `MqttPackets.PublishedMessage` | src/MQTT.cpp:155-175 | what the receiver's dispatch takes out of the PUBLISH `write` builds, for every topic; it is the data if and only if the topic has fewer than 65536 bytes |
| `MqttPackets.MessageOf` | src/MQTT.cpp:273-292 | which frames carry a message, whoever sent them: any flags of packet type 3, if the topic length leaves room; all others none |
| `MqttPackets.FrameRoundTrip` | src/MQTT.cpp:319-348 | a packet followed by anything parses to itself and leaves the rest, if and only if its body fits the length field; otherwise it is a bad length |
| `MqttPackets.ParseStable` | src/MQTT.cpp:319-348 | bytes that arrive later change neither a complete frame nor a bad length |
| `MqttPackets.TornFrame` | src/MQTT.cpp:200-217 | a packet cut short is never read as a frame |
| `MqttPackets.ParseInPieces` | src/MQTT.cpp:319-348 | wherever the stream is cut, parsing the pieces with the leftover carried over is parsing the whole |
| `MqttPackets.FramesRoundTrip` | src/MQTT.cpp:263-348 | any list of frames, PUBLISH or not, well-formed or not, is found again on its own boundaries |
| `MqttPackets.PublicationsArrive` | src/MQTT.cpp:263-296 | the payloads queued for the publications of a list of writes are the writes |
| `MqttPackets.RelayedWrites` | src/MQTT.cpp:155-175 | the same through the wire format, whatever incomplete packet trails |
| `MqttSession.Append` | src/MQTT.cpp:200-217 | one more packet, whole or torn, adds its bytes to the wire and, if it is a whole PUBLISH, itself to the publications |
| `MqttSession.Extend` | src/MQTT.cpp:90-127 | a session that is up keeps its grammar under a further PUBLISH, a DISCONNECT, or SUBSCRIBE right behind CONNECT, torn or not |
| `MqttSession.WireReads` | src/MQTT.cpp:200-217 | a peer that parses the wire of a session finds the whole packets up to the first torn or too large one |
| `MqttSession.WireParses` | src/MQTT.cpp:200-217 | so it finds exactly the packets sent whole, if each fits its length field |
| `MqttSession.MessagesOnWire` | src/MQTT.cpp:263-296 | of the packets a peer can read only the PUBLISH packets carry messages |
| `MqttSession.ConnackMeans` | src/MQTT.cpp:242 | a CONNACK is accepted with return code zero only, whatever its session-present flag; nothing of another type or size is |
| `MqttSession.ReadableAddressed` | src/MQTT.cpp:164-172 | frames whose PUBLISH packets are first of a client's publications are all addressed to its topic |
| `MqttSession.ReadablePublishes` | src/MQTT.cpp:155-175 | the publications a peer can read are the first of those sent whole, and all of them if and only if no packet up to the last is too large |
| `MqttSession.SessionReadable` | src/MQTT.cpp:90-127 | how many of a client's writes a peer gets to read, from the client's identifier, topics and writes: none if its CONNECT or SUBSCRIBE is too large, else those before the first that is |
| `MqttSession.OneMore` | src/MQTT.cpp:263-296 | one more frame taken keeps frames taken and frames to come adding up to the stream, and the payloads with them |
| `MqttSession.PrefixPayloads` | src/MQTT.cpp:263-296 | having taken fewer frames means having queued a prefix of the payloads |
| `MqttClient.MqttTransport.SendPacket` | src/MQTT.cpp:200-217 | over any partial sends: success puts the whole packet on the wire, failure a proper prefix of it and lowers the flag, a closed socket nothing |
| `MqttClient.MqttTransport.Write` | src/MQTT.cpp:155-175 | success adds exactly one whole PUBLISH; refusals leave the wire alone; on a reliable socket with the flag up and nobody else lowering it, anything non-empty under a topic succeeds and the flag stays up; the session grammar holds after every outcome |
| `MqttClient.MqttTransport.RecvExact` | src/MQTT.cpp:298-317 | over any partial receives: success takes exactly the bytes asked for, and only a failing socket or the end of the stream prevents it |
| `MqttClient.MqttTransport.RecvLengthField` | src/MQTT.cpp:325-335 | takes exactly the bytes of the length field, one at a time |
| `MqttClient.MqttTransport.RecvPacket` | src/MQTT.cpp:319-348 | success takes exactly the first frame and nothing behind it; without a socket failure it fails exactly if the stream does not begin with a frame |
| `MqttClient.MqttTransport.Dispatch` | src/MQTT.cpp:273-292 | queues the payload of a PUBLISH and nothing for any other or any malformed frame |
| `MqttClient.MqttTransport.ReceiveOne` | src/MQTT.cpp:263-296 | one turn of the loop takes the next frame of the stream, queues its payload behind the queue, and stays on a frame boundary |
| `MqttClient.MqttTransport.ReceiverLoop` | src/MQTT.cpp:263-296 | handshake and loop are one continuous parse; with the flag up, nobody stopping it or lowering the flag and a reliable socket, it ends having taken every frame up to the first place where parsing stops |
| `MqttClient.MqttTransport.WaitForData` | src/MQTT.cpp:361-375 | reports exactly whether there is data; without a timeout it comes back empty-handed only with the flag down, and if nobody stopped the receiver or lowered the flag and the socket is reliable, only when no frame is left to come |
| `MqttClient.MqttTransport.TakeBytes` | src/MQTT.cpp:377-385 | hands out the front of the queue, up to the limit |
| `MqttClient.MqttTransport.Read` | src/MQTT.cpp:144-153 | the bytes returned are the front of the unread payloads; queued bytes are handed out even after disconnection; a blocking read without a timeout returns nothing only with the flag down; if the flag fell because the receiver came to its end, every frame was taken |
| `MqttClient.MqttTransport.ReadAll` | src/MQTT.cpp:136-142 | the same, and nothing is left behind |
| `MqttClient.MqttTransport.ReceiveEverything` | src/MQTT.cpp:136-142 | on such a client the receiver takes every frame, and a read_all afterwards leaves nothing unread |
| `MqttClient.MqttTransport.SendConnect` | src/MQTT.cpp:219-233 | CONNECT is the first packet of the session, whole exactly on success |
| `MqttClient.MqttTransport.ReceiveConnack` | src/MQTT.cpp:235-247 | takes exactly one frame and accepts only a CONNACK with return code 0 |
| `MqttClient.MqttTransport.SendSubscribe` | src/MQTT.cpp:249-261 | SUBSCRIBE is the second packet of the session, whole exactly on success |
| `MqttClient.MqttTransport.Handshake` | src/MQTT.cpp:90-107 | succeeds only with the session up and the reader on a frame boundary, and on a reliable socket exactly if the first frame accepts; any failure leaves a prefix of the session grammar |
| `MqttClient.MqttTransport.constructor` | src/MQTT.cpp:90-112 | connected, session up and receiver on a frame boundary, or closed; the packets sent are those of this client identifier, keep-alive and topics; connected only if the broker's first frame accepts, and on a reliable socket exactly then |
| `MqttClient.MqttTransport.Destroy` | src/MQTT.cpp:117-127 | a steady client on a reliable socket with its session up puts the two bytes of DISCONNECT behind the wire, one that is not connected nothing; at most one DISCONNECT in any case, and nothing afterwards |
| `MqttClient.MqttTransport.AnyCall` | src/MQTT.cpp:90-175 | after every call in every order the outgoing packets form this client's CONNECT, its SUBSCRIBE next exactly if it has a topic to subscribe to, PUBLISH packets, at most one DISCONNECT, only the last one torn; nothing after CONNECT without an accepted CONNACK; the flag never rises again; nothing read or written is forgotten |
| `MqttClient.MessagesFound` | src/MQTT.cpp:155-175 | the messages on a client's wire, from its identifier, topics and writes; they are the writes that returned their size if and only if there are none, or the handshake, the writes and the topic fit; every PUBLISH among them is addressed to the client's topic, if that has fewer than 65536 bytes |
| `MqttClient.MessagesSent` | src/MQTT.cpp:155-175 | so they are, in order, for writes, topics and a client identifier of ordinary size |
| `MqttClient.EndToEnd` | src/MQTT.cpp:136-175 | for two clients in any reachable states, if the first one's handshake, topic and writes fit and its messages, or the first of them, are relayed in order to the second: what was read followed by the queue is a prefix of the bytes written, and all of them once the relay is through and every frame was taken |
| `SendMutex.StepKeepsInv` | src/MQTT.cpp:155-217 | every step of any writer keeps mutual exclusion, the log of finished calls and the content of the wire |
| `SendMutex.WholeWire` | src/MQTT.cpp:200-217 | the wire is the packets of the successful calls exactly if no packet was torn |
| `SendMutex.Atomic` | src/MQTT.cpp:155-217 | under every schedule of writers, partial sends and failures: the wire is the packets in lock order plus a prefix of the lock holder's; a call is true exactly if its packet went out whole; with the mutex free, only whole packets if and only if none was torn |
| `SendMutex.PeerSeesSuccesses` | src/MQTT.cpp:155-217 | at any moment of a run, as long as no call puts bytes behind a torn packet, the peer parses exactly the successful packets, then the one just completed |
| `SendMutex.UndisturbedCall` | src/MQTT.cpp:155-217 | a call nobody disturbs succeeds, wherever its packet is split in two, and adds exactly its packet |
| `SendMutex.RefusedOrWaiting` | src/MQTT.cpp:155-213 | with the flag down a call is refused and sends nothing; with the mutex taken a writer waits |
| `SendMutex.FailureEndsTheWire` | src/MQTT.cpp:155-217 | in every reachable state in which a send may fail: afterwards the wire stays as it is under every schedule if and only if no other writer is waiting for the mutex |
| `SendMutex.WriterGoesOnAfterTear` | src/MQTT.cpp:200-213 | such a writer in a concrete run: it sends its whole packet behind a torn one and reports success |
| `Monitor.StepKeepsInv` | src/GATT.cpp:125-192 | every lock, byte, unlock, wait, wakeup and notification keeps the queue content, mutual exclusion and the wakeup invariant |
| `Monitor.Linearizable` | src/GATT.cpp:125-177 | under every schedule the calls, in the order their critical sections end, are a run of a sequential byte queue with the results the threads got; each write is one contiguous block at the end, each read takes the front, no more than its limit, and leaves bytes behind only at its limit |
| `Monitor.EventsOk` | src/GATT.cpp:142-177 | every event of such a run in terms of its request alone: a write appends its payload; a read takes the front, never more than asked for, and less only if it leaves nothing |
| `Monitor.ResultsWithinLimits` | src/GATT.cpp:142-161 | in every state of the invariant no finished read(limit) has returned more than its limit |
| `Monitor.Conservation` | src/GATT.cpp:125-177 | in every run of the queue the appended payloads, joined, are the removed bytes followed by the content |
| `Monitor.NoLostWakeup` | src/GATT.cpp:163-192 | a reader asleep on a non-empty buffer always has a writer that has appended and not yet notified, still holding the lock or between its unlock and its notification |
| `Monitor.NeverEmptyHanded` | src/GATT.cpp:142-161 | a blocking read of something without a timeout never returns nothing (MQTT: not while connected) |
| `Monitor.QuiescentMeansDrained` | src/MQTT.cpp:350-375 | when no thread can move, all writers have finished and a reader is asleep only on an empty buffer |
| `Monitor.OneWriter` | src/MQTT.cpp:350-385 | with one producer the bytes read and the bytes left are the producer's payloads in order |
| `Monitor.OneWriterOneReader` | src/MQTT.cpp:350-385 | the results the one reader got, joined, and the bytes left are what was enqueued |
| `Monitor.OnlyTheLateReaderSleepsOn` | src/MQTT.cpp:294-295 | whoever sleeps at any time after the last notification was, when it was issued, the reader between its check and its wait, holding the lock |
| `Monitor.EndIsHeard` | src/MQTT.cpp:294-295 | in every reachable state at the end of a connection: after the notification no reader is ever asleep, under any schedule, if and only if none stood between its check and its wait |
| `Monitor.DisconnectionCanBeMissed` | src/MQTT.cpp:294-295 | such a reader in a concrete run, with no thread left to wake it |
| `Monitor.SleepsUntilWoken` | src/MQTT.cpp:361-375 | a sleeping reader sleeps on, under any schedule, if and only if no step is its spurious wakeup or timeout or a notification |
| `Monitor.FlagWakesNobody` | src/MQTT.cpp:209-213 | so lowering the flag without notifying, as a failed send does, leaves it asleep |
| `Gatt.Registry.RegisterEndpoint` | src/GATT.cpp:34-44 | hands out the live buffer of the slot or fills the slot with a fresh one; no other slot changes |
| `Gatt.Registry.FindEndpoint` | src/GATT.cpp:46-57 | finds exactly live slots, erases expired ones |
| `Gatt.Registry.UnregisterEndpoint` | src/GATT.cpp:59-70 | afterwards the slot is absent or names another live buffer |
| `Gatt.StepKeepsInv` | src/GATT.cpp:34-177 | every step of any constructor, destructor, writer or reader keeps the registry, routing and content invariants |
| `Gatt.RunKeepsInv` | src/GATT.cpp:34-177 | they hold in every reachable state |
| `Gatt.NoSlotExpires` | src/GATT.cpp:34-57 | every slot names a live buffer held by a registered transport of that key, so the expired-slot branches never run |
| `Gatt.UnregisterRemovesOnlyItsOwn` | src/GATT.cpp:59-70 | unregistering keeps a slot if and only if it is not its own key's slot naming its own buffer |
| `Gatt.FoundUnlessSharedAndLeft` | src/GATT.cpp:46-70 | a registered transport is found under its key if and only if no transport that shared its buffer has unregistered |
| `Gatt.SecondTransportIsCutOff` | src/GATT.cpp:66-69 | for every configuration there is a run in which a live transport is not found |
| `Gatt.FindOutcome` | src/GATT.cpp:163-170 | in every invariant state a write finds the buffer of its key's slot, exactly if there is one; otherwise nothing changes |
| `Gatt.Refused` | src/GATT.cpp:163-170 | an empty write and a configuration without a remote device are refused before any lookup, nothing else is; the lookup is for the remote device, the service and tx, the own key is local device, service and rx |
| `Gatt.AppendDelivers` | src/GATT.cpp:171-176 | the second half of a write puts its bytes whole behind those of the buffer it found and into no other |
| `Gatt.ConstructShares` | src/GATT.cpp:104-106 | a constructor is given the buffer of its key's slot, or a new empty one that then fills it |
| `Gatt.SelectionsGrow` | src/GATT.cpp:163-177 | the writes to a buffer, for a key and of an author are exactly those that `Gatt.Delivery` and `Gatt.CrossWired` mean: each further write is added if and only if it meets the condition |
| `Gatt.BufferConservation` | src/GATT.cpp:125-177 | the payloads appended to a buffer, whole and in order, are what was taken from it followed by what it holds |
| `Gatt.ReadTakesFront` | src/GATT.cpp:142-161 | a read returns the front of the endpoint's unread bytes |
| `Gatt.Delivery` | src/GATT.cpp:104-177 | while a transport that never shared its buffer is registered, every lookup of its key has found its buffer, and it gets exactly the writes addressed to its key since it registered, in order, once |
| `Gatt.ApartMeansSole` | src/GATT.cpp:34-44 | if registered lifetimes of one key never overlap, no two transports are ever given one buffer |
| `Gatt.FoundWhenApart` | src/GATT.cpp:34-57 | then every registered transport is found |
| `Gatt.CrossWired` | src/GATT.cpp:104-177 | two mirrored transports, with no other writer to either key, read each other's writes since both registered, in order, exactly once, and none of their lookups is refused |
| `Gatt.GattUriConfig` | src/GATT.cpp:76-100 | the documented URI form gives the configuration it names |
| `Gatt.QueryComesFirst` | src/GATT.cpp:76-100 | device and service of the query come before host and path, the defaults last |
| `Gatt.KeysAreNamed` | src/GATT.cpp:76-106 | no part of a registered key is empty, whatever the URI leaves out, so a configuration without a remote device addresses nobody |
| `Gatt.DocumentedPair` | doc/usage.md:84-93 | the two documented URIs are mirrored, for all names, and writes go to the remote device's characteristic named by tx |
| `Udp.WithPeerKeeps` | src/UDP.cpp:219-230 | adding a peer keeps the table free of duplicates, within its bound and in insertion order, and tracks the peer; while there is room nobody is dropped, and a full table drops exactly the oldest |
| `Udp.SameIsAddress` | src/UDP.cpp:12-18 | two peers are the same if and only if their address bytes are |
| `Udp.AllTracked` | src/UDP.cpp:219-230 | over any senders in any order: without a bound every sender is tracked, with one all are as long as no more distinct addresses came than it allows; only senders are, and always the last |
| `Udp.UdpTransport.AddPeer` | src/UDP.cpp:219-230 | the loop over the table and the eviction do that |
| `Udp.UdpTransport.NotePeer` | src/UDP.cpp:153-158 | the sender of every datagram taken is the last peer, and the table is that of all senders so far unless only one is wanted |
| `Udp.UdpTransport.InWaiting` | src/UDP.cpp:85-94 | zero exactly if nothing is pending and no non-empty datagram heads the queue |
| `Udp.UdpTransport.ReadPending` | src/UDP.cpp:122-134 | serves the datagram begun before |
| `Udp.UdpTransport.ReadDatagram` | src/UDP.cpp:135-168 | takes the next datagram, be it there or arriving during the wait, hands out its beginning and keeps the rest, or changes nothing |
| `Udp.UdpTransport.Read` | src/UDP.cpp:118-168 | delivered bytes followed by the pending ones are the datagrams consumed, in the order of their arrival, before or during the call; a read never crosses a datagram boundary; an empty result changes nothing; an empty datagram at the head stays there |
| `Udp.UdpTransport.Drain` | src/UDP.cpp:106-115 | the loop takes whole datagrams in order, those arriving meanwhile included, and on a reliable socket stops only where none can be seen |
| `Udp.UdpTransport.ReadAll` | src/UDP.cpp:98-116 | terminates on any arrivals; returns the pending bytes and then whole datagrams in order, never an empty one; on a reliable socket exactly those before the first empty one of all that have arrived by its end; with an empty one at the head, none |
| `Udp.DrainsUnlessEmpty` | src/UDP.cpp:107-116 | that is the whole queue if and only if no datagram in it is empty; what stops it is an empty one, and none before it is |
| `Udp.UdpTransport.SendToPeers` | src/UDP.cpp:190-206 | every tracked peer is tried in order, whichever sends fail: the early exit never skips one |
| `Udp.UdpTransport.Write` | src/UDP.cpp:170-217 | the configured remote alone, else the broadcast address alone, else the tracked senders, or the last one if only one is wanted; nobody if the socket is closed or there is nothing to send; the result is that of the last send that went through |
| `Sends.LastSuccessIs` | src/UDP.cpp:190-206 | the result of a fan-out is what some send returned behind which none went through, and zero if and only if none did |
| `Sends.SuccessesCount` | src/TCP.cpp:240-256 | the sends counted against the bound are exactly those that went through |
| `Tcp.AcceptMayExceed` | src/TCP.cpp:260-277 | one round of accepting stays within the bound if and only if the list was below it or nobody waits |
| `Tcp.TcpServer.AcceptClients` | src/TCP.cpp:260-277 | waiting connections join the list in order; without a failure nobody is left waiting unless there is a bound and the list has reached it, at least one joins if any waits, and more than one only within the bound |
| `Tcp.TcpServer.InWaiting` | src/TCP.cpp:167-175 | zero exactly if no client has bytes, else the count of the first that has |
| `Tcp.TcpServer.ReceiveFirst` | src/TCP.cpp:218-230 | takes bytes off the front of all bytes waiting, in client order |
| `Tcp.BalancedReceive` | src/TCP.cpp:218-230 | any receive from any client keeps what that client ever had equal to what was taken from it, in order, followed by what waits, and no other client's account changes |
| `Tcp.BalancedAccept` | src/TCP.cpp:260-277 | accepting a client opens its account and touches no other |
| `Tcp.BalancedArrive` | src/TCP.cpp:167-175 | arriving bytes and connections extend the accounts at their ends |
| `Tcp.TcpServer.PrepareToRead` | src/TCP.cpp:203-216 | accepting and waiting, with anything arriving meanwhile, touch no byte; how many clients join, exactly, and that nobody is left waiting below the bound if nothing arrives |
| `Tcp.TcpServer.Read` | src/TCP.cpp:199-230 | keeps every client's account whatever fails or arrives; on a reliable server returns the front of all that is due from the clients in list order, bytes and clients that came during the waits included; if nothing arrives, no connection is left waiting below the bound |
| `Tcp.InTurnTwice` | src/TCP.cpp:188-195 | two reads after one another serve the clients in turn if each does and nothing arrives between |
| `Tcp.MovedTwice` | src/TCP.cpp:188-195 | the effects of two reads on the accounts are those of one; bytes returned, waiting and still to come keep their sum, so a drain ends |
| `Tcp.TcpServer.Drain` | src/TCP.cpp:188-195 | the loop ends on any arrivals, with every client's account kept, and on a reliable server with no client left with bytes; if nothing arrives, no connection is left waiting below the bound |
| `Tcp.TcpServer.ReadAll` | src/TCP.cpp:179-197 | terminates and keeps every client's account whatever fails or arrives; a reliable server leaves no client with bytes, and if nothing came after its wait returns the bytes of all clients in order, those accepted on the way included; without clients it neither waits nor accepts; a drain that begins with bytes there leaves no connection waiting below the bound if nothing arrives |
| `Tcp.TakeFromFirst` | src/TCP.cpp:218-230 | receiving from the first client with bytes takes the front of the joined bytes |
| `Tcp.TcpServer.Write` | src/TCP.cpp:232-258 | first every waiting connection joins, unless a bound is reached; then clients are tried in order up to the send that uses up the bound; all of them if the list is within its bound; without a bound every client and everyone who waited |
| `Tcp.SomebodyMayBeLeftOut` | src/TCP.cpp:240-256 | a fan-out can leave a client out if and only if there is a bound and the list is longer |
| `Lifecycle.StepKeepsInv` | src/UniTransmit.cpp:163-251 | every shared access of owner and receiver keeps the lifecycle invariant |
| `Lifecycle.LifecycleHolds` | src/UniTransmit.cpp:163-251 | under every schedule, on blocking transports too: between calls running exactly if transport and callback exist, and exactly if the thread is joinable; no joinable thread is overwritten; the thread never meets a null transport |
| `Lifecycle.NoCallbackAfterStop` | src/UniTransmit.cpp:217-251 | once close or set_receive_callback(nullptr) has returned, no callback runs until the owner's next call |
| `Lifecycle.CallLeaves` | src/UniTransmit.cpp:163-220 | in every run, whatever the receiver does meanwhile: a finished start leaves a transport, close none and no thread, both the callback as it was; set_receive_callback leaves the callback it was given; the receiver runs if and only if both are there, so a start after a close serves again |
| `Lifecycle.DataReachesCallback` | src/UniTransmit.cpp:177-240 | in every reachable state between calls with the receiver running, seven of its steps with data there run a callback at least |
| `Lifecycle.JoinEnds` | src/UniTransmit.cpp:242-251 | a join ends within eight steps of the receiver, whatever the transport has for it, if and only if the thread cannot come to a read that waits without a timeout |
| `Lifecycle.JoinHangs` | src/UniTransmit.cpp:242-251 | some answers of the transport leave the owner joining for as long as nothing more arrives, if and only if the thread may come to such a read |
| `Lifecycle.StopsEndUnlessBlocking` | src/UniTransmit.cpp:217-251 | every join of every run ends within eight steps of the receiver if and only if neither read nor read_all waits without a timeout |
| `Lifecycle.QuietJoinEnds` | src/UniTransmit.cpp:177-202 | on a quiet transport the join ends if and only if the thread does not come to wait |
| `Lifecycle.AnswersEndJoin` | src/UniTransmit.cpp:242-251 | the join ends once enough of the receiver's calls were answered, with at most one more callback |
| `Lifecycle.StopHangsWhenQuiet` | doc/usage.md:131-144 | the documented start and stop on a quiet transport that blocks without a timeout: the owner stays in its join |
| `Lifecycle.SingleByteArrives` | src/UniTransmit.cpp:186-196 | in every reachable state in which the thread waits in read, a byte that arrives alone reaches the callback if and only if read_all does not wait for more |
| `Lifecycle.SingleByteWithheld` | src/UniTransmit.cpp:186-196 | a run in which it does not, however long one waits |
| `Polling.Receiver.PollReceive` | src/UniTransmit.cpp:177-202 | over any transport, with any foreign reads and arrivals in between: at most one callback, with exactly the bytes this poll removed, in order; with a callback set it reads at least once, ends with a read without a limit or one that returned nothing, and calls nobody only if all its reads returned nothing; with nobody interfering all that is unread reaches the callback at once |
| `Polling.PolledInOrder` | src/UniTransmit.cpp:177-202 | whatever others read and whatever arrives in between, the reads of a poller return successive pieces of one stream, none of its bytes twice and none out of order |
| `Streams.FrontOfUnread` | src/UniTransmit.cpp:177-202 | what such a read returns and what it leaves are the unread bytes, in order |
| `Streams.ReadsAreOneRead` | src/UniTransmit.cpp:177-202 | any sequence of reads that take the front of the unread bytes is one such read |
| `Polling.RemovalsSnoc` | src/UniTransmit.cpp:177-202 | how one more removal extends what was removed and what was polled |
| `Polling.Loopback.Read` | src/UniTransmit.cpp:41-48 | hands out the front of what was written; nothing is lost or repeated |
| `Polling.Loopback.ReadOne` | src/UniTransmit.cpp:29-37 | the same for one byte |
| `Polling.Loopback.ReadAll` | src/UniTransmit.cpp:39 | the same for everything |
| `Polling.Loopback.Write` | src/UniTransmit.cpp:50-56 | appends to what is to be read |
| `Text.TrimCopy` | src/Protocol.cpp:10-19 | the two erasing loops compute the trimmed string |
| `Text.TrimSpec` | src/Protocol.cpp:10-19 | trimming drops white space only, from the ends only, and all of it |
| `Text.ToLowerCopy` | src/Protocol.cpp:21-25 | lower-cases every character |
| `Text.LowerSpec` | src/Protocol.cpp:21-25 | each of the 26 capital letters becomes its small one, everything else and every position stays |
| `Text.AtoiDecimal` | src/Protocol.cpp:95-101 | reading the decimal text of a number gives the number |
| `Text.AtoiSpec` | src/Protocol.cpp:95-101 | white space in front, a sign and what follows the digits; text that begins with none of these reads as zero |
| `Uri.ParseQueryLoop` | src/Protocol.cpp:27-47 | the loop over positions in the whole string computes the piecewise parse |
| `Uri.ParseJoined` | src/Protocol.cpp:27-47 | how the parse of a joined query comes from its parts, for all strings |
| `Uri.JoinIsOverride` | src/Protocol.cpp:27-47 | it is overriding if and only if the join leaves no empty piece or the empty key makes no difference |
| `Uri.EmptyJoinHasAKey` | src/Protocol.cpp:27-47 | two empty queries join to an entry no override gives |
| `Uri.QueryRoundTrip` | src/Protocol.cpp:27-47 | a rendered query parses to its pairs, keys in lower case, the last of a repeated key winning |
| `Uri.LocationRoundTrip` | src/Protocol.cpp:90-104 | host, decimal port and path are told apart again |
| `Uri.RoundTrip` | src/Protocol.cpp:51-120 | rendering any well-formed parts in the documented form and parsing gives them back, the scheme in lower case however it was written; a host left out, and a port left out or zero, come from the query |
| `Uri.PlainRoundTrip` | src/Protocol.cpp:51-120 | with scheme, host and port written out that is exactly the parts |
| `Uri.SchemeIgnoresCase` | src/Protocol.cpp:73 | schemes that differ in case only parse alike |
| `Uri.EmptyPort` | src/Protocol.cpp:95-101 | a colon with nothing behind it is dropped and names no port |
| `Uri.QueryFormRoundTrip` | src/Protocol.cpp:107-118 | host and port may be given in the query instead |
| `Uri.SerialRoundTrip` | src/Protocol.cpp:81-88 | for a serial port everything up to the query is the path, slashes and colons included; if that is nothing, the path of the query; host and port come from the query only |
| `Uri.ShortForm` | src/Protocol.cpp:54-73 | "scheme:rest", "scheme/rest" and a bare scheme are read as the long form |
| `Uri.MaxConnectFromUri` | src/Protocol.cpp:132-138 | the bound in the query of any well-formed URI is taken over if and only if it is positive; otherwise, and without one, it is one |
| `Uri.EndpointRoundTrip` | src/Protocol.cpp:186-201 | a rendered endpoint reads back if and only if its port is positive |

## Left out

- MqttClient.EndToEnd: both clients' own calls are taken as atomic steps against their sockets; the interleavings inside the queue and the send mutex are the subject of `Monitor` and `SendMutex`. The relay passes on PUBLISH packets once and in order; it may lag behind.
- MqttClient.MqttTransport.WaitForData: stands for a wait that ends; that wakeups are not lost is stated in `Monitor`.
- Gatt.StepKeepsInv: appends and reads are single steps here; that the code inside a buffer's lock amounts to that is `Monitor.Linearizable`.
- Polling.Receiver.PollReceive: the transport is any first-in-first-out byte stream. Loopback, GATT, MQTT and UDP reads are each proved to take the front of such a stream (`Streams.TakesFront`), which `Polling.PolledInOrder` builds on, but the classes share no interface type; the TCP server merges several streams and is described by its clients' accounts instead.
- Tcp.TcpServer.ReadAll: bytes and connections arrive during waits only, not between two system calls, and there are finitely many of them.
- Udp.UdpTransport.ReadAll: datagrams arrive during waits and between calls only, and there are finitely many of them. The size reported for the head datagram is taken to be at least its own, and zero for an empty one, as FIONREAD gives it.
- MQTT QoS 1 and 2, keep-alive pings, topic filters and the broker itself: the client neither sends nor interprets them.
- Lifecycle.StopHangsWhenQuiet: which transports block, and when, enters as two flags; in UDP, whose read_all waits only if somebody else takes a datagram it has seen, and in a TCP server without clients, read_all counts as not blocking.
- Throwing callbacks, and callbacks that call back into close or set_receive_callback.
- C++ data races: every shared access is taken as one step in a sequentially consistent order.
- Integer widths: `atoi` on numbers beyond int, and buffer sizes beyond int passed to send and recv.
- Socket creation, binding, connecting, address resolution and the TCP client: thin system calls.
- src/Serial.cpp and src/Utils.cpp: terminal and select plumbing; only the contracts of waiting, receiving and counting bytes appear.
- Error texts, client identifier generation and the remaining fields of the options: one branch each.
