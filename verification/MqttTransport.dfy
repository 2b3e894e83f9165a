/** The MQTT transport of src/MQTT.cpp as an object: the handshake, the packet sender, the frame
    receiver and the queue the readers take from. The socket is an adversary that picks the size of
    every partial send and receive and may fail at any of them. */
module MqttClient {
  import opened Bytes
  import RL = RemainingLength
  import opened MqttPackets
  import opened MqttSession
  import Streams

  class Socket {
    /** Every byte the peer will have delivered by the time it closes, from the current position on. */
    var inbound: seq<byte>
    /** Every byte accepted for sending. */
    var outbound: seq<byte>
    /** No send ever fails, and no wait or receive does although bytes are still to come. */
    const reliable: bool
    /** A wait or a receive has. */
    ghost var faulted: bool

    constructor (stream: seq<byte>, reliable: bool)
      ensures inbound == stream && outbound == [] && !faulted && this.reliable == reliable
    {
      inbound, outbound, faulted, this.reliable := stream, [], false, reliable;
    }

    /** `wait_for_read`. */
    method WaitForRead() returns (ok: bool)
      modifies this`faulted
      ensures old(faulted) ==> faulted
      ensures !ok && inbound != [] ==> faulted
      ensures ok || reliable ==> faulted == old(faulted)
    {
      ok :| reliable && inbound != [] ==> ok;
      if !ok && inbound != [] {
        faulted := true;
      }
    }

    /** `recv`: between one byte and all of what was asked for, or a failure that takes nothing. */
    method Recv(limit: nat) returns (rc: int, data: seq<byte>)
      requires limit > 0
      modifies this`inbound, this`faulted
      ensures old(faulted) ==> faulted
      ensures rc <= 0 ==> inbound == old(inbound) && (inbound != [] ==> faulted)
      ensures rc > 0 ==>
                && rc <= limit && rc <= |old(inbound)|
                && data == old(inbound)[..rc] && inbound == old(inbound)[rc..]
                && faulted == old(faulted)
      ensures reliable ==> faulted == old(faulted)
    {
      rc :| rc <= limit && rc <= |inbound| && (reliable && inbound != [] ==> rc > 0);
      data := [];
      if rc > 0 {
        data := inbound[..rc];
        inbound := inbound[rc..];
      } else if inbound != [] {
        faulted := true;
      }
    }

    /** `send`: takes a non-empty prefix, or fails and takes nothing. */
    method Send(data: seq<byte>) returns (rc: int)
      requires data != []
      modifies this`outbound
      ensures rc <= |data| && (reliable ==> rc > 0)
      ensures outbound == if rc > 0 then old(outbound) + data[..rc] else old(outbound)
    {
      rc :| rc <= |data| && (reliable ==> rc > 0);
      if rc > 0 {
        outbound := outbound + data[..rc];
      }
    }
  }

  class MqttTransport {
    const clientId: seq<byte>
    const txTopic: seq<byte>
    const rxTopic: seq<byte>
    const keepAlive: int
    const blocking: bool
    /** The timeout is not negative. */
    const timed: bool
    /** Nobody but the receiver at its end, or the caller's own failed send, lowers the flag. */
    const steady: bool

    const sock: Socket
    var open: bool
    var connected: bool
    var stop: bool
    var queue: seq<byte>

    /** Everything the peer ever sends to this client. */
    ghost const stream: seq<byte>
    /** The receiver thread exists and has not left its loop. */
    var receiving: bool
    /** Packets sent, whether the CONNACK came back accepting, frames received, payloads queued, bytes
        read, and the writes that succeeded. */
    ghost var log: seq<Piece>
    ghost var accepted: bool
    /** The flag was found lowered by another thread than the one looking. */
    ghost var fell: bool
    ghost var received: seq<Frame>
    ghost var queued: seq<seq<byte>>
    ghost var taken: seq<byte>
    ghost var written: seq<seq<byte>>

    ghost function Who(): Profile {
      Profile(clientId, keepAlive, txTopic, rxTopic)
    }

    /** The session is up: CONNECT is out, a good CONNACK came back, SUBSCRIBE is out if there is a
        topic to subscribe to, nothing is torn and nothing is over. */
    ghost predicate SessionUp()
      reads this`open, this`log, this`accepted
    {
      && open && accepted
      && log != [] && log[|log| - 1].Whole? && log[|log| - 1].frame.header != DISCONNECT
      && (rxTopic == [] || |log| >= 2)
    }

    /** The sending side: the session so far is on the wire, and the flag is up only while it is up. */
    ghost predicate OutboundValid()
      reads this`open, this`log, this`accepted, this`written, this`connected, sock`outbound
    {
      && SessionSent()
      && (connected ==> SessionUp())
    }

    ghost predicate SessionSent()
      reads this`log, this`accepted, this`written, sock`outbound
    {
      Sent(sock.outbound, log, accepted, Who(), written)
    }

    /** The receiving side: the frames taken are the first frames of the stream, every payload after
        the CONNACK was queued in order, and every queued byte has been read or still waits. */
    ghost predicate InboundValid()
      reads this`received, this`accepted, this`queued, this`taken, this`queue, this`receiving, sock`inbound
    {
      && received <= Frames(stream)
      && (accepted ==> received != [] && Accepted(received[0]))
      && queued == Payloads(Later(received))
      && Flatten(queued) == taken + queue
      && (receiving ==> received != [] && OnBoundary())
    }

    ghost predicate Valid()
      reads this, sock
    {
      OutboundValid() && InboundValid()
    }

    /** What is still to come parses into exactly the frames still to be received. */
    ghost predicate OnBoundary()
      reads this`received, sock`inbound
    {
      Frames(stream) == received + Frames(sock.inbound)
    }

    // ---- Sending -------------------------------------------------------------------------------

    /** A read of the atomic flag: another thread may have lowered it, none raises it. */
    method IsConnected() returns (now: bool)
      modifies this`connected, this`fell
      ensures now == connected && (connected ==> old(connected))
      ensures fell == (old(fell) || (old(connected) && !connected))
      ensures steady ==> connected == old(connected)
    {
      var lowered: bool :| steady ==> !lowered;
      if lowered {
        LowerFlag();
      }
      now := connected;
    }

    /** Another thread, the receiver or one whose send failed, lowers the flag. */
    method LowerFlag()
      modifies this`connected, this`fell
      ensures !connected && fell == (old(fell) || old(connected))
    {
      fell := fell || connected;
      connected := false;
    }

    method SendPacket(packet: seq<byte>, ghost frame: Frame) returns (ok: bool)
      requires packet == EncodeFrame(frame)
      modifies this`connected, this`log, sock`outbound
      ensures !open ==> !ok && log == old(log) && sock.outbound == old(sock.outbound)
      ensures open ==>
                && |log| == |old(log)| + 1
                && var piece := log[|old(log)|];
                   && log == old(log) + [piece]
                   && piece.frame == frame && piece.Proper() && (ok <==> piece.Whole?)
                   && sock.outbound == old(sock.outbound) + piece.Bytes()
      ensures connected == if open && !ok then false else old(connected)
      ensures open && sock.reliable ==> ok
    {
      if !open || packet == [] {
        return false;
      }
      var offset := 0;
      while offset < |packet|
        invariant offset <= |packet|
        invariant sock.outbound == old(sock.outbound) + packet[..offset]
        invariant connected == old(connected) && log == old(log)
      {
        var rc := sock.Send(packet[offset..]);
        if rc <= 0 {
          connected := false;
          log := log + [Torn(frame, offset)];
          return false;
        }
        assert packet[..offset] + packet[offset..][..rc] == packet[..offset + rc];
        offset := offset + rc;
      }
      log := log + [Whole(frame)];
      assert packet[..offset] == packet;
      ok := true;
    }

    /** `write`: success puts one whole PUBLISH of the data on the wire; a refusal leaves the wire
        alone; a failed send lowers the flag. The session grammar holds after every outcome. */
    method Write(data: seq<byte>) returns (size: nat)
      requires OutboundValid()
      modifies this`connected, this`fell, this`log, this`written, sock`outbound
      ensures OutboundValid()
      ensures connected ==> old(connected)
      ensures size == |data| || size == 0
      ensures written == if size > 0 then old(written) + [data] else old(written)
      ensures size > 0 ==> sock.outbound == old(sock.outbound) + EncodeFrame(PublishFrame(txTopic, data))
      ensures size == 0 ==> !connected || data == [] || txTopic == []
      ensures !old(connected) || data == [] || txTopic == [] ==> sock.outbound == old(sock.outbound)
      ensures old(connected) && data != [] && txTopic != [] && steady && sock.reliable ==> size == |data|
      ensures steady && sock.reliable ==> connected == old(connected)
    {
      var up := IsConnected();
      if !up || data == [] || txTopic == [] {
        return 0;
      }
      var ok := SendPublish(data);
      size := if ok then |data| else 0;
    }

    method SendPublish(data: seq<byte>) returns (ok: bool)
      requires OutboundValid() && SessionUp() && data != []
      modifies this`connected, this`log, this`written, sock`outbound
      ensures OutboundValid()
      ensures connected == (ok && old(connected))
      ensures sock.reliable ==> ok
      ensures written == if ok then old(written) + [data] else old(written)
      ensures ok ==> sock.outbound == old(sock.outbound) + EncodeFrame(PublishFrame(txTopic, data))
    {
      ghost var frame := PublishFrame(txTopic, data);
      var packet := BuildPublish(txTopic, data);
      ok := SendPacket(packet, frame);
      ghost var piece := log[|old(log)|];
      ghost var after := if ok then written + [data] else written;
      SentPublish(old(sock.outbound), old(log), accepted, Who(), written, piece, data,
                  sock.outbound, log, after);
      written := after;
    }

    // ---- Receiving -----------------------------------------------------------------------------

    method RecvExact(size: nat) returns (ok: bool, data: seq<byte>)
      modifies sock`inbound, sock`faulted
      ensures (old(sock.faulted) ==> sock.faulted) && (sock.reliable ==> sock.faulted == old(sock.faulted))
      ensures ok ==>
                && size <= |old(sock.inbound)|
                && data == old(sock.inbound)[..size] && sock.inbound == old(sock.inbound)[size..]
                && sock.faulted == old(sock.faulted)
      ensures !ok && open && !sock.faulted ==> |old(sock.inbound)| < size
    {
      data := [];
      if !open {
        return false, data;
      }
      while |data| < size
        invariant |data| <= size && |data| <= |old(sock.inbound)|
        invariant data == old(sock.inbound)[..|data|] && sock.inbound == old(sock.inbound)[|data|..]
        invariant sock.faulted == old(sock.faulted)
      {
        var ready := sock.WaitForRead();
        if !ready {
          return false, data;
        }
        var rc, chunk := sock.Recv(size - |data|);
        if rc <= 0 {
          return false, data;
        }
        data := data + chunk;
      }
      ok := true;
    }

    /** The loop that collects the remaining-length field, one byte at a time. */
    method RecvLengthField() returns (ok: bool, field: seq<byte>)
      modifies sock`inbound, sock`faulted
      ensures (old(sock.faulted) ==> sock.faulted) && (sock.reliable ==> sock.faulted == old(sock.faulted))
      ensures ok ==>
                && LengthFieldSize(old(sock.inbound), 4) == Some(|field|)
                && |field| <= |old(sock.inbound)|
                && field == old(sock.inbound)[..|field|] && sock.inbound == old(sock.inbound)[|field|..]
                && sock.faulted == old(sock.faulted)
      ensures !ok && open && !sock.faulted ==> LengthFieldSize(old(sock.inbound), 4) == None
    {
      field := [];
      ghost var start := sock.inbound;
      while |field| < 4
        invariant |field| <= 4 && |field| <= |start|
        invariant field == start[..|field|] && sock.inbound == start[|field|..]
        invariant sock.faulted == old(sock.faulted)
        invariant LengthFieldSize(start, 4) == AddSize(|field|, LengthFieldSize(sock.inbound, 4 - |field|))
      {
        ghost var before := sock.inbound;
        var got, one := RecvExact(1);
        if !got {
          return false, field;
        }
        var b := one[0];
        field := field + [b];
        if b < 128 {
          break;
        }
      }
      ok := true;
    }

    /** `recv_packet`: success takes exactly the first frame off the stream and nothing behind it;
        without a socket failure it fails exactly when the stream does not start with a frame. */
    method RecvPacket() returns (ok: bool, header: byte, payload: seq<byte>)
      modifies sock`inbound, sock`faulted
      ensures (old(sock.faulted) ==> sock.faulted) && (sock.reliable ==> sock.faulted == old(sock.faulted))
      ensures ok ==> ParseFrame(old(sock.inbound)) == Parsed(Frame(header, payload), sock.inbound)
      ensures !ok && open && !sock.faulted ==> !ParseFrame(old(sock.inbound)).Parsed?
    {
      payload := [];
      header := 0;
      ghost var start := sock.inbound;
      var got, first := RecvExact(1);
      if !got {
        return false, header, payload;
      }
      header := first[0];
      var field;
      got, field := RecvLengthField();
      if !got {
        return false, header, payload;
      }
      assert field == start[1..1 + |field|];
      var decoded, remaining, used := RL.DecodeRemainingLength(field);
      if !decoded {
        return false, header, payload;
      }
      if remaining == 0 {
        assert sock.inbound == start[1 + |field|..];
        return true, header, payload;
      }
      got, payload := RecvExact(remaining);
      if got {
        assert payload == start[1 + |field|..1 + |field| + remaining];
        assert sock.inbound == start[1 + |field| + remaining..];
      }
      ok := got;
    }

    method EnqueuePayload(payload: seq<byte>)
      modifies this`queue, this`queued
      ensures queued == if payload == [] then old(queued) else old(queued) + [payload]
      ensures queue == old(queue) + payload
    {
      if payload == [] {
        return;
      }
      queue := queue + payload;
      queued := queued + [payload];
    }

    /** The branches of the receiver loop on the packet type. */
    method Dispatch(header: byte, payload: seq<byte>)
      modifies this`queue, this`queued
      ensures queued == old(queued) + Payload(Frame(header, payload))
      ensures queue == old(queue) + Flatten(Payload(Frame(header, payload)))
    {
      if header / 16 == 3 {
        if |payload| < 2 {
          return;
        }
        var topicLength := FromU16(payload[0], payload[1]);
        if |payload| < 2 + topicLength {
          return;
        }
        EnqueuePayload(payload[2 + topicLength..]);
      }
    }

    /** One turn of the receiver loop: one more frame of the stream, its payload queued if it has one. */
    method ReceiveOne() returns (ok: bool)
      requires InboundValid() && receiving
      modifies this`queue, this`queued, this`received, this`receiving, sock`inbound, sock`faulted
      ensures InboundValid() && receiving == ok
      ensures (old(sock.faulted) ==> sock.faulted) && (sock.reliable ==> sock.faulted == old(sock.faulted))
      ensures taken == old(taken)
      ensures old(queue) <= queue && old(queued) <= queued && old(received) <= received
      ensures ok ==> |received| == |old(received)| + 1 && |sock.inbound| < |old(sock.inbound)|
      ensures !ok ==> received == old(received)
      ensures !ok && open && !sock.faulted ==> received == Frames(stream)
    {
      var header, payload;
      ok, header, payload := RecvPacket();
      if !ok {
        receiving := false;
        return;
      }
      ghost var frame := Frame(header, payload);
      Dispatch(header, payload);
      StillQueued(old(queued), taken, old(queue), Payload(frame));
      OneMore(stream, received, old(sock.inbound), frame, sock.inbound);
      received := received + [frame];
    }

    /** `receiver_loop`: it stops when it is told to, when it finds the flag lowered, or at the first
        failure to take a frame. If nobody told it to, the flag was up and nobody else lowered it, and
        the socket never failed, it has taken every frame of the stream. */
    method ReceiverLoop()
      requires InboundValid() && receiving
      modifies this`queue, this`queued, this`received, this`receiving, this`connected, this`fell, sock`inbound,
               sock`faulted
      ensures InboundValid()
      ensures !receiving && !connected
      ensures taken == old(taken) && old(queue) <= queue && old(queued) <= queued && old(received) <= received
      ensures (sock.reliable ==> sock.faulted == old(sock.faulted)) && (steady ==> fell == old(fell))
      ensures old(connected) && !stop && !fell && open && !sock.faulted ==> received == Frames(stream)
    {
      var goOn := true;
      while goOn
        invariant InboundValid() && (goOn ==> receiving)
        invariant taken == old(taken) && old(queue) <= queue && old(queued) <= queued && old(received) <= received
        invariant fell || connected == old(connected)
        invariant (sock.reliable ==> sock.faulted == old(sock.faulted)) && (steady ==> fell == old(fell))
        invariant !goOn && connected && !stop && !fell && open && !sock.faulted ==> received == Frames(stream)
        decreases goOn, |sock.inbound|
      {
        goOn := LoopTurn();
      }
      label left:
      receiving := false;
      connected := false;
      InboundUntouched@left();
    }

    /** The loop's test, and one turn if it passes. */
    method LoopTurn() returns (goOn: bool)
      requires InboundValid() && receiving
      modifies this`queue, this`queued, this`received, this`receiving, this`connected, this`fell, sock`inbound,
               sock`faulted
      ensures InboundValid() && (goOn ==> receiving && |sock.inbound| < |old(sock.inbound)|)
      ensures taken == old(taken) && old(queue) <= queue && old(queued) <= queued && old(received) <= received
      ensures fell == (old(fell) || (old(connected) && !connected)) && (connected ==> old(connected))
      ensures (sock.reliable ==> sock.faulted == old(sock.faulted)) && (steady ==> connected == old(connected))
      ensures !goOn && connected && !stop && open && !sock.faulted ==> received == Frames(stream)
    {
      var up := IsConnected();
      if stop || !up {
        return false;
      }
      goOn := ReceiveOne();
    }

    // ---- Reading -------------------------------------------------------------------------------

    /** `wait_for_data`: while the caller waits, the receiver may take any number of frames and the flag
        may fall. The wait is over once there is data, the flag is down, as it is when the receiver has left
        its loop, or a timeout, if there is one, has passed; it reports whether there is data. */
    method WaitForData() returns (ok: bool)
      requires InboundValid()
      modifies this`queue, this`queued, this`received, this`receiving, this`connected, this`fell, sock`inbound,
               sock`faulted
      ensures InboundValid()
      ensures ok <==> queue != []
      ensures !ok && !timed ==> !connected
      ensures taken == old(taken) && old(queue) <= queue && old(queued) <= queued && old(received) <= received
      ensures connected ==> old(connected)
      ensures (sock.reliable ==> sock.faulted == old(sock.faulted)) && (steady ==> fell == old(fell))
      ensures old(connected) && old(receiving) && !connected && !stop && !fell && open && !sock.faulted ==>
                received == Frames(stream)
      ensures !ok && !timed && old(connected) && old(receiving) && !stop && !fell && open && !sock.faulted ==>
                received == Frames(stream)
    {
      if queue != [] {
        return true;
      }
      var up := IsConnected();
      if !up {
        return false;
      }
      AwaitReceiver();
      ok := queue != [];
    }

    /** The wait itself. */
    method AwaitReceiver()
      requires InboundValid() && queue == []
      modifies this`queue, this`queued, this`received, this`receiving, this`connected, this`fell, sock`inbound,
               sock`faulted
      ensures InboundValid()
      ensures queue == [] && !timed ==> !connected
      ensures taken == old(taken) && old(queued) <= queued && old(received) <= received
      ensures connected ==> old(connected)
      ensures (sock.reliable ==> sock.faulted == old(sock.faulted)) && (steady ==> fell == old(fell))
      ensures old(connected) && old(receiving) && !connected && !stop && !fell && open && !sock.faulted ==>
                received == Frames(stream)
      ensures queue == [] && !timed && old(connected) && old(receiving) && !stop && !fell && open && !sock.faulted ==>
                received == Frames(stream)
    {
      var frames: nat :| true;
      var goOn := receiving;
      while goOn && (frames > 0 || (queue == [] && !timed))
        invariant InboundValid() && (goOn ==> receiving)
        invariant taken == old(taken) && old(queued) <= queued && old(received) <= received
        invariant connected ==> old(connected)
        invariant fell || connected == old(connected)
        invariant (sock.reliable ==> sock.faulted == old(sock.faulted)) && (steady ==> fell == old(fell))
        invariant old(receiving) && !goOn && connected && !stop && open && !sock.faulted ==> received == Frames(stream)
        decreases goOn, |sock.inbound|
      {
        goOn := LoopTurn();
        frames := if frames > 0 then frames - 1 else 0;
      }
      if !goOn {
        label left:
        receiving := false;
        connected := false;
        InboundUntouched@left();
      }
    }

    /** What was queued, and what of it was read. */
    ghost function Account(): Streams.Account
      reads this`queued, this`taken
    {
      Streams.Account(Flatten(queued), taken)
    }

    method TakeBytes(maxBytes: nat) returns (out: seq<byte>)
      requires InboundValid()
      modifies this`queue, this`taken
      ensures InboundValid()
      ensures out == old(queue)[..Min(maxBytes, |old(queue)|)] && queue == old(queue)[|out|..]
      ensures taken == old(taken) + out
    {
      out := PopFront(maxBytes);
      taken := taken + out;
      HandedOut(out);
    }

    method PopFront(maxBytes: nat) returns (out: seq<byte>)
      modifies this`queue
      ensures out == old(queue)[..Min(maxBytes, |old(queue)|)] && queue == old(queue)[|out|..]
      ensures old(queue) == out + queue
    {
      out := [];
      ghost var before := queue;
      while queue != [] && |out| < maxBytes
        invariant |out| <= maxBytes && |out| <= |before|
        invariant out == before[..|out|] && queue == before[|out|..]
      {
        out := out + [queue[0]];
        queue := queue[1..];
      }
      assert before == out + queue;
    }

    /** Bytes that go from the queue to the reader. */
    twostate lemma HandedOut(out: seq<byte>)
      requires old(InboundValid())
      requires unchanged(this`received, this`accepted, this`queued, this`receiving, sock`inbound)
      requires old(queue) == out + queue && taken == old(taken) + out
      ensures InboundValid()
    {
      Reassociate(old(taken), out, queue);
    }

    /** `read(max_bytes)`: the next bytes of the stream of payloads. What is queued is handed out
        whether or not the connection is still up. */
    method Read(maxBytes: nat) returns (out: seq<byte>)
      requires InboundValid()
      modifies this`queue, this`taken, this`queued, this`received, this`receiving, this`connected, this`fell,
               sock`inbound, sock`faulted
      ensures InboundValid()
      ensures connected ==> old(connected)
      ensures taken == old(taken) + out && |out| <= maxBytes
      ensures old(received) <= received
      ensures old(queue) != [] || !blocking ==>
              out == old(queue)[..Min(maxBytes, |old(queue)|)] && queue == old(queue)[|out|..]
      ensures out == [] ==> maxBytes == 0 || (old(queue) == [] && queue == [])
      ensures out == [] && maxBytes > 0 && blocking && !timed ==> !connected
      ensures (sock.reliable ==> sock.faulted == old(sock.faulted)) && (steady ==> fell == old(fell))
      ensures old(connected) && old(receiving) && !connected && !stop && !fell && open && !sock.faulted ==>
                received == Frames(stream)
      ensures out == [] && maxBytes > 0 && blocking && !timed && old(connected) && old(receiving)
              && !stop && !fell && open && !sock.faulted ==>
                received == Frames(stream)
      ensures Streams.TakesFront(old(Account()), Some(maxBytes), out, Account())
    {
      if maxBytes == 0 {
        return [];
      }
      if queue == [] && blocking {
        var ok := WaitForData();
        FlattenPrefix(old(queued), queued);
        if !ok {
          return [];
        }
      }
      out := TakeBytes(Min(maxBytes, |queue|));
    }

    /** `read_all`: everything queued, with the same promise. */
    method ReadAll() returns (out: seq<byte>)
      requires InboundValid()
      modifies this`queue, this`taken, this`queued, this`received, this`receiving, this`connected, this`fell,
               sock`inbound, sock`faulted
      ensures InboundValid()
      ensures connected ==> old(connected)
      ensures taken == old(taken) + out && (out != [] ==> queue == [])
      ensures old(received) <= received
      ensures old(queue) != [] || !blocking ==> out == old(queue) && queue == []
      ensures out == [] && blocking && !timed ==> !connected
      ensures queue == []
      ensures (sock.reliable ==> sock.faulted == old(sock.faulted)) && (steady ==> fell == old(fell))
      ensures old(connected) && old(receiving) && !connected && !stop && !fell && open && !sock.faulted ==>
                received == Frames(stream)
      ensures out == [] && blocking && !timed && old(connected) && old(receiving)
              && !stop && !fell && open && !sock.faulted ==>
                received == Frames(stream)
      ensures Streams.TakesFront(old(Account()), None, out, Account())
    {
      if queue == [] && blocking {
        var ok := WaitForData();
        FlattenPrefix(old(queued), queued);
        if !ok {
          return [];
        }
      }
      out := TakeBytes(|queue|);
    }

    /** On a socket that does not fail, with a flag nobody lowers and nobody stopping it, the receiver takes
        every frame of the stream, and a reader then has every byte of their payloads. */
    method ReceiveEverything() returns (out: seq<byte>)
      requires InboundValid() && open && connected && receiving && !stop && !fell && !sock.faulted
      requires steady && sock.reliable
      modifies this`queue, this`taken, this`queued, this`received, this`receiving, this`connected, this`fell,
               sock`inbound, sock`faulted
      ensures InboundValid() && received == Frames(stream) && queue == [] && taken == old(taken) + out
    {
      ReceiverLoop();
      out := ReadAll();
    }

    // ---- The life of a client ------------------------------------------------------------------

    method SendConnect() returns (ok: bool)
      requires open && !accepted && log == [] && sock.outbound == [] && written == []
      modifies this`connected, this`log, sock`outbound
      ensures SessionSent()
      ensures |log| == 1 && log[0].frame == ConnectFrame(clientId, keepAlive)
      ensures log[0].Proper() && (ok <==> log[0].Whole?)
      ensures sock.outbound == log[0].Bytes()
      ensures sock.reliable ==> ok
      ensures connected ==> old(connected)
    {
      var packet := BuildConnect(clientId, keepAlive);
      ok := SendPacket(packet, ConnectFrame(clientId, keepAlive));
      assert log == [log[0]];
      SentFirst(log[0], Who());
    }

    method ReceiveConnack() returns (ok: bool)
      requires open && received == [] && queued == [] && taken == [] && queue == []
      requires !accepted && !receiving && sock.inbound == stream
      modifies this`received, sock`inbound, sock`faulted
      ensures InboundValid() && (ok ==> OnBoundary())
      ensures ok ==> |received| == 1 && Accepted(received[0])
      ensures ok ==> ParseFrame(old(sock.inbound)) == Parsed(received[0], sock.inbound)
      ensures sock.reliable && !old(sock.faulted) && Welcoming(stream) ==> ok
      ensures sock.reliable ==> sock.faulted == old(sock.faulted)
      ensures received == [] || (ParseFrame(old(sock.inbound)) == Parsed(received[0], sock.inbound) && |received| == 1)
    {
      var header, payload;
      ok, header, payload := RecvPacket();
      if !ok {
        return;
      }
      received := [Frame(header, payload)];
      FirstFrame(stream, received, sock.inbound);
      ok := header == 0x20 && |payload| == 2 && payload[1] == 0;
    }

    ghost method NoteAccepted()
      requires SessionSent() && InboundValid() && !accepted && received != [] && Accepted(received[0])
      modifies this`accepted
      ensures SessionSent() && InboundValid() && accepted
    {
      SentAccepted(sock.outbound, log, false, Who(), written);
      accepted := true;
    }

    method SendSubscribe() returns (ok: bool)
      requires open && accepted && rxTopic != [] && SessionSent()
      requires |log| == 1 && log[0].Whole? && log[0].frame.header == CONNECT
      modifies this`connected, this`log, sock`outbound
      ensures SessionSent()
      ensures |log| == |old(log)| + 1
      ensures var piece := log[|old(log)|];
              && log == old(log) + [piece] && piece.frame == SubscribeFrame(rxTopic)
              && piece.Proper() && (ok <==> piece.Whole?)
              && sock.outbound == old(sock.outbound) + piece.Bytes()
      ensures connected ==> old(connected)
      ensures sock.reliable ==> ok
    {
      var packet := BuildSubscribe(rxTopic);
      ok := SendPacket(packet, SubscribeFrame(rxTopic));
      SentSubscribe(old(sock.outbound), old(log), accepted, Who(), written, log[1], sock.outbound, log);
    }

    /** Nothing sent, received or read yet. */
    ghost predicate Untouched()
      reads this, sock
    {
      && !connected && !receiving && !accepted && log == [] && received == [] && queued == [] && written == []
      && taken == [] && queue == [] && sock.outbound == [] && sock.inbound == stream
      && InboundValid() && SessionSent()
    }

    /** The handshake of a freshly opened client. */
    method Handshake() returns (ok: bool)
      requires open && Untouched()
      modifies this`connected, this`log, this`accepted, this`received, sock`inbound, sock`outbound, sock`faulted
      ensures !connected && !receiving && OutboundValid() && InboundValid()
      ensures ok ==> SessionUp() && received != [] && OnBoundary() && Welcoming(stream)
      ensures sock.reliable && !old(sock.faulted) && Welcoming(stream) ==> ok
      ensures sock.reliable ==> sock.faulted == old(sock.faulted)
    {
      ok := SendConnect();
      if !ok {
        return;
      }
      ok := ReceiveConnack();
      if !ok {
        return;
      }
      ok := Proceed();
    }

    /** The handshake behind an accepting CONNACK. */
    method Proceed() returns (ok: bool)
      requires open && !connected && !accepted && SessionSent() && InboundValid() && OnBoundary()
      requires |log| == 1 && log[0].Whole? && log[0].frame.header == CONNECT
      requires received != [] && Accepted(received[0])
      modifies this`connected, this`log, this`accepted, sock`outbound
      ensures !connected && SessionSent() && InboundValid() && OnBoundary()
      ensures ok ==> SessionUp()
      ensures sock.reliable ==> ok
    {
      ok := true;
      NoteAccepted();
      if rxTopic != [] {
        ok := SendSubscribe();
      }
    }

    /** The body of the constructor behind `connect_broker`. */
    method Start()
      requires open && Untouched()
      modifies this`open, this`connected, this`receiving, this`log, this`accepted, this`received
      modifies sock`inbound, sock`outbound, sock`faulted
      ensures OutboundValid() && InboundValid()
      ensures connected == receiving == open
      ensures connected ==> Welcoming(stream)
      ensures sock.reliable && !old(sock.faulted) && Welcoming(stream) ==> connected
      ensures sock.reliable ==> sock.faulted == old(sock.faulted)
    {
      var ok := Handshake();
      if ok {
        GoOnline();
      } else {
        GoOffline();
      }
    }

    method GoOnline()
      requires SessionSent() && SessionUp() && InboundValid() && received != [] && OnBoundary()
      modifies this`connected, this`receiving
      ensures OutboundValid() && InboundValid() && connected && receiving
    {
      connected := true;
      receiving := true;
    }

    method GoOffline()
      requires OutboundValid() && !connected
      modifies this`open
      ensures OutboundValid() && !open
    {
      open := false;
    }

    /** The constructor, from any broker: it ends connected with the session up and the receiver on a
        frame boundary, or closed with whatever the handshake got as far as sending. */
    constructor (clientId: seq<byte>, txTopic: seq<byte>, rxTopic: seq<byte>, keepAlive: int, blocking: bool,
                 timed: bool, steady: bool, sock: Socket, reachable: bool)
      requires sock.outbound == []
      modifies sock
      ensures Valid()
      ensures connected == receiving == open
      ensures connected ==> reachable && Welcoming(stream)
      ensures reachable && sock.reliable && !old(sock.faulted) && Welcoming(stream) ==> connected
      ensures !reachable ==> !open && sock.outbound == []
      ensures taken == [] && written == []
      ensures stream == old(sock.inbound) && this.sock == sock
      ensures this.txTopic == txTopic && this.rxTopic == rxTopic && this.blocking == blocking && this.timed == timed
      ensures !fell && !stop && this.steady == steady
      ensures this.clientId == clientId && this.keepAlive == keepAlive
      ensures sock.reliable ==> sock.faulted == old(sock.faulted)
    {
      this.clientId, this.txTopic, this.rxTopic := clientId, txTopic, rxTopic;
      this.keepAlive, this.blocking, this.timed, this.steady := keepAlive, blocking, timed, steady;
      this.sock, this.stream := sock, sock.inbound;
      open, connected, stop, queue := reachable, false, false, [];
      receiving, accepted, fell, log, received, queued, taken, written := false, false, false, [], [], [], [], [];
      new;
      if reachable {
        Start();
      }
    }

    method SendDisconnect()
      requires OutboundValid() && SessionUp()
      modifies this`connected, this`log, sock`outbound
      ensures SessionSent()
      ensures |log| == |old(log)| + 1 && old(log) <= log && log[|old(log)|].frame == DISCONNECT_FRAME
      ensures sock.reliable ==> sock.outbound == old(sock.outbound) + [0xE0, 0x00]
    {
      DisconnectBytes();
      var _ := SendPacket([0xE0, 0x00], DISCONNECT_FRAME);
      SentDisconnect(old(sock.outbound), old(log), accepted, Who(), written, log[|old(log)|], sock.outbound, log);
    }

    /** The destructor: a session still up is closed with DISCONNECT, and nothing is sent afterwards. */
    method Destroy()
      requires OutboundValid()
      modifies this`connected, this`fell, this`stop, this`open, this`log, this`receiving, sock`outbound
      ensures OutboundValid()
      ensures !open && !connected && !receiving && stop
      ensures log == old(log)
              || (|log| == |old(log)| + 1 && old(log) <= log && log[|old(log)|].frame == DISCONNECT_FRAME)
      ensures written == old(written)
      ensures old(connected) && steady && sock.reliable ==> sock.outbound == old(sock.outbound) + [0xE0, 0x00]
      ensures !old(connected) ==> sock.outbound == old(sock.outbound)
    {
      stop := true;
      var up := IsConnected();
      if up {
        SendDisconnect();
      }
      open := false;
      receiving := false;
      connected := false;
    }

    /** Any call a client makes, or any stretch of the receiver thread, in any order, from any reachable
        state: the session grammar, the stream of payloads and the meaning of the flag survive; the flag
        does not come back up; nothing written or read is forgotten. */
    method AnyCall(call: ClientCall)
      requires Valid()
      modifies this, sock
      ensures Valid()
      ensures connected ==> old(connected)
      ensures old(written) <= written && old(taken) <= taken && old(received) <= received
    {
      if call.CallWrite? || call.CallDestroy? {
        OutboundCall(call);
      } else {
        InboundCall(call);
        OutboundUntouched();
      }
    }

    /** The receiving side notices of a caller's sends at most that the receiver is gone. */
    twostate lemma InboundUntouched()
      requires old(InboundValid())
      requires unchanged(this`received, this`accepted, this`queued, this`taken, this`queue, sock`inbound)
      requires receiving ==> old(receiving)
      ensures InboundValid()
    {}

    /** A falling flag is all the sending side can notice of the receiver. */
    twostate lemma OutboundUntouched()
      requires old(OutboundValid())
      requires unchanged(this`open, this`log, this`accepted, this`written, sock`outbound)
      requires connected ==> old(connected)
      ensures OutboundValid()
    {}

    method OutboundCall(call: ClientCall)
      requires Valid()
      requires call.CallWrite? || call.CallDestroy?
      modifies this`connected, this`fell, this`stop, this`open, this`log, this`written, this`receiving, sock`outbound
      ensures Valid()
      ensures connected ==> old(connected)
      ensures old(written) <= written
    {
      match call {
        case CallWrite(data) => var _ := Write(data);
        case CallDestroy => Destroy();
      }
      InboundUntouched();
    }

    method InboundCall(call: ClientCall)
      requires InboundValid()
      requires !call.CallWrite? && !call.CallDestroy?
      modifies this`queue, this`taken, this`queued, this`received, this`receiving, this`connected, this`fell,
               sock`inbound, sock`faulted
      ensures InboundValid()
      ensures connected ==> old(connected)
      ensures old(taken) <= taken && old(received) <= received
    {
      match call {
        case CallRead(maxBytes) => var _ := Read(maxBytes);
        case CallReadAll => var _ := ReadAll();
        case ReceiverRuns =>
          if receiving {
            ReceiverLoop();
          }
        case ReceiverTurn =>
          if receiving {
            var _ := ReceiveOne();
          }
      }
    }
  }

  /** A call a client may make, or a stretch of the receiver thread. */
  datatype ClientCall =
    | CallWrite(data: seq<byte>)
    | CallRead(maxBytes: nat)
    | CallReadAll
    | ReceiverRuns
    | ReceiverTurn
    | CallDestroy

  /** The size of a length field of which `taken` bytes have been read. */
  ghost function AddSize(taken: nat, rest: Option<nat>): Option<nat> {
    if rest.None? then None else Some(taken + rest.value)
  }

  /** End to end. Whatever sizes the sends and receives of two clients were cut into, if the stream of
      one carries after its CONNACK the messages found on the wire of the other, or the first of them, in
      order and mixed with any frames that carry none, then what the reader has read followed by what waits
      in its queue is a prefix of the bytes successfully written, and all of them once it took every frame
      and the relay is through. It takes no more than that the writes, the topic and the handshake fit. */
  lemma EndToEnd(writer: MqttTransport, reader: MqttTransport, relayed: seq<Frame>, tail: seq<byte>)
    requires writer.OutboundValid() && reader.InboundValid()
    requires Fits(writer.Who(), writer.written)
    requires AllSized(relayed) && !ParseFrame(tail).Parsed?
    requires reader.stream == EncodeFrames(relayed) + tail
    requires Payloads(Later(relayed)) <= Payloads(Frames(writer.sock.outbound))
    ensures reader.taken + reader.queue <= Flatten(writer.written)
    ensures reader.received == Frames(reader.stream)
            && Payloads(Later(relayed)) == Payloads(Frames(writer.sock.outbound)) ==>
              reader.taken + reader.queue == Flatten(writer.written)
  {
    MessagesFound(writer);
    EndToEndRead(reader, relayed, tail);
    FlattenPrefix(Payloads(Later(relayed)), writer.written);
  }

  /** The reader's part: what was read and what waits is a prefix of the messages relayed. */
  lemma EndToEndRead(reader: MqttTransport, relayed: seq<Frame>, tail: seq<byte>)
    requires reader.InboundValid()
    requires AllSized(relayed) && !ParseFrame(tail).Parsed?
    requires reader.stream == EncodeFrames(relayed) + tail
    ensures reader.taken + reader.queue <= Flatten(Payloads(Later(relayed)))
    ensures reader.received == Frames(reader.stream) ==>
            reader.taken + reader.queue == Flatten(Payloads(Later(relayed)))
  {
    FramesRoundTrip(relayed, tail);
    assert Frames(tail) == [];
    assert relayed + [] == relayed;
    PrefixPayloads(reader.received, relayed);
  }

  /** The messages a broker finds on a client's wire, whatever was written: those of the writes before the
      first that is too large for its length field, each behind the part of the topic its sixteen-bit length
      leaves out; none if a packet of the handshake is too large. They are exactly the writes that returned
      their size if and only if these, the topic and the packets of the handshake fit. Each is addressed to the
      client's topic, if that fits its length prefix. */
  lemma MessagesFound(writer: MqttTransport)
    requires writer.OutboundValid()
    ensures Payloads(Frames(writer.sock.outbound))
            == Spilled(writer.txTopic, writer.written[..Heard(writer.Who(), writer.written)])
    ensures Heard(writer.Who(), writer.written) == |writer.written| <==> AllHeard(writer.log)
    ensures Payloads(Frames(writer.sock.outbound)) == writer.written <==> Fits(writer.Who(), writer.written)
    ensures |writer.txTopic| < 65536 ==> Addressed(Frames(writer.sock.outbound), writer.txTopic)
  {
    SentMeans(writer.sock.outbound, writer.log, writer.accepted, writer.Who(), writer.written);
    SessionHeard(writer.sock.outbound, writer.log, writer.accepted, writer.Who(), writer.written);
  }

  /** So for writes, a topic, a client identifier and a topic filter of ordinary size. */
  lemma MessagesSent(writer: MqttTransport)
    requires writer.OutboundValid()
    requires AllPublishable(writer.txTopic, writer.written)
    requires |writer.clientId| <= RL.MAX_LENGTH - 12 && |writer.rxTopic| <= RL.MAX_LENGTH - 5
    ensures Payloads(Frames(writer.sock.outbound)) == writer.written
  {
    MessagesFound(writer);
    OrdinaryFits(writer.Who(), writer.written);
  }
}
