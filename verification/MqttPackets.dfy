/** The packets of src/MQTT.cpp as frames: how they are built, how a byte stream parses into frames,
    and what the receiver makes of each frame. */
module MqttPackets {
  import opened Bytes
  import RL = RemainingLength

  /** One control packet: the fixed header's first byte and everything after the remaining length. */
  datatype Frame = Frame(header: byte, body: seq<byte>)

  /** "MQTT". */
  const PROTOCOL_NAME: seq<byte> := [0x4D, 0x51, 0x54, 0x54]

  const CONNECT: byte := 0x10
  const CONNACK: byte := 0x20
  const PUBLISH: byte := 0x30
  const SUBSCRIBE: byte := 0x82
  const DISCONNECT: byte := 0xE0

  function EncodeFrame(f: Frame): seq<byte> {
    [f.header] + RL.Encode(|f.body|) + f.body
  }

  function EncodeFrames(fs: seq<Frame>): seq<byte> {
    if fs == [] then [] else EncodeFrame(fs[0]) + EncodeFrames(fs[1..])
  }

  ghost predicate Sized(f: Frame) {
    |f.body| <= RL.MAX_LENGTH
  }

  ghost predicate AllSized(fs: seq<Frame>) {
    forall i :: 0 <= i < |fs| ==> Sized(fs[i])
  }

  // ---- Fields --------------------------------------------------------------------------------

  /** `append_u16` of a value cast to sixteen bits. */
  function U16(v: nat): seq<byte> {
    [v / 256 % 256, v % 256]
  }

  function FromU16(high: nat, low: nat): nat {
    high * 256 + low
  }

  /** Most significant byte first, both ways. */
  lemma BigEndian(v: nat, high: byte, low: byte)
    ensures (U16(v)[0] as int) * 256 + U16(v)[1] as int == v % 65536
    ensures FromU16(high, low) == 256 * (high as int) + low as int
    ensures FromU16(U16(v)[0], U16(v)[1]) == v <==> v < 65536
  {
  }

  /** `append_string`: the length is cut to sixteen bits, the bytes are not. */
  function MqttString(s: seq<byte>): seq<byte> {
    U16(|s|) + s
  }

  datatype Field = Field(value: seq<byte>, rest: seq<byte>)

  /** The reader of a length-prefixed string, as section 1.5.3 of MQTT 3.1.1 prescribes it. */
  function ReadString(s: seq<byte>): Option<Field> {
    if |s| < 2 then None
    else
      var n := FromU16(s[0], s[1]);
      if |s| < 2 + n then None else Some(Field(s[2..2 + n], s[2 + n..]))
  }

  /** What a reader finds where `append_string` wrote: the string cut to `|s| % 65536` bytes, and the
      bytes cut off spill into what follows. So the string survives exactly when it is short enough. */
  lemma StringRoundTrip(s: seq<byte>, rest: seq<byte>)
    ensures ReadString(MqttString(s) + rest) == Some(Field(s[..|s| % 65536], s[|s| % 65536..] + rest))
    ensures ReadString(MqttString(s) + rest) == Some(Field(s, rest)) <==> |s| < 65536
  {
    var n := |s| % 65536;
    var w := MqttString(s) + rest;
    assert |s| / 256 % 256 * 256 + |s| % 256 == n;
    assert w[2..] == s + rest;
    assert w[2..2 + n] == s[..n];
    assert w[2 + n..] == s[n..] + rest;
    if |s| < 65536 {
      assert s[..n] == s && s[n..] + rest == rest;
    } else {
      assert |s[..n]| < |s|;
    }
  }

  lemma StringSurvives(s: seq<byte>, rest: seq<byte>)
    ensures ReadString(MqttString(s) + rest) == Some(Field(s, rest)) <==> |s| < 65536
  {
    StringRoundTrip(s, rest);
  }

  // ---- Packets the client sends --------------------------------------------------------------

  function ConnectFrame(clientId: seq<byte>, keepAlive: int): Frame {
    Frame(CONNECT,
          MqttString(PROTOCOL_NAME) + [0x04, 0x02]
          + U16(if keepAlive < 0 then 0 else keepAlive) + MqttString(clientId))
  }

  function SubscribeFrame(topic: seq<byte>): Frame {
    Frame(SUBSCRIBE, U16(1) + MqttString(topic) + [0x00])
  }

  function PublishFrame(topic: seq<byte>, data: seq<byte>): Frame {
    Frame(PUBLISH, MqttString(topic) + data)
  }

  const DISCONNECT_FRAME: Frame := Frame(DISCONNECT, [])

  lemma DisconnectBytes()
    ensures EncodeFrame(DISCONNECT_FRAME) == [0xE0, 0x00]
  {
    assert RL.Encode(0) == [0];
  }

  method AppendString(out: seq<byte>, value: seq<byte>) returns (r: seq<byte>)
    ensures r == out + MqttString(value)
  {
    r := out + [|value| / 256 % 256];
    r := r + [|value| % 256];
    r := r + value;
  }

  /** The tail every builder shares: header byte, remaining length, body. */
  method Assemble(header: byte, body: seq<byte>) returns (packet: seq<byte>)
    ensures packet == EncodeFrame(Frame(header, body))
  {
    packet := [header];
    var remaining := RL.EncodeRemainingLength(|body|);
    packet := packet + remaining;
    packet := packet + body;
  }

  method BuildPublish(topic: seq<byte>, data: seq<byte>) returns (packet: seq<byte>)
    ensures packet == EncodeFrame(PublishFrame(topic, data))
  {
    var variableHeader := AppendString([], topic);
    packet := Assemble(PUBLISH, variableHeader + data);
  }

  method BuildConnect(clientId: seq<byte>, keepAlive: int) returns (packet: seq<byte>)
    ensures packet == EncodeFrame(ConnectFrame(clientId, keepAlive))
  {
    var payload := AppendString([], PROTOCOL_NAME);
    payload := payload + [0x04];
    payload := payload + [0x02];
    var seconds := if keepAlive < 0 then 0 else keepAlive;
    payload := payload + [seconds / 256 % 256];
    payload := payload + [seconds % 256];
    payload := AppendString(payload, clientId);
    assert payload == ConnectFrame(clientId, keepAlive).body;
    packet := Assemble(CONNECT, payload);
  }

  method BuildSubscribe(topic: seq<byte>) returns (packet: seq<byte>)
    ensures packet == EncodeFrame(SubscribeFrame(topic))
  {
    var variableHeader: seq<byte> := [0x00, 0x01];
    variableHeader := AppendString(variableHeader, topic);
    variableHeader := variableHeader + [0x00];
    packet := Assemble(SUBSCRIBE, variableHeader);
  }

  /** Everything in a CONNECT after the protocol name. */
  function ConnectRest(clientId: seq<byte>, keepAlive: int): seq<byte> {
    [0x04, 0x02] + U16(if keepAlive < 0 then 0 else keepAlive) + MqttString(clientId)
  }

  /** Section 3.1: protocol name "MQTT", level 4, clean session, keep-alive and client identifier can
      be read back; the keep-alive exactly if it fits its field, the identifier exactly if its length
      fits its prefix. */
  lemma ConnectFields(clientId: seq<byte>, keepAlive: int)
    ensures ConnectFrame(clientId, keepAlive).header == 0x10
    ensures ReadString(ConnectFrame(clientId, keepAlive).body)
            == Some(Field([0x4D, 0x51, 0x54, 0x54], ConnectRest(clientId, keepAlive)))
    ensures var rest := ConnectRest(clientId, keepAlive);
            && rest[0] == 4 && rest[1] == 2
            && (FromU16(rest[2], rest[3]) == keepAlive <==> 0 <= keepAlive < 65536)
            && (ReadString(rest[4..]) == Some(Field(clientId, [])) <==> |clientId| < 65536)
  {
    ConnectName(clientId, keepAlive);
    var rest := ConnectRest(clientId, keepAlive);
    assert rest[4..] == MqttString(clientId) + [];
    StringSurvives(clientId, []);
  }

  lemma ConnectName(clientId: seq<byte>, keepAlive: int)
    ensures ReadString(ConnectFrame(clientId, keepAlive).body)
            == Some(Field(PROTOCOL_NAME, ConnectRest(clientId, keepAlive)))
  {
    var rest := ConnectRest(clientId, keepAlive);
    assert ConnectFrame(clientId, keepAlive).body == MqttString(PROTOCOL_NAME) + rest;
    StringRoundTrip(PROTOCOL_NAME, rest);
  }

  lemma BehindIdentifier(id: seq<byte>, text: seq<byte>, rest: seq<byte>)
    requires |id| == 2
    ensures (id + text + rest)[..2] == id && (id + text + rest)[2..] == text + rest
  {
  }

  /** Section 3.8: packet identifier 1, one topic filter, requested QoS 0. */
  lemma SubscribeFields(topic: seq<byte>)
    ensures var f := SubscribeFrame(topic);
            && f.header == 0x82
            && |f.body| >= 2 && f.body[..2] == [0x00, 0x01]
            && (ReadString(f.body[2..]) == Some(Field(topic, [0x00])) <==> |topic| < 65536)
  {
    var text := MqttString(topic);
    assert SubscribeFrame(topic).body == U16(1) + text + [0x00];
    BehindIdentifier(U16(1), text, [0x00]);
    StringSurvives(topic, [0x00]);
  }

  /** Section 3.3: a PUBLISH with no flags carries its topic and, behind it, the message; both can be read
      back exactly if the topic's length fits its prefix. */
  lemma PublishFields(topic: seq<byte>, data: seq<byte>)
    ensures var f := PublishFrame(topic, data);
            && f.header == 0x30
            && (ReadString(f.body) == Some(Field(topic, data)) <==> |topic| < 65536)
  {
    StringSurvives(topic, data);
  }

  /** Header byte, length, body: in this order on the wire. */
  lemma FrameLayout(f: Frame)
    ensures var packet := EncodeFrame(f);
            && packet != [] && packet[0] == f.header
            && packet[1..] == RL.Encode(|f.body|) + f.body
  {
    assert EncodeFrame(f) == [f.header] + (RL.Encode(|f.body|) + f.body);
  }

  // ---- What the receiver makes of a frame ----------------------------------------------------

  /** The application message of a PUBLISH with QoS 0; every other frame, and a PUBLISH too short for
      its own topic, carries none. */
  function Message(f: Frame): Option<seq<byte>> {
    if f.header / 16 == 3 && |f.body| >= 2 then
      var topicLength := FromU16(f.body[0], f.body[1]);
      if |f.body| < 2 + topicLength then None else Some(f.body[2 + topicLength..])
    else None
  }

  /** What one frame hands to the queue: its message, unless it has none or an empty one. */
  function Payload(f: Frame): seq<seq<byte>> {
    match Message(f)
    case Some(m) => if m == [] then [] else [m]
    case None => []
  }

  /** The payloads handed to the queue for a list of frames. */
  function Payloads(fs: seq<Frame>): seq<seq<byte>> {
    if fs == [] then [] else Payload(fs[0]) + Payloads(fs[1..])
  }

  lemma {:induction false} PayloadsConcat(a: seq<Frame>, b: seq<Frame>)
    ensures Payloads(a + b) == Payloads(a) + Payloads(b)
  {
    if a == [] {
      assert a + b == b;
    } else {
      PayloadsConcat(a[1..], b);
      assert (a + b)[0] == a[0] && (a + b)[1..] == a[1..] + b;
      Reassociate(Payload(a[0]), Payloads(a[1..]), Payloads(b));
    }
  }

  lemma PayloadsSnoc(a: seq<Frame>, f: Frame)
    ensures Payloads(a + [f]) == Payloads(a) + Payload(f)
  {
    PayloadsConcat(a, [f]);
    assert [f][1..] == [];
  }

  /** A published message arrives unchanged exactly when the topic's length fits its prefix; otherwise
      the tail of the topic arrives in front of it. */
  lemma PublishedMessage(topic: seq<byte>, data: seq<byte>)
    ensures Message(PublishFrame(topic, data)) == Some(topic[|topic| % 65536..] + data)
    ensures Message(PublishFrame(topic, data)) == Some(data) <==> |topic| < 65536
  {
    StringRoundTrip(topic, data);
    var body := MqttString(topic) + data;
    var n := |topic| % 65536;
    assert FromU16(body[0], body[1]) == n;
    assert body[2 + n..] == topic[n..] + data;
    if |topic| < 65536 {
      assert topic[n..] + data == data;
    } else {
      assert |topic[n..] + data| > |data|;
    }
  }

  /** Which frames carry a message, whatever sent them: packet type 3 with any flags, and then only if the
      topic's length leaves room for the topic. What is not of that type, or too short, carries none. */
  lemma MessageOf(flags: nat, topic: seq<byte>, data: seq<byte>, f: Frame)
    requires flags < 16 && |topic| < 65536
    ensures Message(Frame(0x30 + flags, U16(|topic|) + topic + data)) == Some(data)
    ensures f.header < 0x30 || f.header > 0x3F ==> Message(f) == None
    ensures |f.body| < 2 ==> Message(f) == None
    ensures |f.body| >= 2 && |f.body| - 2 < 256 * (f.body[0] as int) + f.body[1] as int ==> Message(f) == None
  {
    var body := U16(|topic|) + topic + data;
    BigEndian(|topic|, 0, 0);
    assert FromU16(body[0], body[1]) == |topic|;
    assert body[2 + |topic|..] == data;
  }

  // ---- Parsing a stream ----------------------------------------------------------------------

  /** How many bytes the remaining-length loop takes from the stream, if the stream has them. */
  function LengthFieldSize(s: seq<byte>, limit: nat): Option<nat> {
    if limit == 0 then Some(0)
    else if s == [] then None
    else if s[0] < 128 then Some(1)
    else
      match LengthFieldSize(s[1..], limit - 1)
      case None => None
      case Some(k) => Some(k + 1)
  }

  datatype Parse = Incomplete | BadLength | Parsed(frame: Frame, rest: seq<byte>)

  /** The first frame of a stream. */
  function ParseFrame(s: seq<byte>): (p: Parse)
    ensures p.Parsed? ==> |p.rest| < |s|
  {
    if s == [] then Incomplete
    else
      match LengthFieldSize(s[1..], 4)
      case None => Incomplete
      case Some(k) =>
        FieldSize(s[1..], 4);
        match RL.Decode(s[1..1 + k])
        case None => BadLength
        case Some(d) =>
          if |s| < 1 + k + d.value then Incomplete
          else Parsed(Frame(s[0], s[1 + k..1 + k + d.value]), s[1 + k + d.value..])
  }

  lemma {:induction false} FieldSize(s: seq<byte>, limit: nat)
    ensures LengthFieldSize(s, limit).Some? ==>
              var k := LengthFieldSize(s, limit).value;
              && k <= |s|
              && RL.DecodeWithin(s[..k], limit) == RL.DecodeWithin(s, limit)
  {
    if limit > 0 && s != [] && s[0] >= 128 {
      FieldSize(s[1..], limit - 1);
      if LengthFieldSize(s, limit).Some? {
        var k := LengthFieldSize(s, limit).value;
        assert s[..k][1..] == s[1..][..k - 1];
      }
    }
  }

  lemma {:induction false} FieldSizeStable(s: seq<byte>, t: seq<byte>, limit: nat)
    requires LengthFieldSize(s, limit).Some?
    ensures LengthFieldSize(s + t, limit) == LengthFieldSize(s, limit)
  {
    if limit > 0 && s[0] >= 128 {
      FieldSizeStable(s[1..], t, limit - 1);
      assert (s + t)[1..] == s[1..] + t;
    }
  }

  lemma {:induction false} EncodedFieldSize(n: nat, rest: seq<byte>, limit: nat)
    ensures LengthFieldSize(RL.Encode(n) + rest, limit) == Some(Min(|RL.Encode(n)|, limit))
  {
    if limit > 0 && n >= 128 {
      EncodedFieldSize(n / 128, rest, limit - 1);
      assert (RL.Encode(n) + rest)[1..] == RL.Encode(n / 128) + rest;
    }
  }

  /** A frame followed by anything parses back to itself and leaves exactly what follows, if and only
      if its body fits the remaining length; a larger body is rejected as a bad length. */
  lemma FrameRoundTrip(f: Frame, rest: seq<byte>)
    ensures Sized(f) <==> ParseFrame(EncodeFrame(f) + rest) == Parsed(f, rest)
    ensures !Sized(f) <==> ParseFrame(EncodeFrame(f) + rest) == BadLength
  {
    var s := EncodeFrame(f) + rest;
    var n := |f.body|;
    var code := RL.Encode(n);
    assert s[1..] == code + (f.body + rest);
    EncodedFieldSize(n, f.body + rest, 4);
    RL.RoundTrip(n, f.body + rest);
    FieldSize(s[1..], 4);
    var k := Min(|code|, 4);
    SliceOfTail(s, 1, k);
    if Sized(f) {
      assert k == |code|;
      assert s[1 + k..] == f.body + rest;
      SliceOfTail(s, 1 + k, n);
      assert (f.body + rest)[..n] == f.body && (f.body + rest)[n..] == rest;
    }
  }

  /** Bytes that arrive later never change a frame already complete, nor heal a bad length. */
  lemma ParseStable(s: seq<byte>, t: seq<byte>)
    ensures ParseFrame(s).Parsed? ==> ParseFrame(s + t) == Parsed(ParseFrame(s).frame, ParseFrame(s).rest + t)
    ensures ParseFrame(s) == BadLength ==> ParseFrame(s + t) == BadLength
  {
    if s != [] && LengthFieldSize(s[1..], 4).Some? {
      assert (s + t)[1..] == s[1..] + t;
      FieldSizeStable(s[1..], t, 4);
      FieldSize(s[1..], 4);
      var k := LengthFieldSize(s[1..], 4).value;
      assert (s + t)[1..1 + k] == s[1..1 + k];
      var p := ParseFrame(s);
      if p.Parsed? {
        var n := |p.frame.body|;
        assert (s + t)[1 + k..1 + k + n] == s[1 + k..1 + k + n];
        assert (s + t)[1 + k + n..] == s[1 + k + n..] + t;
      }
    }
  }

  /** A packet cut short is never mistaken for a frame. */
  lemma TornFrame(f: Frame, sent: nat)
    requires sent < |EncodeFrame(f)|
    ensures !ParseFrame(EncodeFrame(f)[..sent]).Parsed?
  {
    var packet := EncodeFrame(f);
    assert packet[..sent] + packet[sent..] == packet + [];
    FrameRoundTrip(f, []);
    ParseStable(packet[..sent], packet[sent..]);
  }

  /** Every frame a stream holds up to the first place where parsing stops. */
  function Frames(s: seq<byte>): seq<Frame>
    decreases |s|
  {
    match ParseFrame(s)
    case Parsed(f, rest) => [f] + Frames(rest)
    case _ => []
  }

  /** What is left where parsing stops. */
  function Leftover(s: seq<byte>): seq<byte>
    decreases |s|
  {
    match ParseFrame(s)
    case Parsed(_, rest) => Leftover(rest)
    case _ => s
  }

  /** Parsing is one continuous parse: cutting the stream anywhere, parsing the first piece and
      carrying its leftover into the second gives the frames of the whole. */
  lemma {:induction false} ParseInPieces(s: seq<byte>, t: seq<byte>)
    ensures Frames(s + t) == Frames(s) + Frames(Leftover(s) + t)
    ensures Leftover(s + t) == Leftover(Leftover(s) + t)
    decreases |s|
  {
    match ParseFrame(s) {
      case Parsed(f, rest) =>
        ParseStable(s, t);
        ParseInPieces(rest, t);
      case _ =>
    }
  }

  lemma FrameFollowed(f: Frame, rest: seq<byte>)
    requires Sized(f)
    ensures Frames(EncodeFrame(f) + rest) == [f] + Frames(rest)
    ensures Leftover(EncodeFrame(f) + rest) == Leftover(rest)
  {
    FrameRoundTrip(f, rest);
  }

  lemma FrameFirst(fs: seq<Frame>, tail: seq<byte>)
    requires fs != [] && Sized(fs[0])
    ensures Frames(EncodeFrames(fs) + tail) == [fs[0]] + Frames(EncodeFrames(fs[1..]) + tail)
    ensures Leftover(EncodeFrames(fs) + tail) == Leftover(EncodeFrames(fs[1..]) + tail)
  {
    var rest := EncodeFrames(fs[1..]) + tail;
    assert EncodeFrames(fs) + tail == EncodeFrame(fs[0]) + rest;
    FrameFollowed(fs[0], rest);
  }

  /** Any list of frames, whatever their types and contents, is found again frame by frame: neither a
      skipped nor a malformed PUBLISH moves a later frame off its boundary. */
  lemma {:induction false} FramesRoundTrip(fs: seq<Frame>, tail: seq<byte>)
    requires AllSized(fs)
    ensures Frames(EncodeFrames(fs) + tail) == fs + Frames(tail)
    ensures Leftover(EncodeFrames(fs) + tail) == Leftover(tail)
  {
    if fs == [] {
      assert [] + tail == tail && fs + Frames(tail) == Frames(tail);
    } else {
      FramesRoundTrip(fs[1..], tail);
      assert Sized(fs[0]);
      FrameAhead(fs, tail);
    }
  }

  lemma FrameAhead(fs: seq<Frame>, tail: seq<byte>)
    requires fs != [] && Sized(fs[0])
    requires Frames(EncodeFrames(fs[1..]) + tail) == fs[1..] + Frames(tail)
    requires Leftover(EncodeFrames(fs[1..]) + tail) == Leftover(tail)
    ensures Frames(EncodeFrames(fs) + tail) == fs + Frames(tail)
    ensures Leftover(EncodeFrames(fs) + tail) == Leftover(tail)
  {
    FrameFirst(fs, tail);
    HeadFirst(fs, Frames(tail));
  }

  lemma {:induction false} EncodeFramesConcat(a: seq<Frame>, b: seq<Frame>)
    ensures EncodeFrames(a + b) == EncodeFrames(a) + EncodeFrames(b)
  {
    if a == [] {
      assert a + b == b;
    } else {
      EncodeFramesConcat(a[1..], b);
      assert (a + b)[0] == a[0] && (a + b)[1..] == a[1..] + b;
      Reassociate(EncodeFrame(a[0]), EncodeFrames(a[1..]), EncodeFrames(b));
    }
  }

  // ---- A relay of publications ---------------------------------------------------------------

  function Publications(topic: seq<byte>, writes: seq<seq<byte>>): seq<Frame> {
    if writes == [] then [] else [PublishFrame(topic, writes[0])] + Publications(topic, writes[1..])
  }

  /** What `write` must be given for its packet to be one the receiver can read back. */
  ghost predicate Publishable(topic: seq<byte>, data: seq<byte>) {
    data != [] && |topic| < 65536 && 2 + |topic| + |data| <= RL.MAX_LENGTH
  }

  ghost predicate AllPublishable(topic: seq<byte>, writes: seq<seq<byte>>) {
    forall i :: 0 <= i < |writes| ==> Publishable(topic, writes[i])
  }

  lemma {:induction false} PublicationsArrive(topic: seq<byte>, writes: seq<seq<byte>>)
    requires AllPublishable(topic, writes)
    ensures AllSized(Publications(topic, writes))
    ensures Payloads(Publications(topic, writes)) == writes
  {
    if writes != [] {
      assert Publishable(topic, writes[0]);
      OnePublication(topic, writes[0]);
      PublicationsArrive(topic, writes[1..]);
      var fs := Publications(topic, writes);
      assert fs[0] == PublishFrame(topic, writes[0]) && fs[1..] == Publications(topic, writes[1..]);
    }
  }

  lemma OnePublication(topic: seq<byte>, data: seq<byte>)
    requires Publishable(topic, data)
    ensures Sized(PublishFrame(topic, data)) && Payload(PublishFrame(topic, data)) == [data]
  {
    PublishedMessage(topic, data);
  }

  lemma {:induction false} PublicationsSnoc(topic: seq<byte>, writes: seq<seq<byte>>, data: seq<byte>)
    ensures Publications(topic, writes + [data]) == Publications(topic, writes) + [PublishFrame(topic, data)]
  {
    if writes == [] {
      assert writes + [data] == [data];
      assert [data][1..] == [];
    } else {
      PublicationsSnoc(topic, writes[1..], data);
      assert (writes + [data])[1..] == writes[1..] + [data];
    }
  }

  /** The writes of one side, published, relayed in order and cut anywhere, are the payloads the other
      side queues, whatever incomplete packet trails them. */
  lemma RelayedWrites(topic: seq<byte>, writes: seq<seq<byte>>, tail: seq<byte>)
    requires AllPublishable(topic, writes)
    requires !ParseFrame(tail).Parsed?
    ensures Payloads(Frames(EncodeFrames(Publications(topic, writes)) + tail)) == writes
  {
    PublicationsArrive(topic, writes);
    FramesRoundTrip(Publications(topic, writes), tail);
    assert Frames(tail) == [];
    assert Publications(topic, writes) + [] == Publications(topic, writes);
  }
}
