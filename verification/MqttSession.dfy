/** The packets of one MQTT client session in the order src/MQTT.cpp puts them on the wire. */
module MqttSession {
  import opened Bytes
  import RL = RemainingLength
  import opened MqttPackets

  /** A packet handed to `send_packet` on an open socket: taken whole, or only its first bytes. */
  datatype Piece = Whole(frame: Frame) | Torn(frame: Frame, sent: nat) {
    ghost predicate Proper() {
      Torn? ==> sent < |EncodeFrame(frame)|
    }

    ghost function Bytes(): seq<byte>
      requires Proper()
    {
      if Whole? then EncodeFrame(frame) else EncodeFrame(frame)[..sent]
    }
  }

  ghost predicate AllProper(log: seq<Piece>) {
    forall i {:trigger log[i].Proper()} :: 0 <= i < |log| ==> log[i].Proper()
  }

  /** The bytes on the wire after these packets. */
  ghost function Wire(log: seq<Piece>): seq<byte>
    requires AllProper(log)
  {
    if log == [] then [] else log[0].Bytes() + Wire(log[1..])
  }

  /** The packets that went out whole. */
  function WholeFrames(log: seq<Piece>): seq<Frame> {
    if log == [] then []
    else (if log[0].Whole? then [log[0].frame] else []) + WholeFrames(log[1..])
  }

  /** The PUBLISH packets that went out whole. */
  function WholePublishes(log: seq<Piece>): seq<Frame> {
    if log == [] then []
    else WholePublish(log[0]) + WholePublishes(log[1..])
  }

  function WholePublish(piece: Piece): seq<Frame> {
    if piece.Whole? && piece.frame.header == PUBLISH then [piece.frame] else []
  }

  lemma Append(log: seq<Piece>, piece: Piece)
    requires AllProper(log) && piece.Proper()
    ensures Wire(log + [piece]) == Wire(log) + piece.Bytes()
    ensures WholePublishes(log + [piece]) == WholePublishes(log) + WholePublish(piece)
  {
    AppendWire(log, piece);
    AppendPublish(log, piece);
  }

  lemma {:induction false} AppendWire(log: seq<Piece>, piece: Piece)
    requires AllProper(log) && piece.Proper()
    ensures Wire(log + [piece]) == Wire(log) + piece.Bytes()
  {
    if log == [] {
      assert log + [piece] == [piece];
      assert [piece][1..] == [];
    } else {
      AppendWire(log[1..], piece);
      assert (log + [piece])[1..] == log[1..] + [piece];
      Reassociate(log[0].Bytes(), Wire(log[1..]), piece.Bytes());
    }
  }

  lemma {:induction false} AppendPublish(log: seq<Piece>, piece: Piece)
    ensures WholePublishes(log + [piece]) == WholePublishes(log) + WholePublish(piece)
  {
    if log == [] {
      assert log + [piece] == [piece];
      assert [piece][1..] == [];
    } else {
      AppendPublish(log[1..], piece);
      assert (log + [piece])[1..] == log[1..] + [piece];
      Reassociate(WholePublish(log[0]), WholePublishes(log[1..]), WholePublish(piece));
    }
  }

  /** The packets a client sends. */
  predicate FromClient(f: Frame) {
    f.header == CONNECT || f.header == SUBSCRIBE || f.header == PUBLISH || f.header == DISCONNECT
  }

  /** A session as sections 3.1, 3.3, 3.8 and 3.14 of MQTT 3.1.1 order it: CONNECT first and only
      first, at most one SUBSCRIBE right behind it, then PUBLISH packets, and DISCONNECT, if at all,
      last. Only the last packet may be torn. */
  ghost predicate SessionGrammar(log: seq<Piece>) {
    forall i :: 0 <= i < |log| ==>
      && FromClient(log[i].frame)
      && (log[i].frame.header == CONNECT <==> i == 0)
      && (log[i].frame.header == SUBSCRIBE ==> i == 1)
      && (log[i].frame.header == DISCONNECT ==> i == |log| - 1)
      && (log[i].Torn? ==> i == |log| - 1)
  }

  /** A session that is up may be extended by a PUBLISH or closed by a DISCONNECT, whole or torn. */
  lemma Extend(log: seq<Piece>, piece: Piece)
    requires SessionGrammar(log) && log != []
    requires log[|log| - 1].Whole? && log[|log| - 1].frame.header != DISCONNECT
    requires piece.frame.header == PUBLISH || piece.frame.header == DISCONNECT
             || (piece.frame.header == SUBSCRIBE && |log| == 1)
    ensures SessionGrammar(log + [piece])
  {
    var longer := log + [piece];
    forall i | 0 <= i < |longer|
      ensures FromClient(longer[i].frame)
      ensures longer[i].frame.header == CONNECT <==> i == 0
      ensures longer[i].frame.header == SUBSCRIBE ==> i == 1
      ensures longer[i].frame.header == DISCONNECT ==> i == |longer| - 1
      ensures longer[i].Torn? ==> i == |longer| - 1
    {
      if i < |log| {
        assert longer[i] == log[i];
      }
    }
  }

  /** The frames after the handshake's first reply. */
  function Later(fs: seq<Frame>): seq<Frame> {
    if fs == [] then [] else fs[1..]
  }

  /** The reply that lets a client go on: section 3.2 of MQTT 3.1.1 with return code 0. */
  predicate Accepted(f: Frame) {
    f.header == CONNACK && |f.body| == 2 && f.body[1] == 0
  }

  /** Section 3.2: packet type and flags 0x20, two bytes, of which the second, the return code, is zero; the
      first, the session-present flag, may be anything. */
  lemma ConnackMeans(header: byte, flag: byte, code: byte, body: seq<byte>)
    ensures Accepted(Frame(0x20, [flag, code])) <==> code == 0
    ensures header != 0x20 || |body| != 2 ==> !Accepted(Frame(header, body))
  {
  }

  /** A stream that begins with such a reply. */
  predicate Welcoming(stream: seq<byte>) {
    ParseFrame(stream).Parsed? && Accepted(ParseFrame(stream).frame)
  }

  /** What a client's packets are built from. */
  datatype Profile = Profile(clientId: seq<byte>, keepAlive: int, txTopic: seq<byte>, rxTopic: seq<byte>)

  /** The packets other than PUBLISH are this client's, and SUBSCRIBE is sent if there is a topic to
      subscribe to. */
  ghost predicate PacketsOf(log: seq<Piece>, who: Profile) {
    forall i :: 0 <= i < |log| ==>
      && (log[i].frame.header == CONNECT ==> log[i].frame == ConnectFrame(who.clientId, who.keepAlive))
      && (log[i].frame.header == SUBSCRIBE ==> log[i].frame == SubscribeFrame(who.rxTopic))
      && (log[i].frame.header == DISCONNECT ==> log[i].frame == DISCONNECT_FRAME)
      && (i == 1 ==> (log[i].frame.header == SUBSCRIBE <==> who.rxTopic != []))
  }

  /** The state of the sending side: the wire is exactly the session so far, SUBSCRIBE and PUBLISH came
      only after an accepted CONNACK, and the successful writes are exactly the whole PUBLISH packets. */
  ghost predicate Session(outbound: seq<byte>, log: seq<Piece>, accepted: bool, who: Profile, written: seq<seq<byte>>) {
    && AllProper(log)
    && outbound == Wire(log)
    && SessionGrammar(log) && PacketsOf(log, who)
    && (|log| > 1 ==> accepted)
    && WholePublishes(log) == Publications(who.txTopic, written)
    && NoneEmpty(written)
  }

  /** The same, kept folded: its parts come to light only where `Looking` is mentioned, which spares the
      proofs that merely pass it on. */
  ghost predicate Sent(outbound: seq<byte>, log: seq<Piece>, accepted: bool, who: Profile, written: seq<seq<byte>>) {
    forall k: int {:trigger Looking(k)} :: Looking(k) ==> Session(outbound, log, accepted, who, written)
  }

  predicate Looking(k: int) {
    true
  }

  predicate NoneEmpty(written: seq<seq<byte>>) {
    forall i :: 0 <= i < |written| ==> written[i] != []
  }

  /** What `Sent` says. */
  lemma SentMeans(outbound: seq<byte>, log: seq<Piece>, accepted: bool, who: Profile, written: seq<seq<byte>>)
    ensures Sent(outbound, log, accepted, who, written) <==> Session(outbound, log, accepted, who, written)
  {
    assert Looking(0);
  }

  lemma SentFirst(piece: Piece, who: Profile)
    requires piece.Proper() && piece.frame == ConnectFrame(who.clientId, who.keepAlive)
    ensures Sent(piece.Bytes(), [piece], false, who, [])
  {
    assert Looking(0);
    Append([], piece);
    assert [] + [piece] == [piece];
    assert Wire([]) + piece.Bytes() == piece.Bytes();
  }

  lemma SentAccepted(outbound: seq<byte>, log: seq<Piece>, accepted: bool, who: Profile, written: seq<seq<byte>>)
    requires Sent(outbound, log, accepted, who, written)
    ensures Sent(outbound, log, true, who, written)
  {
    assert Looking(0);
  }

  /** The session is past its handshake: nothing is torn or over, and SUBSCRIBE is out if it is wanted. */
  predicate Established(log: seq<Piece>, who: Profile) {
    && log != [] && log[|log| - 1].Whole? && log[|log| - 1].frame.header != DISCONNECT
    && (who.rxTopic == [] || |log| >= 2)
  }

  lemma PacketsMore(log: seq<Piece>, piece: Piece, who: Profile)
    requires SessionGrammar(log) && PacketsOf(log, who) && log != []
    requires PacketsOf([piece], who) && (|log| == 1 ==> (piece.frame.header == SUBSCRIBE <==> who.rxTopic != []))
    ensures PacketsOf(log + [piece], who)
  {
    var longer := log + [piece];
    forall i | 0 <= i < |longer|
      ensures longer[i] == if i < |log| then log[i] else [piece][0]
    {
    }
  }

  lemma SentSubscribe(outbound: seq<byte>, log: seq<Piece>, accepted: bool, who: Profile, written: seq<seq<byte>>,
                      piece: Piece, outbound': seq<byte>, log': seq<Piece>)
    requires Sent(outbound, log, accepted, who, written)
    requires |log| == 1 && log[0].Whole? && log[0].frame.header != DISCONNECT && who.rxTopic != []
    requires accepted && piece.Proper() && piece.frame == SubscribeFrame(who.rxTopic)
    requires outbound' == outbound + piece.Bytes() && log' == log + [piece]
    ensures Sent(outbound', log', accepted, who, written)
  {
    assert Looking(0);
    Append(log, piece);
    Extend(log, piece);
    PacketsMore(log, piece, who);
  }

  lemma SentDisconnect(outbound: seq<byte>, log: seq<Piece>, accepted: bool, who: Profile, written: seq<seq<byte>>,
                       piece: Piece, outbound': seq<byte>, log': seq<Piece>)
    requires Sent(outbound, log, accepted, who, written) && Established(log, who)
    requires accepted && piece.Proper() && piece.frame == DISCONNECT_FRAME
    requires outbound' == outbound + piece.Bytes() && log' == log + [piece]
    ensures Sent(outbound', log', accepted, who, written)
  {
    assert Looking(0);
    Append(log, piece);
    Extend(log, piece);
    PacketsMore(log, piece, who);
  }

  lemma SentPublish(outbound: seq<byte>, log: seq<Piece>, accepted: bool, who: Profile, written: seq<seq<byte>>,
                    piece: Piece, data: seq<byte>, outbound': seq<byte>, log': seq<Piece>, written': seq<seq<byte>>)
    requires Sent(outbound, log, accepted, who, written) && Established(log, who)
    requires accepted && piece.Proper()
    requires piece.frame == PublishFrame(who.txTopic, data) && data != []
    requires outbound' == outbound + piece.Bytes() && log' == log + [piece]
    requires written' == if piece.Whole? then written + [data] else written
    ensures Sent(outbound', log', accepted, who, written')
    ensures piece.Whole? ==> outbound' == outbound + EncodeFrame(PublishFrame(who.txTopic, data))
  {
    assert Looking(0);
    assert piece.frame.header == PUBLISH;
    OnePublished(log, piece, who.txTopic, written, data);
    Published(outbound, log, accepted, who, written, piece, written');
  }

  lemma Published(outbound: seq<byte>, log: seq<Piece>, accepted: bool, who: Profile, written: seq<seq<byte>>,
                  piece: Piece, written': seq<seq<byte>>)
    requires Session(outbound, log, accepted, who, written) && Established(log, who)
    requires accepted && piece.Proper() && piece.frame.header == PUBLISH
    requires WholePublishes(log + [piece]) == Publications(who.txTopic, written') && NoneEmpty(written')
    ensures Session(outbound + piece.Bytes(), log + [piece], accepted, who, written')
  {
    AppendWire(log, piece);
    Extend(log, piece);
    PacketsMore(log, piece, who);
  }

  lemma OnePublished(log: seq<Piece>, piece: Piece, topic: seq<byte>, written: seq<seq<byte>>, data: seq<byte>)
    requires WholePublishes(log) == Publications(topic, written) && piece.frame == PublishFrame(topic, data)
    ensures WholePublishes(log + [piece]) == Publications(topic, if piece.Whole? then written + [data] else written)
  {
    AppendPublish(log, piece);
    PublicationsSnoc(topic, written, data);
  }

  ghost predicate OnlyLastTorn(log: seq<Piece>) {
    forall i :: 0 <= i < |log| && log[i].Torn? ==> i == |log| - 1
  }

  ghost predicate AllFromClient(log: seq<Piece>) {
    forall i :: 0 <= i < |log| ==> FromClient(log[i].frame)
  }

  ghost predicate WholesSized(log: seq<Piece>) {
    forall i :: 0 <= i < |log| && log[i].Whole? ==> Sized(log[i].frame)
  }

  /** The frames a peer gets to see: it stops at a torn packet and at one too large for its length field. */
  ghost function Readable(log: seq<Piece>): seq<Frame> {
    if log == [] || log[0].Torn? || !Sized(log[0].frame) then [] else [log[0].frame] + Readable(log[1..])
  }

  lemma {:induction false} WireReads(log: seq<Piece>)
    requires AllProper(log) && OnlyLastTorn(log)
    ensures Frames(Wire(log)) == Readable(log)
  {
    if log != [] {
      assert log[0].Proper();
      if log[0].Torn? {
        assert 0 == |log| - 1;
        TornFrame(log[0].frame, log[0].sent);
        assert Wire(log) == log[0].Bytes() + [];
        assert log[0].Bytes() + [] == log[0].Bytes();
      } else {
        FrameRoundTrip(log[0].frame, Wire(log[1..]));
        if Sized(log[0].frame) {
          RestOf(log);
          WireReads(log[1..]);
        }
      }
    }
  }

  lemma RestOf(log: seq<Piece>)
    requires log != []
    ensures AllProper(log) ==> AllProper(log[1..])
    ensures OnlyLastTorn(log) ==> OnlyLastTorn(log[1..])
    ensures AllFromClient(log) ==> AllFromClient(log[1..])
    ensures WholesSized(log) ==> WholesSized(log[1..])
  {
    forall i | 0 <= i < |log[1..]|
      ensures log[1..][i] == log[i + 1]
    {
    }
    if AllProper(log) {
      forall i | 0 <= i < |log[1..]|
        ensures log[1..][i].Proper()
      {
        assert log[i + 1].Proper();
      }
    }
  }

  lemma HeardRest(log: seq<Piece>)
    requires log != [] && Sized(log[0].frame)
    ensures AllHeard(log) <==> AllHeard(log[1..])
  {
    var rest := log[1..];
    if AllHeard(log) {
      forall i, j | 0 <= i <= j < |rest| && WholePublish(rest[j]) != []
        ensures Sized(rest[i].frame)
      {
        assert rest[j] == log[j + 1] && rest[i] == log[i + 1];
      }
    }
    if AllHeard(rest) {
      forall i, j | 0 <= i <= j < |log| && WholePublish(log[j]) != []
        ensures Sized(log[i].frame)
      {
        if i > 0 {
          assert rest[j - 1] == log[j] && rest[i - 1] == log[i];
        }
      }
    }
  }

  /** A peer that parses the wire finds exactly the packets sent whole, in order, as long as each fits its
      length field; the torn end, if there is one, yields no packet. */
  lemma {:induction false} WireParses(log: seq<Piece>)
    requires AllProper(log) && OnlyLastTorn(log) && WholesSized(log)
    ensures Frames(Wire(log)) == WholeFrames(log)
  {
    WireReads(log);
    AllReadable(log);
  }

  lemma {:induction false} AllReadable(log: seq<Piece>)
    requires OnlyLastTorn(log) && WholesSized(log)
    ensures Readable(log) == WholeFrames(log)
  {
    if log != [] {
      RestOf(log);
      AllReadable(log[1..]);
      if log[0].Torn? {
        assert 0 == |log| - 1;
      }
    }
  }

  lemma {:induction false} WholeIsPublished(log: seq<Piece>, i: nat)
    requires i < |log| && log[i].Whole? && log[i].frame.header == PUBLISH
    ensures log[i].frame in WholePublishes(log)
  {
    if i > 0 {
      WholeIsPublished(log[1..], i - 1);
    }
  }

  function Publishes(fs: seq<Frame>): seq<Frame> {
    if fs == [] then [] else (if fs[0].header == PUBLISH then [fs[0]] else []) + Publishes(fs[1..])
  }

  /** Only PUBLISH packets carry messages. */
  lemma {:induction false} MessagesOnWire(log: seq<Piece>)
    requires AllFromClient(log)
    ensures Payloads(Readable(log)) == Payloads(Publishes(Readable(log)))
  {
    if log != [] && log[0].Whole? && Sized(log[0].frame) {
      var fs := Readable(log);
      RestOf(log);
      MessagesOnWire(log[1..]);
      assert fs[1..] == Readable(log[1..]);
      if fs[0].header == PUBLISH {
        assert Publishes(fs)[1..] == Publishes(fs[1..]);
      } else {
        assert Message(fs[0]) == None;
        assert Publishes(fs) == Publishes(fs[1..]);
      }
    }
  }

  /** No packet up to the last whole PUBLISH is too large for its length field. */
  ghost predicate AllHeard(log: seq<Piece>) {
    forall i, j :: 0 <= i <= j < |log| && WholePublish(log[j]) != [] ==> Sized(log[i].frame)
  }

  /** What of the publications is readable is the first of them, and all of them exactly if `AllHeard`. */
  lemma {:induction false} ReadablePublishes(log: seq<Piece>)
    requires OnlyLastTorn(log)
    ensures Publishes(Readable(log)) <= WholePublishes(log)
    ensures |Publishes(Readable(log))| == |WholePublishes(log)| <==> AllHeard(log)
  {
    if log != [] {
      if log[0].Whole? && Sized(log[0].frame) {
        RestOf(log);
        HeardRest(log);
        ReadablePublishes(log[1..]);
        assert Readable(log)[1..] == Readable(log[1..]);
        PrefixBehind(WholePublish(log[0]), Publishes(Readable(log[1..])), WholePublishes(log[1..]));
      } else {
        Unreadable(log);
      }
    }
  }

  lemma PrefixBehind(first: seq<Frame>, a: seq<Frame>, b: seq<Frame>)
    requires a <= b
    ensures first + a <= first + b
  {
  }

  lemma Unreadable(log: seq<Piece>)
    requires OnlyLastTorn(log) && log != [] && (log[0].Torn? || !Sized(log[0].frame))
    ensures Readable(log) == []
    ensures WholePublishes(log) == [] <==> AllHeard(log)
  {
    if j :| 0 <= j < |log| && WholePublish(log[j]) != [] {
      WholeIsPublished(log, j);
      assert log[0].Whole?;
    } else {
      NothingPublished(log);
    }
  }

  lemma {:induction false} NothingPublished(log: seq<Piece>)
    requires forall j :: 0 <= j < |log| ==> WholePublish(log[j]) == []
    ensures WholePublishes(log) == []
  {
    if log != [] {
      NothingPublished(log[1..]);
    }
  }

  /** The messages a reader takes out of the publications of these writes: each behind what the topic's
      length prefix leaves out of the topic. */
  function Spilled(topic: seq<byte>, writes: seq<seq<byte>>): seq<seq<byte>> {
    seq(|writes|, i requires 0 <= i < |writes| => topic[|topic| % 65536..] + writes[i])
  }

  lemma {:induction false} PublicationsSpill(topic: seq<byte>, writes: seq<seq<byte>>)
    requires NoneEmpty(writes)
    ensures |Publications(topic, writes)| == |writes|
    ensures Payloads(Publications(topic, writes)) == Spilled(topic, writes)
  {
    if writes != [] {
      PublishedMessage(topic, writes[0]);
      PublicationsSpill(topic, writes[1..]);
      var first := topic[|topic| % 65536..] + writes[0];
      assert |first| > 0;
      assert Payload(PublishFrame(topic, writes[0])) == [first];
      assert Spilled(topic, writes) == [first] + Spilled(topic, writes[1..]);
    }
  }

  lemma {:induction false} PublicationsPrefix(topic: seq<byte>, writes: seq<seq<byte>>, n: nat)
    requires n <= |writes|
    ensures |Publications(topic, writes)| == |writes|
    ensures Publications(topic, writes)[..n] == Publications(topic, writes[..n])
  {
    if writes != [] {
      PublicationsPrefix(topic, writes[1..], if n == 0 then 0 else n - 1);
      if n > 0 {
        assert writes[..n][1..] == writes[1..][..n - 1];
      }
    }
  }

  lemma SpilledIsWritten(topic: seq<byte>, written: seq<seq<byte>>, n: nat)
    requires n <= |written|
    ensures Spilled(topic, written[..n]) == written <==> n == |written| && (written == [] || |topic| < 65536)
  {
    var spilled := Spilled(topic, written[..n]);
    assert |spilled| == n;
    if n == |written| && written != [] {
      if |topic| < 65536 {
        assert topic[|topic| % 65536..] == [];
        assert forall i :: 0 <= i < n ==> spilled[i] == written[i];
      } else {
        assert |spilled[0]| > |written[0]|;
      }
    }
  }

  lemma FirstPublications(topic: seq<byte>, written: seq<seq<byte>>, fs: seq<Frame>)
    requires NoneEmpty(written) && fs <= Publications(topic, written)
    ensures |Publications(topic, written)| == |written|
    ensures Payloads(fs) == Spilled(topic, written[..|fs|])
  {
    PublicationsSpill(topic, written);
    PublicationsPrefix(topic, written, |fs|);
    assert fs == Publications(topic, written)[..|fs|];
    PublicationsSpill(topic, written[..|fs|]);
  }

  lemma GrammarMeans(log: seq<Piece>)
    requires SessionGrammar(log)
    ensures OnlyLastTorn(log) && AllFromClient(log)
  {
  }

  /** Every PUBLISH among these frames is addressed to this topic. */
  ghost predicate Addressed(fs: seq<Frame>, topic: seq<byte>) {
    forall i :: 0 <= i < |fs| && fs[i].header == 0x30 ==>
      ReadString(fs[i].body).Some? && ReadString(fs[i].body).value.value == topic
  }

  lemma {:induction false} AmongPublishes(fs: seq<Frame>, i: nat)
    requires i < |fs| && fs[i].header == PUBLISH
    ensures fs[i] in Publishes(fs)
  {
    if i > 0 {
      AmongPublishes(fs[1..], i - 1);
    }
  }

  lemma {:induction false} PublicationAt(topic: seq<byte>, written: seq<seq<byte>>, k: nat)
    requires k < |Publications(topic, written)|
    ensures k < |written| && Publications(topic, written)[k] == PublishFrame(topic, written[k])
  {
    if k > 0 {
      PublicationAt(topic, written[1..], k - 1);
    }
  }

  lemma ReadableAddressed(fs: seq<Frame>, topic: seq<byte>, written: seq<seq<byte>>)
    requires Publishes(fs) <= Publications(topic, written) && |topic| < 65536
    ensures Addressed(fs, topic)
  {
    forall i | 0 <= i < |fs| && fs[i].header == 0x30
      ensures ReadString(fs[i].body).Some? && ReadString(fs[i].body).value.value == topic
    {
      AmongPublishes(fs, i);
      var k :| 0 <= k < |Publishes(fs)| && Publishes(fs)[k] == fs[i];
      PublicationAt(topic, written, k);
      PublishFields(topic, written[k]);
    }
  }

  /** The packets of the handshake fit their length fields. */
  predicate Intelligible(who: Profile) {
    && |ConnectFrame(who.clientId, who.keepAlive).body| <= RL.MAX_LENGTH
    && (who.rxTopic != [] ==> |SubscribeFrame(who.rxTopic).body| <= RL.MAX_LENGTH)
  }

  predicate TooLarge(topic: seq<byte>, data: seq<byte>) {
    2 + |topic| + |data| > RL.MAX_LENGTH
  }

  /** How many writes come before the first that is too large. */
  function BeforeTooLarge(topic: seq<byte>, written: seq<seq<byte>>): (n: nat)
    ensures n <= |written|
  {
    if written == [] || TooLarge(topic, written[0]) then 0 else 1 + BeforeTooLarge(topic, written[1..])
  }

  /** How many of a client's writes a peer gets to see. */
  function Heard(who: Profile, written: seq<seq<byte>>): (n: nat)
    ensures n <= |written|
  {
    if Intelligible(who) then BeforeTooLarge(who.txTopic, written) else 0
  }

  /** What it takes for a peer to see all of them, and unchanged. */
  predicate Fits(who: Profile, written: seq<seq<byte>>) {
    written == [] || (Intelligible(who) && |who.txTopic| < 65536 && NoneTooLarge(who.txTopic, written))
  }

  predicate NoneTooLarge(topic: seq<byte>, written: seq<seq<byte>>) {
    forall i :: 0 <= i < |written| ==> !TooLarge(topic, written[i])
  }

  lemma {:induction false} NoneBeforeTooLarge(topic: seq<byte>, written: seq<seq<byte>>)
    ensures BeforeTooLarge(topic, written) == |written| <==> NoneTooLarge(topic, written)
  {
    if written != [] {
      NoneBeforeTooLarge(topic, written[1..]);
      if NoneTooLarge(topic, written[1..]) && !TooLarge(topic, written[0]) {
        forall i | 0 <= i < |written|
          ensures !TooLarge(topic, written[i])
        {
          assert i > 0 ==> written[i] == written[1..][i - 1];
        }
      }
      if NoneTooLarge(topic, written) {
        assert !TooLarge(topic, written[0]);
      }
    }
  }

  /** The part of a session behind its handshake. */
  ghost predicate OnlyPublishes(log: seq<Piece>) {
    forall i :: 0 <= i < |log| ==>
      log[i].frame.header == PUBLISH || (log[i].frame == DISCONNECT_FRAME && i == |log| - 1)
  }

  lemma {:induction false} PublishesHeard(log: seq<Piece>, topic: seq<byte>, written: seq<seq<byte>>)
    requires OnlyLastTorn(log) && OnlyPublishes(log) && WholePublishes(log) == Publications(topic, written)
    ensures |Publishes(Readable(log))| == BeforeTooLarge(topic, written)
  {
    if log != [] && log[0].Whole? && log[0].frame.header == PUBLISH {
      FirstPublication(log, topic, written);
      if Sized(log[0].frame) {
        RestOf(log);
        assert OnlyPublishes(log[1..]) by {
          forall i | 0 <= i < |log[1..]|
            ensures log[1..][i] == log[i + 1]
          {
          }
        }
        PublishesHeard(log[1..], topic, written[1..]);
        assert Readable(log)[1..] == Readable(log[1..]);
      }
    } else {
      assert |log| <= 1;
      assert log != [] ==> log[1..] == [];
      assert WholePublishes(log) == [];
    }
  }

  lemma FirstPublication(log: seq<Piece>, topic: seq<byte>, written: seq<seq<byte>>)
    requires log != [] && WholePublish(log[0]) != [] && WholePublishes(log) == Publications(topic, written)
    ensures written != [] && log[0].frame == PublishFrame(topic, written[0])
    ensures WholePublishes(log[1..]) == Publications(topic, written[1..])
    ensures Sized(log[0].frame) <==> !TooLarge(topic, written[0])
  {
    var fs := WholePublishes(log);
    assert fs[0] == log[0].frame && fs[1..] == WholePublishes(log[1..]);
    assert Publications(topic, written)[1..] == Publications(topic, written[1..]);
  }

  /** A leading packet that is no PUBLISH. */
  lemma PastHandshakePacket(log: seq<Piece>)
    requires log != [] && log[0].frame.header != PUBLISH
    ensures WholePublishes(log) == WholePublishes(log[1..])
    ensures log[0].Whole? && Sized(log[0].frame) ==>
              |Publishes(Readable(log))| == |Publishes(Readable(log[1..]))|
    ensures log[0].Torn? || !Sized(log[0].frame) ==> Readable(log) == []
  {
    if log[0].Whole? && Sized(log[0].frame) {
      assert Readable(log)[1..] == Readable(log[1..]);
    }
  }

  lemma BehindHandshake(log: seq<Piece>, who: Profile, n: nat)
    requires SessionGrammar(log) && PacketsOf(log, who)
    requires n <= |log| && n >= if who.rxTopic == [] then 1 else 2
    ensures OnlyPublishes(log[n..]) && OnlyLastTorn(log[n..])
  {
    forall i | 0 <= i < |log[n..]|
      ensures log[n..][i] == log[n + i]
    {
    }
  }

  /** How much of a session is heard, from what it was given. */
  lemma SessionReadable(log: seq<Piece>, who: Profile, written: seq<seq<byte>>)
    requires SessionGrammar(log) && PacketsOf(log, who) && WholePublishes(log) == Publications(who.txTopic, written)
    ensures |Publishes(Readable(log))| == Heard(who, written)
  {
    if log == [] {
      assert written == [];
    } else {
      PastHandshakePacket(log);
      var rest := log[1..];
      if rest == [] {
        assert written == [];
      } else if log[0].Whole? && Sized(log[0].frame) {
        if who.rxTopic == [] {
          BehindHandshake(log, who, 1);
          PublishesHeard(rest, who.txTopic, written);
        } else {
          assert rest[0] == log[1] && rest[0].frame.header == SUBSCRIBE;
          PastHandshakePacket(rest);
          BehindHandshake(log, who, 2);
          assert rest[1..] == log[2..];
          PublishesHeard(rest[1..], who.txTopic, written);
          assert rest[0].Torn? ==> rest[1..] == [];
        }
      } else {
        assert log[0].Torn? ==> rest == [];
      }
    }
  }

  /** Sizes: a CONNECT has twelve bytes besides its identifier, a SUBSCRIBE five besides its filter. */
  lemma OrdinaryFits(who: Profile, written: seq<seq<byte>>)
    requires AllPublishable(who.txTopic, written)
    requires |who.clientId| <= RL.MAX_LENGTH - 12 && |who.rxTopic| <= RL.MAX_LENGTH - 5
    ensures Fits(who, written)
  {
    forall i | 0 <= i < |written|
      ensures !TooLarge(who.txTopic, written[i])
    {
      assert Publishable(who.txTopic, written[i]);
    }
    assert written != [] ==> Publishable(who.txTopic, written[0]);
  }

  /** What a peer hears of a session: the writes before the first packet too large for its length field,
      each behind what the topic's length prefix leaves out; and all of them unchanged exactly if they, the
      topic and the packets of the handshake fit. */
  lemma SessionHeard(outbound: seq<byte>, log: seq<Piece>, accepted: bool, who: Profile, written: seq<seq<byte>>)
    requires Session(outbound, log, accepted, who, written)
    ensures Payloads(Frames(outbound)) == Spilled(who.txTopic, written[..Heard(who, written)])
    ensures Heard(who, written) == |written| <==> AllHeard(log)
    ensures Payloads(Frames(outbound)) == written <==> Fits(who, written)
    ensures |who.txTopic| < 65536 ==> Addressed(Frames(outbound), who.txTopic)
  {
    GrammarMeans(log);
    WireReads(log);
    MessagesOnWire(log);
    ReadablePublishes(log);
    var fs := Publishes(Readable(log));
    FirstPublications(who.txTopic, written, fs);
    SessionReadable(log, who, written);
    SpilledIsWritten(who.txTopic, written, |fs|);
    if |who.txTopic| < 65536 {
      ReadableAddressed(Readable(log), who.txTopic, written);
    }
    NoneBeforeTooLarge(who.txTopic, written);
  }

  /** Taking one more frame keeps the frames taken and the frames to come adding up to the stream. */
  lemma OneMore(stream: seq<byte>, received: seq<Frame>, before: seq<byte>, frame: Frame, after: seq<byte>)
    requires received != [] && Frames(stream) == received + Frames(before)
    requires ParseFrame(before) == Parsed(frame, after)
    ensures Frames(stream) == received + [frame] + Frames(after)
    ensures received + [frame] <= Frames(stream)
    ensures Payloads(Later(received + [frame])) == Payloads(Later(received)) + Payload(frame)
  {
    assert Frames(before) == [frame] + Frames(after);
    Regroup(received, frame, Frames(after));
    LaterSnoc(received, frame);
    PayloadsSnoc(Later(received), frame);
  }

  /** New payloads go behind what is queued. */
  lemma StillQueued(queued: seq<seq<byte>>, taken: seq<byte>, queue: seq<byte>, payload: seq<seq<byte>>)
    requires Flatten(queued) == taken + queue
    ensures Flatten(queued + payload) == taken + (queue + Flatten(payload))
  {
    FlattenConcat(queued, payload);
    Reassociate(taken, queue, Flatten(payload));
  }

  lemma FirstFrame(stream: seq<byte>, received: seq<Frame>, rest: seq<byte>)
    requires |received| == 1 && ParseFrame(stream) == Parsed(received[0], rest)
    ensures Frames(stream) == received + Frames(rest) && received <= Frames(stream)
    ensures Payloads(Later(received)) == []
  {
    assert received == [received[0]];
  }

  lemma LaterSnoc(fs: seq<Frame>, f: Frame)
    requires fs != []
    ensures Later(fs + [f]) == Later(fs) + [f]
  {
  }

  /** Receiving fewer frames queues a prefix of the payloads. */
  lemma PrefixPayloads(some: seq<Frame>, all: seq<Frame>)
    requires some <= all
    ensures Payloads(Later(some)) <= Payloads(Later(all))
    ensures Flatten(Payloads(Later(some))) <= Flatten(Payloads(Later(all)))
  {
    var rest := if some == [] then Later(all) else all[|some|..];
    assert Later(all) == Later(some) + rest;
    PayloadsConcat(Later(some), rest);
    FlattenConcat(Payloads(Later(some)), Payloads(rest));
  }
}
