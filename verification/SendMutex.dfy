/** Concurrent calls of `write` on one MQTT transport (src/MQTT.cpp): the check of the connected flag
    outside the lock, the send mutex, and the loop over partial sends. A schedule picks who moves and
    how much each send takes. */
module SendMutex {
  import opened Bytes
  import RL = RemainingLength
  import Runs
  import opened MqttPackets
  import opened MqttSession

  type Tid = nat

  datatype Pc =
    | Outside                    // between calls
    | Contending                 // passed the flag check, wants the mutex
    | Sending(offset: nat)       // holds the mutex

  /** A thread that publishes these frames one after the other; `results` are the calls' outcomes. */
  datatype Caller = Caller(frames: seq<Frame>, results: seq<bool>, pc: Pc)

  /** A finished call: refused by the flag, or what went on the wire for it. */
  datatype Call = Refused(tid: Tid, frame: Frame) | Attempt(tid: Tid, piece: Piece)

  datatype State = State(
    callers: map<Tid, Caller>,
    mutex: Option<Tid>,
    wire: seq<byte>,
    connected: bool,
    log: seq<Call>)

  /** `Take(t, n)` is a send that accepts n bytes, `Fail(t)` one that fails, `Drop` the receiver thread
      lowering the flag. */
  datatype Step = Call(t: Tid) | Lock(t: Tid) | Take(t: Tid, n: nat) | Fail(t: Tid) | Unlock(t: Tid) | Drop

  function Current(c: Caller): Frame
    requires |c.results| < |c.frames|
  {
    c.frames[|c.results|]
  }

  function Return(s: State, t: Tid, c: Caller, ok: bool): State {
    s.(callers := s.callers[t := c.(results := c.results + [ok], pc := Outside)])
  }

  predicate Enabled(s: State, step: Step) {
    match step
    case Drop => true
    case _ =>
      && step.t in s.callers
      && var c := s.callers[step.t];
         && |c.results| < |c.frames|
         && match step
            case Call(_) => c.pc.Outside?
            case Lock(_) => c.pc.Contending? && s.mutex == None
            case Take(_, n) => c.pc.Sending? && n > 0 && c.pc.offset + n <= |EncodeFrame(Current(c))|
            case Fail(_) => c.pc.Sending? && c.pc.offset < |EncodeFrame(Current(c))|
            case Unlock(_) => c.pc.Sending? && c.pc.offset == |EncodeFrame(Current(c))|
            case Drop => true
  }

  function Move(s: State, step: Step): State
    requires Enabled(s, step)
  {
    if step.Drop? then s.(connected := false)
    else
      var c := s.callers[step.t];
      var frame := Current(c);
      match step
      case Call(t) =>
        if s.connected then s.(callers := s.callers[t := c.(pc := Contending)])
        else Return(s, t, c, false).(log := s.log + [Refused(t, frame)])
      case Lock(t) => s.(callers := s.callers[t := c.(pc := Sending(0))], mutex := Some(t))
      case Take(t, n) =>
        s.(callers := s.callers[t := c.(pc := Sending(c.pc.offset + n))],
           wire := s.wire + EncodeFrame(frame)[c.pc.offset..c.pc.offset + n])
      case Fail(t) =>
        Return(s, t, c, false).(mutex := None, connected := false,
                                log := s.log + [Attempt(t, Torn(frame, c.pc.offset))])
      case Unlock(t) =>
        Return(s, t, c, true).(mutex := None, log := s.log + [Attempt(t, Whole(frame))])
  }

  /** A step that is not enabled leaves the state alone. */
  function Apply(s: State, step: Step): State {
    if Enabled(s, step) then Move(s, step) else s
  }

  function Run(s: State, schedule: seq<Step>): State {
    Runs.Run(Apply, s, schedule)
  }

  ghost predicate Init(s: State) {
    && s.mutex == None && s.wire == [] && s.log == []
    && forall t :: t in s.callers ==> s.callers[t].results == [] && s.callers[t].pc == Outside
  }

  // ---- What every step keeps -----------------------------------------------------------------

  /** The packets, whole and torn, in the order the mutex was released. */
  function Pieces(log: seq<Call>): seq<Piece> {
    if log == [] then []
    else
      Pieces(log[..|log| - 1]) + match log[|log| - 1] case Attempt(_, piece) => [piece] case Refused(_, _) => []
  }

  function By(log: seq<Call>, t: Tid): seq<Call> {
    if log == [] then []
    else By(log[..|log| - 1], t) + if log[|log| - 1].tid == t then [log[|log| - 1]] else []
  }

  lemma Snoc(log: seq<Call>, call: Call, t: Tid)
    ensures Pieces(log + [call]) == Pieces(log) + match call case Attempt(_, piece) => [piece] case Refused(_, _) => []
    ensures By(log + [call], t) == By(log, t) + if call.tid == t then [call] else []
  {
    assert (log + [call])[..|log|] == log;
  }

  predicate Succeeded(call: Call) {
    call.Attempt? && call.piece.Whole?
  }

  /** A thread's finished calls are its frames in order, and each returned true exactly when its
      packet went out whole. */
  ghost predicate CallerOk(log: seq<Call>, t: Tid, c: Caller) {
    && |c.results| <= |c.frames|
    && (!c.pc.Outside? ==> |c.results| < |c.frames|)
    && (c.pc.Sending? ==> c.pc.offset <= |EncodeFrame(Current(c))|)
    && |By(log, t)| == |c.results|
    && forall i :: 0 <= i < |c.results| ==>
         && (if By(log, t)[i].Attempt? then By(log, t)[i].piece.frame else By(log, t)[i].frame) == c.frames[i]
         && (c.results[i] <==> Succeeded(By(log, t)[i]))
  }

  ghost predicate Local(s: State, t: Tid)
    requires t in s.callers
  {
    && CallerOk(s.log, t, s.callers[t])
    && (s.callers[t].pc.Sending? <==> s.mutex == Some(t))
  }

  ghost function InFlight(s: State): seq<byte> {
    if s.mutex.Some? && s.mutex.value in s.callers then
      var c := s.callers[s.mutex.value];
      if |c.results| < |c.frames| && c.pc.Sending? && c.pc.offset <= |EncodeFrame(Current(c))| then
        EncodeFrame(Current(c))[..c.pc.offset]
      else []
    else []
  }

  ghost predicate WireOk(s: State) {
    && AllProper(Pieces(s.log))
    && s.wire == Wire(Pieces(s.log)) + InFlight(s)
  }

  ghost predicate Inv(s: State) {
    WireOk(s) && (forall t :: t in s.callers ==> Local(s, t)) && (s.mutex.Some? ==> s.mutex.value in s.callers)
  }

  lemma StepKeepsInv(s: State, step: Step)
    requires Inv(s)
    ensures Inv(Apply(s, step))
  {
    if Enabled(s, step) && !step.Drop? {
      var s' := Move(s, step);
      var t := step.t;
      assert Local(s, t);
      forall u | u in s'.callers && u != t
        ensures Local(s', u)
      {
        assert Local(s, u);
        if s'.log != s.log {
          Snoc(s.log, s'.log[|s.log|], u);
        }
      }
      MoverKeepsLocal(s, step);
      MoverKeepsWire(s, step);
    } else {
      forall t | t in s.callers
        ensures Local(Apply(s, step), t)
      {
        assert Local(s, t);
      }
    }
  }

  lemma MoverKeepsLocal(s: State, step: Step)
    requires Inv(s) && Enabled(s, step) && !step.Drop?
    ensures Local(Move(s, step), step.t)
  {
    var t := step.t;
    var c := s.callers[t];
    var frame := Current(c);
    assert Local(s, t);
    match step {
      case Call(_) => if !s.connected { Returned(s, t, Refused(t, frame)); }
      case Fail(_) => Returned(s, t, Attempt(t, Torn(frame, c.pc.offset)));
      case Unlock(_) => Returned(s, t, Attempt(t, Whole(frame)));
      case _ =>
    }
  }

  lemma Returned(s: State, t: Tid, call: Call)
    requires t in s.callers && Local(s, t) && |s.callers[t].results| < |s.callers[t].frames|
    requires call.tid == t
    requires (if call.Attempt? then call.piece.frame else call.frame) == Current(s.callers[t])
    ensures CallerOk(s.log + [call], t, Return(s, t, s.callers[t], Succeeded(call)).callers[t])
  {
    Snoc(s.log, call, t);
    assert By(s.log + [call], t) == By(s.log, t) + [call];
  }

  lemma MoverKeepsWire(s: State, step: Step)
    requires Inv(s) && Enabled(s, step) && !step.Drop?
    ensures WireOk(Move(s, step))
  {
    var t := step.t;
    var c := s.callers[t];
    assert Local(s, t);
    match step {
      case Call(_) => CallKeepsWire(s, t);
      case Lock(_) => LockKeepsWire(s, t);
      case Take(_, n) => TakeKeepsWire(s, t, n);
      case Fail(_) => Landed(s, t, Torn(Current(c), c.pc.offset));
      case Unlock(_) =>
        assert EncodeFrame(Current(c))[..c.pc.offset] == EncodeFrame(Current(c));
        Landed(s, t, Whole(Current(c)));
    }
  }

  lemma CallKeepsWire(s: State, t: Tid)
    requires Inv(s) && Enabled(s, Call(t))
    ensures WireOk(Move(s, Call(t)))
  {
    var s' := Move(s, Call(t));
    assert Local(s, t);
    SameFlight(s, s', t);
    if !s.connected {
      Snoc(s.log, Refused(t, Current(s.callers[t])), t);
      assert Pieces(s'.log) == Pieces(s.log);
    }
  }

  lemma LockKeepsWire(s: State, t: Tid)
    requires Inv(s) && Enabled(s, Lock(t))
    ensures WireOk(Move(s, Lock(t)))
  {
    assert EncodeFrame(Current(s.callers[t]))[..0] == [];
    assert InFlight(s) == [] && InFlight(Move(s, Lock(t))) == [];
  }

  lemma TakeKeepsWire(s: State, t: Tid, n: nat)
    requires Inv(s) && Enabled(s, Take(t, n))
    ensures WireOk(Move(s, Take(t, n)))
  {
    var c := s.callers[t];
    assert Local(s, t);
    var packet, k := EncodeFrame(Current(c)), c.pc.offset;
    assert packet[..k] + packet[k..k + n] == packet[..k + n];
    Reassociate(Wire(Pieces(s.log)), packet[..k], packet[k..k + n]);
    assert InFlight(s) == packet[..k] && InFlight(Move(s, Take(t, n))) == packet[..k + n];
  }

  lemma SameFlight(s: State, s': State, t: Tid)
    requires s'.mutex == s.mutex && s.mutex != Some(t)
    requires s'.callers.Keys == s.callers.Keys && forall u :: u in s.callers && u != t ==> s'.callers[u] == s.callers[u]
    ensures InFlight(s') == InFlight(s)
  {
  }

  lemma Landed(s: State, t: Tid, piece: Piece)
    requires WireOk(s) && s.mutex == Some(t) && piece.Proper() && piece.Bytes() == InFlight(s)
    ensures AllProper(Pieces(s.log + [Attempt(t, piece)]))
    ensures s.wire == Wire(Pieces(s.log + [Attempt(t, piece)]))
  {
    Snoc(s.log, Attempt(t, piece), t);
    Append(Pieces(s.log), piece);
  }

  lemma {:induction false} RunKeepsInv(s: State, schedule: seq<Step>)
    requires Init(s)
    ensures Inv(Run(s, schedule))
  {
    if schedule != [] {
      RunKeepsInv(s, schedule[..|schedule| - 1]);
      StepKeepsInv(Run(s, schedule[..|schedule| - 1]), schedule[|schedule| - 1]);
    } else {
      forall t | t in s.callers
        ensures Local(s, t)
      {
      }
    }
  }

  // ---- Every run -----------------------------------------------------------------------------

  /** Which calls were cut short by a failed send. */
  ghost predicate TornCall(call: Call) {
    call.Attempt? && call.piece.Torn? && call.piece.sent > 0
  }

  /** The frames of the calls that returned their size, in the order the mutex was released. */
  function SucceededFrames(log: seq<Call>): seq<Frame> {
    if log == [] then []
    else
      SucceededFrames(log[..|log| - 1]) + SuccessOf(log[|log| - 1])
  }

  function SuccessOf(call: Call): seq<Frame> {
    if Succeeded(call) then [call.piece.frame] else []
  }

  ghost predicate NoneTorn(log: seq<Call>) {
    forall i :: 0 <= i < |log| ==> !TornCall(log[i])
  }

  /** Adding one call to the log adds its bytes to the wire, and those of its frame if it succeeded. */
  lemma OneCallMore(before: seq<Call>, call: Call)
    requires AllProper(Pieces(before + [call]))
    ensures AllProper(Pieces(before))
    ensures var w, v := Wire(Pieces(before + [call])), Wire(Pieces(before));
            && |w| >= |v| + |EncodeFrames(SuccessOf(call))|
            && (TornCall(call) ==> |w| > |v| + |EncodeFrames(SuccessOf(call))|)
            && (!TornCall(call) ==> w == v + EncodeFrames(SuccessOf(call)))
  {
    Snoc(before, call, call.tid);
    var ps := Pieces(before + [call]);
    forall i | 0 <= i < |Pieces(before)|
      ensures Pieces(before)[i].Proper()
    {
      assert ps[i].Proper();
    }
    if call.Attempt? {
      assert ps[|ps| - 1] == call.piece;
      Append(Pieces(before), call.piece);
      assert EncodeFrames([call.piece.frame]) == EncodeFrame(call.piece.frame) + EncodeFrames([]);
    } else {
      assert ps == Pieces(before);
    }
  }

  lemma {:induction false} WholeWire(log: seq<Call>)
    requires AllProper(Pieces(log))
    ensures |Wire(Pieces(log))| >= |EncodeFrames(SucceededFrames(log))|
    ensures !NoneTorn(log) ==> |Wire(Pieces(log))| > |EncodeFrames(SucceededFrames(log))|
    ensures NoneTorn(log) ==> Wire(Pieces(log)) == EncodeFrames(SucceededFrames(log))
  {
    if log != [] {
      var before, last := log[..|log| - 1], log[|log| - 1];
      assert log == before + [last];
      OneCallMore(before, last);
      WholeWire(before);
      EncodeFramesConcat(SucceededFrames(before), SuccessOf(last));
      assert NoneTorn(log) <==> NoneTorn(before) && !TornCall(last) by {
        if NoneTorn(before) && !TornCall(last) {
          forall i | 0 <= i < |log| ensures !TornCall(log[i]) {
            if i < |before| { assert log[i] == before[i]; }
          }
        }
        if NoneTorn(log) {
          forall i | 0 <= i < |before| ensures !TornCall(before[i]) {
            assert log[i] == before[i];
          }
        }
      }
    }
  }

  /** Wire atomicity, under every schedule of any number of writers, partial sends and failures. The
      wire is the packets in the order the mutex was released, plus the part already sent of the one
      packet in progress. Each thread's calls return in its own order, true exactly if the packet went
      out whole. With the mutex free the wire is nothing but the packets of the successful calls if and
      only if no send failed in the middle of a packet. */
  lemma Atomic(s: State, schedule: seq<Step>)
    requires Init(s)
    ensures var f := Run(s, schedule);
            && AllProper(Pieces(f.log))
            && f.wire == Wire(Pieces(f.log)) + InFlight(f)
            && (forall t :: t in f.callers ==> CallerOk(f.log, t, f.callers[t]))
            && (forall t :: t in f.callers && f.callers[t].pc.Sending? ==> f.mutex == Some(t))
            && (f.mutex == None ==>
                 (NoneTorn(f.log) <==> f.wire == EncodeFrames(SucceededFrames(f.log))))
  {
    RunKeepsInv(s, schedule);
    var f := Run(s, schedule);
    forall t | t in f.callers
      ensures CallerOk(f.log, t, f.callers[t]) && (f.callers[t].pc.Sending? ==> f.mutex == Some(t))
    {
      assert Local(f, t);
    }
    WholeWire(f.log);
  }

  /** The packet in progress, once all its bytes are out and before the mutex is released. */
  ghost function Completed(s: State): seq<Frame> {
    if s.mutex.Some? && s.mutex.value in s.callers then
      var c := s.callers[s.mutex.value];
      if |c.results| < |c.frames| && c.pc.Sending? && c.pc.offset == |EncodeFrame(Current(c))| then [Current(c)] else []
    else []
  }

  lemma FlightParses(s: State)
    requires Inv(s) && AllSized(Completed(s))
    ensures Frames(InFlight(s)) == Completed(s)
  {
    if s.mutex.Some? {
      var c := s.callers[s.mutex.value];
      assert Local(s, s.mutex.value);
      var packet := EncodeFrame(Current(c));
      if c.pc.offset < |packet| {
        TornFrame(Current(c), c.pc.offset);
      } else {
        assert Sized(Completed(s)[0]);
        assert packet[..c.pc.offset] == packet + [];
        FrameFollowed(Current(c), []);
      }
    }
  }

  predicate PutBytes(call: Call) {
    call.Attempt? && (call.piece.Whole? || call.piece.sent > 0)
  }

  /** No finished call put bytes on the wire behind a torn packet. */
  ghost predicate TornLast(log: seq<Call>) {
    forall i, j :: 0 <= i < j < |log| && TornCall(log[i]) ==> !PutBytes(log[j])
  }

  /** A call that put nothing on the wire leaves it, and the successful packets, as they were. */
  lemma NothingPut(before: seq<Call>, last: Call)
    requires AllProper(Pieces(before + [last])) && !PutBytes(last)
    ensures AllProper(Pieces(before)) && Wire(Pieces(before + [last])) == Wire(Pieces(before))
    ensures SucceededFrames(before + [last]) == SucceededFrames(before)
  {
    OneCallMore(before, last);
    assert (before + [last])[..|before|] == before;
    assert Wire(Pieces(before)) + EncodeFrames([]) == Wire(Pieces(before));
  }

  /** A torn packet behind whole ones adds its beginning. */
  lemma OneTornEnd(before: seq<Call>, last: Call)
    requires AllProper(Pieces(before + [last])) && NoneTorn(before) && TornCall(last)
    ensures last.piece.Proper()
    ensures Wire(Pieces(before + [last])) == EncodeFrames(SucceededFrames(before)) + last.piece.Bytes()
    ensures SucceededFrames(before + [last]) == SucceededFrames(before)
  {
    OneCallMore(before, last);
    Snoc(before, last, last.tid);
    assert Pieces(before + [last])[|Pieces(before)|] == last.piece;
    WholeWire(before);
    Append(Pieces(before), last.piece);
    assert (before + [last])[..|before|] == before;
  }

  /** Then the wire is the packets of the successful calls and at most the torn one's beginning. */
  lemma {:induction false} TornEnd(log: seq<Call>) returns (tail: seq<byte>)
    requires AllProper(Pieces(log)) && TornLast(log)
    ensures Wire(Pieces(log)) == EncodeFrames(SucceededFrames(log)) + tail && !ParseFrame(tail).Parsed?
    ensures NoneTorn(log) ==> tail == []
  {
    if log == [] {
      tail := [];
    } else {
      var before, last := log[..|log| - 1], log[|log| - 1];
      assert log == before + [last];
      TornLastBefore(before, last);
      if TornCall(last) {
        OneTornEnd(before, last);
        tail := last.piece.Bytes();
        TornFrame(last.piece.frame, last.piece.sent);
      } else if !PutBytes(last) {
        NothingPut(before, last);
        tail := TornEnd(before);
      } else {
        NoneTornSnoc(before, last);
        WholeWire(log);
        tail := [];
        assert EncodeFrames(SucceededFrames(log)) + [] == EncodeFrames(SucceededFrames(log));
      }
    }
  }

  lemma TornLastBefore(before: seq<Call>, last: Call)
    requires TornLast(before + [last])
    ensures TornLast(before) && (PutBytes(last) ==> NoneTorn(before))
    ensures NoneTorn(before + [last]) ==> NoneTorn(before)
  {
    var log := before + [last];
    assert log[|before|] == last;
    forall i | 0 <= i < |before|
      ensures before[i] == log[i]
    {
    }
    forall i, j | 0 <= i < j < |before| && TornCall(before[i])
      ensures !PutBytes(before[j])
    {
      assert TornCall(log[i]) && before[j] == log[j];
    }
    if PutBytes(last) {
      forall i | 0 <= i < |before|
        ensures !TornCall(before[i])
      {
        assert before[i] == log[i];
      }
    }
  }

  lemma NoneTornSnoc(before: seq<Call>, last: Call)
    requires NoneTorn(before) && !TornCall(last)
    ensures NoneTorn(before + [last])
  {
  }

  /** What the peer parses at any moment of a run, as long as no call puts bytes behind a torn packet:
      exactly the frames of the successful calls, then the one in progress if all of it is out. */
  lemma PeerSeesSuccesses(s: State, schedule: seq<Step>)
    requires Init(s)
    requires var f := Run(s, schedule);
             && TornLast(f.log) && (NoneTorn(f.log) || InFlight(f) == [])
             && AllSized(SucceededFrames(f.log)) && AllSized(Completed(f))
    ensures var f := Run(s, schedule); Frames(f.wire) == SucceededFrames(f.log) + Completed(f)
  {
    var f := Run(s, schedule);
    RunKeepsInv(s, schedule);
    var tail := TornEnd(f.log);
    FlightParses(f);
    EitherEnd(EncodeFrames(SucceededFrames(f.log)), tail, InFlight(f));
    FramesRoundTrip(SucceededFrames(f.log), if tail == [] then InFlight(f) else tail);
  }

  lemma EitherEnd(packets: seq<byte>, tail: seq<byte>, flight: seq<byte>)
    requires tail == [] || flight == []
    ensures packets + tail + flight == packets + if tail == [] then flight else tail
  {
  }

  // ---- One call ------------------------------------------------------------------------------

  /** A call nobody disturbs succeeds, however its packet is split in two: the packet goes out whole behind
      what was there, and the call returns true. */
  lemma UndisturbedCall(s: State, t: Tid, n: nat)
    requires s.connected && s.mutex == None && t in s.callers
    requires s.callers[t].pc == Outside && |s.callers[t].results| < |s.callers[t].frames|
    requires 0 < n < |EncodeFrame(Current(s.callers[t]))|
    ensures var c := s.callers[t];
            var packet := EncodeFrame(Current(c));
            var f := Run(s, [Call(t)] + [Lock(t)] + [Take(t, n)] + [Take(t, |packet| - n)] + [Unlock(t)]);
            && f.wire == s.wire + packet && f.connected && f.mutex == None
            && f.callers == s.callers[t := c.(results := c.results + [true])]
            && f.log == s.log + [Attempt(t, Whole(Current(c)))]
  {
    var c := s.callers[t];
    var packet := EncodeFrame(Current(c));
    var m := |packet| - n;
    var contending := s.(callers := s.callers[t := c.(pc := Contending)]);
    var locked := s.(callers := s.callers[t := c.(pc := Sending(0))], mutex := Some(t));
    var half := s.(callers := s.callers[t := c.(pc := Sending(n))], mutex := Some(t), wire := s.wire + packet[0..n]);
    var sent := s.(callers := s.callers[t := c.(pc := Sending(|packet|))], mutex := Some(t), wire := s.wire + packet);
    Runs.RunOne(Apply, s, Call(t));
    assert Apply(s, Call(t)) == contending;
    Runs.RunSnoc(Apply, s, [Call(t)], Lock(t));
    assert Apply(contending, Lock(t)) == locked;
    Runs.RunSnoc(Apply, s, [Call(t)] + [Lock(t)], Take(t, n));
    assert Apply(locked, Take(t, n)) == half;
    Runs.RunSnoc(Apply, s, [Call(t)] + [Lock(t)] + [Take(t, n)], Take(t, m));
    assert s.wire + packet[0..n] + packet[n..n + m] == s.wire + packet;
    assert Apply(half, Take(t, m)) == sent;
    Runs.RunSnoc(Apply, s, [Call(t)] + [Lock(t)] + [Take(t, n)] + [Take(t, m)], Unlock(t));
  }

  /** With the flag down a call is refused and nothing is sent; with the mutex taken a writer waits. */
  lemma RefusedOrWaiting(s: State, t: Tid)
    requires t in s.callers && |s.callers[t].results| < |s.callers[t].frames|
    ensures var c := s.callers[t];
            s.callers[t].pc == Outside && !s.connected ==>
              Apply(s, Call(t))
              == s.(callers := s.callers[t := c.(results := c.results + [false])],
                  log := s.log + [Refused(t, Current(c))])
    ensures s.callers[t].pc == Contending && s.mutex.Some? ==> Apply(s, Lock(t)) == s
  {
  }

  // ---- After a failed send -------------------------------------------------------------------

  /** The flag is down, the mutex free, and nobody is past the check of the flag. */
  ghost predicate Silent(s: State, wire: seq<byte>) {
    && !s.connected && s.mutex == None && s.wire == wire
    && forall u :: u in s.callers ==> s.callers[u].pc == Outside
  }

  lemma {:induction false} StaysSilent(s: State, more: seq<Step>)
    requires Silent(s, s.wire)
    ensures Silent(Run(s, more), s.wire)
  {
    if more != [] {
      StaysSilent(s, more[..|more| - 1]);
      assert Silent(Apply(Run(s, more[..|more| - 1]), more[|more| - 1]), s.wire);
    }
  }

  /** A writer that waits for the mutex sends once it gets it. */
  lemma ContenderSends(s: State, u: Tid)
    requires Inv(s) && s.mutex == None && u in s.callers && s.callers[u].pc.Contending?
    ensures Run(s, [Lock(u)] + [Take(u, 1)]).wire != s.wire
  {
    assert Local(s, u);
    Runs.RunOne(Apply, s, Lock(u));
    Runs.RunSnoc(Apply, s, [Lock(u)], Take(u, 1));
    var locked := Apply(s, Lock(u));
    assert locked.callers[u].pc == Sending(0);
    assert |Apply(locked, Take(u, 1)).wire| == |s.wire| + 1;
  }

  /** In every reachable state in which a send may fail: after that failure the wire stays as it is,
      whatever anybody does, if and only if no other writer is waiting for the mutex. */
  lemma FailureEndsTheWire(s: State, schedule: seq<Step>, t: Tid)
    requires Init(s) && Enabled(Run(s, schedule), Fail(t))
    ensures var f := Run(s, schedule);
            var failed := Apply(f, Fail(t));
            (forall more: seq<Step> :: Run(failed, more).wire == failed.wire)
            <==> (forall u :: u in f.callers ==> !f.callers[u].pc.Contending?)
  {
    RunKeepsInv(s, schedule);
    var f := Run(s, schedule);
    var failed := Apply(f, Fail(t));
    StepKeepsInv(f, Fail(t));
    assert Local(f, t);
    if u :| u in f.callers && f.callers[u].pc.Contending? {
      ContenderSends(failed, u);
    } else {
      forall u | u in failed.callers
        ensures failed.callers[u].pc == Outside
      {
        assert Local(f, u);
      }
      forall more: seq<Step>
        ensures Run(failed, more).wire == failed.wire
      {
        StaysSilent(failed, more);
      }
    }
  }

  // ---- Why the condition is there ------------------------------------------------------------

  const TINY: Frame := PublishFrame([0x74], [0x01])

  lemma TinyBytes()
    ensures EncodeFrame(TINY) == [0x30, 0x04, 0x00, 0x01, 0x74, 0x01]
  {
    assert RL.Encode(4) == [4];
    assert MqttString([0x74]) == [0x00, 0x01, 0x74];
  }

  function TwoWriters(): State {
    State(map[0 := Caller([TINY], [], Outside), 1 := Caller([TINY], [], Outside)], None, [], true, [])
  }

  const TEAR: seq<Step> := [Call(0)] + [Call(1)] + [Lock(0)] + [Take(0, 1)] + [Fail(0)]
  const GO_ON: seq<Step> := TEAR + [Lock(1)] + [Take(1, 6)] + [Unlock(1)]

  function TornAway(): State {
    State(map[0 := Caller([TINY], [false], Outside), 1 := Caller([TINY], [], Contending)],
          None, [0x30], false, [Attempt(0, Torn(TINY, 1))])
  }

  lemma Tear()
    ensures Run(TwoWriters(), TEAR) == TornAway()
  {
    TinyBytes();
    var s := TwoWriters();
    Runs.RunOne(Apply, s, Call(0));
    Runs.RunSnoc(Apply, s, [Call(0)], Call(1));
    Runs.RunSnoc(Apply, s, [Call(0)] + [Call(1)], Lock(0));
    Runs.RunSnoc(Apply, s, [Call(0)] + [Call(1)] + [Lock(0)], Take(0, 1));
    Runs.RunSnoc(Apply, s, [Call(0)] + [Call(1)] + [Lock(0)] + [Take(0, 1)], Fail(0));
    assert EncodeFrame(TINY)[0..1] == [0x30];
    var f := Run(s, TEAR);
    assert f.callers[0].results == [false];
    assert f.callers == TornAway().callers;
    assert f.log == TornAway().log;
    assert f.wire == [0x30];
  }

  /** The flag is not looked at again once the mutex is taken: a writer that had passed the check goes
      on after another one's packet was torn, reports success, and its packet no longer stands on a
      packet boundary. */
  lemma WriterGoesOnAfterTear()
    ensures Init(TwoWriters())
    ensures var f := Run(TwoWriters(), GO_ON);
            && f.callers.Keys == {0, 1} && f.callers[1].results == [true]
            && !f.connected && f.mutex == None
            && f.wire == [0x30] + EncodeFrame(TINY)
            && !NoneTorn(f.log)
  {
    var s, torn := TwoWriters(), TornAway();
    Tear();
    TinyBytes();
    Runs.RunSnoc(Apply, s, TEAR, Lock(1));
    Runs.RunSnoc(Apply, s, TEAR + [Lock(1)], Take(1, 6));
    Runs.RunSnoc(Apply, s, TEAR + [Lock(1)] + [Take(1, 6)], Unlock(1));
    assert EncodeFrame(TINY)[0..6] == EncodeFrame(TINY);
    assert TornCall(Run(s, GO_ON).log[0]);
  }
}
