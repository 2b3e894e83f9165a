/** The monitor behind both in-process byte queues: GATT's endpoint buffer (src/GATT.cpp) and the MQTT
    receive queue (src/MQTT.cpp). A mutex, a condition variable and a deque are shared by any number of
    writer and reader threads; a schedule picks who moves next, one lock, one byte, one unlock, one wait
    or one notification at a time. */
module Monitor {
  import opened Bytes
  import Runs

  type Tid = nat

  /** One call of `read(limit)`, or of `read_all`. `timed` says the timeout is not negative. */
  datatype Request = Request(all: bool, limit: nat, blocking: bool, timed: bool)

  datatype WriterPc = Away | Appending(copied: nat) | Notifying

  datatype ReaderPc =
    | Outside
    | Checking(timedOut: bool)            // holds the lock, about to evaluate the wait predicate
    | Dozing                              // holds the lock, predicate was false, about to wait
    | Sleeping                            // waits on the condition variable, lock released
    | Waking(timedOut: bool)              // woken, about to take the lock again
    | Taking(out: seq<byte>, want: nat)   // holds the lock, popping bytes

  datatype Thread =
    | Writer(payloads: seq<seq<byte>>, done: nat, wpc: WriterPc)
    | Reader(requests: seq<Request>, results: seq<seq<byte>>, rpc: ReaderPc)

  /** What a critical section did, in the order the sections ended. */
  datatype Event = Put(tid: Tid, payload: seq<byte>) | Got(tid: Tid, request: Request, out: seq<byte>)

  /** `connected` and `announced` belong to MQTT alone: the flag the readers' predicate also looks at,
      and whether the receiver thread has issued its last notification. `late` is the reader that was
      between its check and its wait at that moment, if one was. */
  datatype State = State(
    threads: map<Tid, Thread>,
    lock: Option<Tid>,
    bytes: seq<byte>,
    mqtt: bool,
    connected: bool,
    announced: bool,
    late: Option<Tid>,
    log: seq<Event>)

  datatype Step = Advance(t: Tid) | Spurious(t: Tid) | Timeout(t: Tid) | Drop | Announce

  // ---- The transition system -----------------------------------------------------------------

  function Put1(s: State, t: Tid, th: Thread): State {
    s.(threads := s.threads[t := th])
  }

  /** What a request takes from a queue: all of it, or its first bytes up to the limit. */
  function Share(r: Request, q: seq<byte>): nat {
    if r.all then |q| else Min(r.limit, |q|)
  }

  function WakeAll(threads: map<Tid, Thread>): map<Tid, Thread> {
    map t | t in threads :: Awake(threads[t])
  }

  function Awake(th: Thread): Thread {
    if th.Reader? && th.rpc.Sleeping? then th.(rpc := Waking(false)) else th
  }

  function AdvanceWriter(s: State, t: Tid, w: Thread): State
    requires w.Writer?
  {
    match w.wpc
    case Away =>
      if w.done < |w.payloads| && s.lock == None then
        Put1(s, t, w.(wpc := Appending(0))).(lock := Some(t))
      else s
    case Appending(copied) =>
      if w.done >= |w.payloads| then s
      else if copied < |w.payloads[w.done]| then
        Put1(s, t, w.(wpc := Appending(copied + 1))).(bytes := s.bytes + [w.payloads[w.done][copied]])
      else
        Put1(s, t, w.(wpc := Notifying)).(lock := None, log := s.log + [Put(t, w.payloads[w.done])])
    case Notifying =>
      s.(threads := WakeAll(s.threads)[t := w.(wpc := Away, done := w.done + 1)])
  }

  function AdvanceReader(s: State, t: Tid, r: Thread): State
    requires r.Reader?
  {
    if |r.results| >= |r.requests| then s
    else
      var request := r.requests[|r.results|];
      match r.rpc
      case Outside =>
        if !request.all && request.limit == 0 then
          Put1(s, t, r.(results := r.results + [[]])).(log := s.log + [Got(t, request, [])])
        else if s.lock == None then
          Put1(s, t, r.(rpc := Checking(false))).(lock := Some(t))
        else s
      case Checking(timedOut) =>
        if s.bytes == [] && request.blocking && s.connected && !timedOut then
          Put1(s, t, r.(rpc := Dozing))
        else
          Put1(s, t, r.(rpc := Taking([], Share(request, s.bytes))))
      case Dozing => Put1(s, t, r.(rpc := Sleeping)).(lock := None)
      case Sleeping => s
      case Waking(timedOut) =>
        if s.lock == None then Put1(s, t, r.(rpc := Checking(timedOut))).(lock := Some(t)) else s
      case Taking(out, want) =>
        if |out| < want && s.bytes != [] then
          Put1(s, t, r.(rpc := Taking(out + [s.bytes[0]], want))).(bytes := s.bytes[1..])
        else
          Put1(s, t, r.(rpc := Outside, results := r.results + [out]))
          .(lock := None, log := s.log + [Got(t, request, out)])
  }

  /** A step that is not enabled leaves the state alone. */
  function Apply(s: State, step: Step): State {
    match step
    case Advance(t) =>
      if t !in s.threads then s
      else if s.threads[t].Writer? then AdvanceWriter(s, t, s.threads[t])
      else AdvanceReader(s, t, s.threads[t])
    case Spurious(t) =>
      if t in s.threads && s.threads[t].Reader? && s.threads[t].rpc.Sleeping? then
        Put1(s, t, s.threads[t].(rpc := Waking(false)))
      else s
    case Timeout(t) =>
      if t in s.threads && s.threads[t].Reader? && s.threads[t].rpc.Sleeping?
         && |s.threads[t].results| < |s.threads[t].requests|
         && s.threads[t].requests[|s.threads[t].results|].timed then
        Put1(s, t, s.threads[t].(rpc := Waking(true)))
      else s
    case Drop => if s.mqtt then s.(connected := false) else s
    case Announce =>
      if s.mqtt && !s.connected && !s.announced then
        s.(threads := WakeAll(s.threads), announced := true, late := WaitingReader(s))
      else s
  }

  /** The reader that has found its predicate false and has yet to wait, if one has. It holds the lock. */
  function WaitingReader(s: State): Option<Tid> {
    if s.lock.Some? && s.lock.value in s.threads && AboutToWait(s.threads[s.lock.value]) then s.lock else None
  }

  predicate AboutToWait(th: Thread) {
    th.Reader? && th.rpc.Dozing?
  }

  function Run(s: State, schedule: seq<Step>): State {
    Runs.Run(Apply, s, schedule)
  }

  /** Any finite set of threads, each about to make any list of calls. Writers never hand over an
      empty payload: both `write` and `enqueue_payload` return before locking in that case. */
  ghost predicate Init(s: State) {
    && s.lock == None && s.bytes == [] && s.connected && !s.announced && s.late == None && s.log == []
    && (forall t :: t in s.threads ==> Fresh(s.threads[t]))
  }

  ghost predicate Fresh(th: Thread) {
    match th
    case Writer(payloads, done, pc) =>
      pc == Away && done == 0 && forall i :: 0 <= i < |payloads| ==> payloads[i] != []
    case Reader(_, results, pc) => pc == Outside && results == []
  }

  // ---- The sequential queue ------------------------------------------------------------------

  /** The queue a caller imagines: puts append a block, reads take the front. `Replay` is what a log of
      events leaves behind, if every read in it got exactly the share due to it at that point. */
  function Replay(log: seq<Event>): Option<seq<byte>> {
    if log == [] then Some([])
    else
      match Replay(log[..|log| - 1])
      case None => None
      case Some(q) =>
        match log[|log| - 1]
        case Put(_, payload) => Some(q + payload)
        case Got(_, request, out) =>
          if out == q[..Share(request, q)] then Some(q[|out|..]) else None
  }

  lemma ReplaySnoc(log: seq<Event>, e: Event)
    requires Replay(log).Some?
    ensures var q := Replay(log).value;
            Replay(log + [e]) == match e
                                 case Put(_, payload) => Some(q + payload)
                                 case Got(_, request, out) =>
                                   if out == q[..Share(request, q)] then Some(q[|out|..]) else None
  {
    assert (log + [e])[..|log|] == log;
  }

  /** The events of one thread, in order. */
  function By(log: seq<Event>, t: Tid): seq<Event> {
    if log == [] then []
    else
      var last := log[|log| - 1];
      By(log[..|log| - 1], t) + if last.tid == t then [last] else []
  }

  lemma BySnoc(log: seq<Event>, e: Event, t: Tid)
    ensures By(log + [e], t) == By(log, t) + if e.tid == t then [e] else []
  {
    assert (log + [e])[..|log|] == log;
  }

  function PutsOf(t: Tid, payloads: seq<seq<byte>>, n: nat): seq<Event>
    requires n <= |payloads|
  {
    seq(n, i requires 0 <= i < n => Put(t, payloads[i]))
  }

  function GotsOf(t: Tid, requests: seq<Request>, results: seq<seq<byte>>): seq<Event>
    requires |results| <= |requests|
  {
    seq(|results|, i requires 0 <= i < |results| => Got(t, requests[i], results[i]))
  }

  // ---- What every step keeps -----------------------------------------------------------------

  predicate Holds(th: Thread) {
    match th
    case Writer(_, _, pc) => pc.Appending?
    case Reader(_, _, pc) => pc.Checking? || pc.Dozing? || pc.Taking?
  }

  function PutCount(w: Thread): nat
    requires w.Writer?
  {
    w.done + if w.wpc.Notifying? then 1 else 0
  }

  /** A thread's program counter fits its program, and the log holds exactly what it has completed. */
  ghost predicate ProgramOk(log: seq<Event>, t: Tid, th: Thread) {
    match th
    case Writer(payloads, done, pc) =>
      && PutCount(th) <= |payloads|
      && (pc.Appending? ==> done < |payloads| && pc.copied <= |payloads[done]|)
      && (forall i :: 0 <= i < |payloads| ==> payloads[i] != [])
      && By(log, t) == PutsOf(t, payloads, PutCount(th))
    case Reader(requests, results, pc) =>
      && |results| <= |requests|
      && (!pc.Outside? ==> |results| < |requests| && PcOk(requests[|results|], pc))
      && By(log, t) == GotsOf(t, requests, results)
  }

  /** A reader inside a call asked for something, waits only if it may block, and times out only if it
      has a timeout. */
  predicate PcOk(r: Request, pc: ReaderPc) {
    && (r.all || r.limit > 0)
    && (pc.Dozing? || pc.Sleeping? || pc.Waking? ==> r.blocking)
    && (pc.Waking? && pc.timedOut ==> r.timed)
    && (pc.Checking? && pc.timedOut ==> r.timed)
  }

  /** What may return nothing: a read of nothing, a non-blocking one, one with a timeout, or any read
      once the connection is gone. */
  predicate Excused(connected: bool, r: Request) {
    (!r.all && r.limit == 0) || !r.blocking || r.timed || !connected
  }

  ghost predicate Local(s: State, t: Tid)
    requires t in s.threads
  {
    var th := s.threads[t];
    && ProgramOk(s.log, t, th)
    // Mutual exclusion: the lock names the one thread inside a critical section.
    && (Holds(th) <==> s.lock == Some(t))
    && (th.Reader? && th.rpc.Taking? && th.rpc.want == 0 ==> Excused(s.connected, th.requests[|th.results|]))
    // Once the end is announced, only the reader then between its check and its wait may be asleep.
    && (s.announced && th.Reader? && (th.rpc.Sleeping? || th.rpc.Dozing?) ==> s.late == Some(t))
  }

  /** The deque is the imagined queue, plus or minus what the critical section in progress has copied. */
  ghost predicate ContentOk(s: State) {
    && Replay(s.log).Some?
    && var q := Replay(s.log).value;
       if s.lock == None then s.bytes == q
       else s.lock.value in s.threads && InSection(s.threads[s.lock.value], q, s.bytes)
  }

  ghost predicate InSection(th: Thread, q: seq<byte>, bytes: seq<byte>) {
    match th
    case Writer(payloads, done, pc) =>
      && pc.Appending? && done < |payloads| && pc.copied <= |payloads[done]|
      && bytes == q + payloads[done][..pc.copied]
    case Reader(requests, results, pc) =>
      if pc.Taking? then
        && |results| < |requests|
        && pc.want == Share(requests[|results|], q)
        && |pc.out| <= pc.want
        && pc.out + bytes == q
      else bytes == q && (pc.Dozing? ==> q == [])
  }

  /** A writer between its first appended byte and its notification. */
  predicate Active(th: Thread) {
    th.Writer? && (th.wpc.Notifying? || (th.wpc.Appending? && th.wpc.copied > 0))
  }

  predicate Asleep(th: Thread) {
    th.Reader? && th.rpc.Sleeping?
  }

  /** No lost wakeup: a reader asleep on a non-empty buffer has a writer between its first appended
      byte and its notification. */
  ghost predicate WakeupsOk(s: State) {
    s.bytes != [] ==>
      forall t :: t in s.threads && Asleep(s.threads[t]) ==> exists w :: w in s.threads && Active(s.threads[w])
  }

  /** Empty-handed reads have an excuse. */
  ghost predicate ReadsOk(log: seq<Event>, connected: bool) {
    forall i :: 0 <= i < |log| && log[i].Got? && log[i].out == [] ==> Excused(connected, log[i].request)
  }

  ghost predicate Global(s: State) {
    && ContentOk(s) && WakeupsOk(s) && ReadsOk(s.log, s.connected)
    && (s.announced ==> !s.connected && s.mqtt)
    && (!s.mqtt ==> s.connected)
  }

  ghost predicate Inv(s: State) {
    Global(s) && forall t :: t in s.threads ==> Local(s, t)
  }

  // ---- One step ------------------------------------------------------------------------------

  /** The threads that did not move, except perhaps by being woken, keep their part. */
  ghost predicate Unmoved(s: State, s': State, t: Tid) {
    && s'.threads.Keys == s.threads.Keys
    && (forall u :: u in s.threads && u != t ==> s'.threads[u] == s.threads[u] || s'.threads[u] == Awake(s.threads[u]))
    && (forall u :: u in s.threads && u != t ==> (s'.lock == Some(u) <==> s.lock == Some(u)))
    && (s'.log == s.log || (|s'.log| == |s.log| + 1 && s'.log[..|s.log|] == s.log && s'.log[|s.log|].tid == t))
    && s'.connected == s.connected && s'.announced == s.announced && s'.late == s.late
  }

  lemma Others(s: State, s': State, t: Tid)
    requires Inv(s) && Unmoved(s, s', t)
    ensures forall u :: u in s'.threads && u != t ==> Local(s', u)
  {
    forall u | u in s'.threads && u != t
      ensures Local(s', u)
    {
      Other(s, s', t, u);
    }
  }

  lemma Other(s: State, s': State, t: Tid, u: Tid)
    requires Inv(s) && Unmoved(s, s', t) && u in s'.threads && u != t
    ensures Local(s', u)
  {
    assert u in s.threads && Local(s, u);
    if s'.log != s.log {
      assert s'.log == s.log + [s'.log[|s.log|]];
      BySnoc(s.log, s'.log[|s.log|], u);
    }
    WakingKeepsProgram(s.log, s'.log, u, s.threads[u]);
  }

  lemma WakingKeepsProgram(log: seq<Event>, log': seq<Event>, u: Tid, th: Thread)
    requires ProgramOk(log, u, th) && By(log', u) == By(log, u)
    ensures ProgramOk(log', u, th) && ProgramOk(log', u, Awake(th))
  {
  }

  lemma StartAppend(s: State, t: Tid)
    requires Inv(s) && t in s.threads && s.threads[t].Writer? && s.threads[t].wpc.Away?
    ensures Inv(Apply(s, Advance(t)))
  {
    var s' := Apply(s, Advance(t));
    assert Local(s, t);
    if s' != s {
      Others(s, s', t);
      assert Local(s', t);
      assert ContentOk(s') by {
        assert s.threads[t].payloads[s.threads[t].done][..0] == [];
        assert s.bytes + [] == s.bytes;
      }
      OthersStillActive(s, s', t);
    }
  }

  lemma OthersStillActive(s: State, s': State, t: Tid)
    requires WakeupsOk(s) && Unmoved(s, s', t) && t in s.threads && t in s'.threads
    requires !Active(s.threads[t]) && !Asleep(s'.threads[t]) && s'.bytes == s.bytes
    ensures WakeupsOk(s')
  {
    if s'.bytes != [] {
      forall u | u in s'.threads && Asleep(s'.threads[u])
        ensures exists w :: w in s'.threads && Active(s'.threads[w])
      {
        assert u in s.threads && Asleep(s.threads[u]);
        var w :| w in s.threads && Active(s.threads[w]);
        assert Active(s'.threads[w]);
      }
    }
  }

  lemma Copy(s: State, t: Tid)
    requires Inv(s) && t in s.threads && s.threads[t].Writer? && s.threads[t].wpc.Appending?
    requires s.threads[t].done < |s.threads[t].payloads|
    requires s.threads[t].wpc.copied < |s.threads[t].payloads[s.threads[t].done]|
    ensures Inv(Apply(s, Advance(t)))
  {
    var s' := Apply(s, Advance(t));
    assert Local(s, t);
    Others(s, s', t);
    assert Local(s', t);
    assert ContentOk(s') by {
      var p := s.threads[t].payloads[s.threads[t].done];
      var k := s.threads[t].wpc.copied;
      assert p[..k] + [p[k]] == p[..k + 1];
      Reassociate(Replay(s.log).value, p[..k], [p[k]]);
    }
    assert Active(s'.threads[t]);
  }

  lemma PutsOfSnoc(t: Tid, payloads: seq<seq<byte>>, n: nat)
    requires n < |payloads|
    ensures PutsOf(t, payloads, n + 1) == PutsOf(t, payloads, n) + [Put(t, payloads[n])]
  {
  }

  lemma Commit(s: State, t: Tid)
    requires Inv(s) && t in s.threads && s.threads[t].Writer? && s.threads[t].wpc.Appending?
    requires s.threads[t].done < |s.threads[t].payloads|
    requires s.threads[t].wpc.copied >= |s.threads[t].payloads[s.threads[t].done]|
    ensures Inv(Apply(s, Advance(t)))
  {
    var s' := Apply(s, Advance(t));
    var w := s.threads[t];
    var e := Put(t, w.payloads[w.done]);
    assert Local(s, t);
    Others(s, s', t);
    CommitKeepsProgram(s, t);
    CommitKeepsContent(s, t);
    assert Active(s'.threads[t]);
  }

  lemma CommitKeepsProgram(s: State, t: Tid)
    requires Inv(s) && t in s.threads && s.threads[t].Writer? && s.threads[t].wpc.Appending?
    requires s.threads[t].done < |s.threads[t].payloads|
    requires s.threads[t].wpc.copied >= |s.threads[t].payloads[s.threads[t].done]|
    ensures var s' := Apply(s, Advance(t)); t in s'.threads && Local(s', t)
  {
    var w := s.threads[t];
    assert Local(s, t);
    BySnoc(s.log, Put(t, w.payloads[w.done]), t);
    PutsOfSnoc(t, w.payloads, w.done);
  }

  lemma CommitKeepsContent(s: State, t: Tid)
    requires Inv(s) && t in s.threads && s.threads[t].Writer? && s.threads[t].wpc.Appending?
    requires s.threads[t].done < |s.threads[t].payloads|
    requires s.threads[t].wpc.copied >= |s.threads[t].payloads[s.threads[t].done]|
    ensures ContentOk(Apply(s, Advance(t)))
  {
    var w := s.threads[t];
    var payload := w.payloads[w.done];
    assert Local(s, t);
    ReplaySnoc(s.log, Put(t, payload));
    assert payload[..w.wpc.copied] == payload;
  }

  lemma Notify(s: State, t: Tid)
    requires Inv(s) && t in s.threads && s.threads[t].Writer? && s.threads[t].wpc.Notifying?
    ensures Inv(Apply(s, Advance(t)))
  {
    var s' := Apply(s, Advance(t));
    assert Local(s, t);
    NotifyWakes(s, t);
    Others(s, s', t);
    NobodyAsleep(s');
  }

  lemma NotifyWakes(s: State, t: Tid)
    requires t in s.threads && s.threads[t].Writer? && s.threads[t].wpc.Notifying?
    requires Local(s, t)
    ensures var s' := Apply(s, Advance(t));
            && Unmoved(s, s', t) && Local(s', t)
            && forall u :: u in s'.threads ==> !Asleep(s'.threads[u])
  {
    var s' := Apply(s, Advance(t));
    assert s'.threads.Keys == s.threads.Keys;
  }

  lemma NobodyAsleep(s: State)
    requires forall u :: u in s.threads ==> !Asleep(s.threads[u])
    ensures WakeupsOk(s)
  {
  }

  /** The writers that have yet to notify are still there after a reader's move. */
  lemma WritersStay(s: State, s': State, t: Tid)
    requires WakeupsOk(s) && Unmoved(s, s', t) && t in s.threads && s.threads[t].Reader? && s'.threads[t].Reader?
    requires s'.bytes != [] ==> s.bytes != [] && !Asleep(s'.threads[t])
    ensures WakeupsOk(s')
  {
    if s'.bytes != [] {
      forall u | u in s'.threads && Asleep(s'.threads[u])
        ensures exists w :: w in s'.threads && Active(s'.threads[w])
      {
        assert u in s.threads && Asleep(s.threads[u]);
        var w :| w in s.threads && Active(s.threads[w]);
        assert Active(s'.threads[w]);
      }
    }
  }

  lemma GotsOfSnoc(t: Tid, requests: seq<Request>, results: seq<seq<byte>>, out: seq<byte>)
    requires |results| < |requests|
    ensures GotsOf(t, requests, results + [out]) == GotsOf(t, requests, results) + [Got(t, requests[|results|], out)]
  {
  }

  lemma ReadNothing(s: State, t: Tid)
    requires Inv(s) && t in s.threads && s.threads[t].Reader? && s.threads[t].rpc.Outside?
    requires var r := s.threads[t];
             |r.results| < |r.requests| && !r.requests[|r.results|].all && r.requests[|r.results|].limit == 0
    ensures Inv(Apply(s, Advance(t)))
  {
    var s' := Apply(s, Advance(t));
    var r := s.threads[t];
    var e := Got(t, r.requests[|r.results|], []);
    assert Local(s, t);
    Others(s, s', t);
    assert Local(s', t) by {
      BySnoc(s.log, e, t);
      GotsOfSnoc(t, r.requests, r.results, []);
    }
    ReplaySnoc(s.log, e);
    WritersStay(s, s', t);
  }

  lemma Enter(s: State, t: Tid)
    requires Inv(s) && t in s.threads && s.threads[t].Reader?
    requires var r := s.threads[t];
             r.rpc.Waking?
             || (r.rpc.Outside? && |r.results| < |r.requests|
                 && (r.requests[|r.results|].all || r.requests[|r.results|].limit > 0))
    ensures Inv(Apply(s, Advance(t)))
  {
    var s' := Apply(s, Advance(t));
    assert Local(s, t);
    if s' != s {
      Others(s, s', t);
      assert Local(s', t);
      WritersStay(s, s', t);
    }
  }

  lemma Check(s: State, t: Tid)
    requires Inv(s) && t in s.threads && s.threads[t].Reader? && s.threads[t].rpc.Checking?
    ensures Inv(Apply(s, Advance(t)))
  {
    var s' := Apply(s, Advance(t));
    assert Local(s, t);
    Others(s, s', t);
    assert Local(s', t);
    WritersStay(s, s', t);
  }

  lemma Doze(s: State, t: Tid)
    requires Inv(s) && t in s.threads && s.threads[t].Reader? && s.threads[t].rpc.Dozing?
    ensures Inv(Apply(s, Advance(t)))
  {
    var s' := Apply(s, Advance(t));
    assert Local(s, t);
    Others(s, s', t);
    assert Local(s', t);
    WritersStay(s, s', t);
  }

  lemma Pop(s: State, t: Tid)
    requires Inv(s) && t in s.threads && s.threads[t].Reader? && s.threads[t].rpc.Taking?
    requires |s.threads[t].rpc.out| < s.threads[t].rpc.want && s.bytes != []
    ensures Inv(Apply(s, Advance(t)))
  {
    var s' := Apply(s, Advance(t));
    assert Local(s, t);
    Others(s, s', t);
    assert Local(s', t);
    HeadFirst(s.bytes, []);
    Reassociate(s.threads[t].rpc.out, [s.bytes[0]], s.bytes[1..]);
    assert s.bytes == [s.bytes[0]] + s.bytes[1..];
    WritersStay(s, s', t);
  }

  lemma Finish(s: State, t: Tid)
    requires Inv(s) && t in s.threads && s.threads[t].Reader? && s.threads[t].rpc.Taking?
    requires |s.threads[t].rpc.out| >= s.threads[t].rpc.want || s.bytes == []
    ensures Inv(Apply(s, Advance(t)))
  {
    var s' := Apply(s, Advance(t));
    var r := s.threads[t];
    var out := r.rpc.out;
    var e := Got(t, r.requests[|r.results|], out);
    var q := Replay(s.log).value;
    assert Local(s, t);
    Others(s, s', t);
    assert Local(s', t) by {
      BySnoc(s.log, e, t);
      GotsOfSnoc(t, r.requests, r.results, out);
    }
    assert q == out + s.bytes;
    assert |out| == r.rpc.want;
    assert out == q[..|out|] && s.bytes == q[|out|..];
    ReplaySnoc(s.log, e);
    WritersStay(s, s', t);
  }

  lemma Wake(s: State, t: Tid, timedOut: bool)
    requires Inv(s) && t in s.threads && Asleep(s.threads[t])
    requires timedOut ==> s.threads[t].requests[|s.threads[t].results|].timed
    ensures Inv(Put1(s, t, s.threads[t].(rpc := Waking(timedOut))))
  {
    var s' := Put1(s, t, s.threads[t].(rpc := Waking(timedOut)));
    assert Local(s, t);
    Others(s, s', t);
    assert Local(s', t);
    WritersStay(s, s', t);
  }

  lemma Hangup(s: State, step: Step)
    requires Inv(s) && (step.Drop? || step.Announce?)
    ensures Inv(Apply(s, step))
  {
    var s' := Apply(s, step);
    forall t | t in s'.threads
      ensures Local(s', t)
    {
      assert Local(s, t);
    }
    if step.Announce? && s' != s {
      NobodyAsleep(s');
    }
  }

  lemma StepKeepsInv(s: State, step: Step)
    requires Inv(s)
    ensures Inv(Apply(s, step))
  {
    match step {
      case Drop => Hangup(s, step);
      case Announce => Hangup(s, step);
      case Spurious(t) => if t in s.threads && Asleep(s.threads[t]) { Wake(s, t, false); }
      case Timeout(t) =>
        if t in s.threads && Asleep(s.threads[t]) {
          assert Local(s, t);
          if s.threads[t].requests[|s.threads[t].results|].timed { Wake(s, t, true); }
        }
      case Advance(t) =>
        if t in s.threads {
          assert Local(s, t);
          if s.threads[t].Writer? { WriterKeepsInv(s, t); } else { ReaderKeepsInv(s, t); }
        }
    }
  }

  lemma WriterKeepsInv(s: State, t: Tid)
    requires Inv(s) && t in s.threads && s.threads[t].Writer?
    ensures Inv(Apply(s, Advance(t)))
  {
    var w := s.threads[t];
    assert Local(s, t);
    match w.wpc {
      case Away => StartAppend(s, t);
      case Appending(copied) => if copied < |w.payloads[w.done]| { Copy(s, t); } else { Commit(s, t); }
      case Notifying => Notify(s, t);
    }
  }

  lemma ReaderKeepsInv(s: State, t: Tid)
    requires Inv(s) && t in s.threads && s.threads[t].Reader?
    ensures Inv(Apply(s, Advance(t)))
  {
    var r := s.threads[t];
    assert Local(s, t);
    if |r.results| < |r.requests| {
      match r.rpc {
        case Outside =>
          var request := r.requests[|r.results|];
          if !request.all && request.limit == 0 { ReadNothing(s, t); } else { Enter(s, t); }
        case Checking(_) => Check(s, t);
        case Dozing => Doze(s, t);
        case Sleeping =>
        case Waking(_) => Enter(s, t);
        case Taking(out, want) => if |out| < want && s.bytes != [] { Pop(s, t); } else { Finish(s, t); }
      }
    }
  }

  // ---- Every run -----------------------------------------------------------------------------

  lemma {:induction false} RunKeepsInv(s: State, schedule: seq<Step>)
    requires Init(s)
    ensures Inv(Run(s, schedule))
  {
    forall t | t in s.threads
      ensures Local(s, t)
    {
      assert Fresh(s.threads[t]);
    }
    RunFromKeepsInv(s, schedule);
  }

  lemma {:induction false} RunFromKeepsInv(s: State, schedule: seq<Step>)
    requires Inv(s)
    ensures Inv(Run(s, schedule))
  {
    if schedule != [] {
      RunFromKeepsInv(s, schedule[..|schedule| - 1]);
      StepKeepsInv(Run(s, schedule[..|schedule| - 1]), schedule[|schedule| - 1]);
    }
  }

  /** A step changes neither which threads there are nor what they set out to do. */
  ghost predicate SameProgram(a: Thread, b: Thread) {
    match a
    case Writer(payloads, _, _) => b.Writer? && b.payloads == payloads
    case Reader(requests, _, _) => b.Reader? && b.requests == requests
  }

  lemma {:induction false} RunKeepsPrograms(s: State, schedule: seq<Step>)
    ensures Run(s, schedule).threads.Keys == s.threads.Keys && Run(s, schedule).mqtt == s.mqtt
    ensures forall t :: t in s.threads ==> SameProgram(s.threads[t], Run(s, schedule).threads[t])
  {
    if schedule != [] {
      RunKeepsPrograms(s, schedule[..|schedule| - 1]);
      StepKeepsPrograms(Run(s, schedule[..|schedule| - 1]), schedule[|schedule| - 1]);
    }
  }

  lemma StepKeepsPrograms(s: State, step: Step)
    ensures Apply(s, step).threads.Keys == s.threads.Keys && Apply(s, step).mqtt == s.mqtt
    ensures forall t :: t in s.threads ==> SameProgram(s.threads[t], Apply(s, step).threads[t])
  {
    match step {
      case Advance(t) => if t in s.threads { MoveKeepsProgram(s, t); }
      case _ =>
    }
  }

  lemma MoveKeepsProgram(s: State, t: Tid)
    requires t in s.threads
    ensures Apply(s, Advance(t)).threads.Keys == s.threads.Keys && Apply(s, Advance(t)).mqtt == s.mqtt
    ensures forall u :: u in s.threads ==> SameProgram(s.threads[u], Apply(s, Advance(t)).threads[u])
  {
    var th := s.threads[t];
    if th.Writer? && th.wpc.Notifying? {
      WakeAllKeepsPrograms(s.threads);
      OneMoved(s.threads, WakeAll(s.threads), t, th.(wpc := Away, done := th.done + 1));
    } else {
      var s' := Apply(s, Advance(t));
      MovedAlone(s, t);
      var th' :| SameProgram(th, th') && s'.threads == s.threads[t := th'];
      OneMoved(s.threads, s.threads, t, th');
    }
  }

  lemma WakeAllKeepsPrograms(threads: map<Tid, Thread>)
    ensures WakeAll(threads).Keys == threads.Keys
    ensures forall t :: t in threads ==> SameProgram(threads[t], WakeAll(threads)[t])
  {
  }

  lemma OneMoved(before: map<Tid, Thread>, after: map<Tid, Thread>, t: Tid, th: Thread)
    requires after.Keys == before.Keys && t in before && SameProgram(before[t], th)
    requires forall u :: u in before ==> SameProgram(before[u], after[u])
    ensures after[t := th].Keys == before.Keys
    ensures forall u :: u in before ==> SameProgram(before[u], after[t := th][u])
  {
  }

  /** A move other than a notification changes one thread, at most. */
  lemma MovedAlone(s: State, t: Tid)
    requires t in s.threads && !(s.threads[t].Writer? && s.threads[t].wpc.Notifying?)
    ensures Apply(s, Advance(t)).mqtt == s.mqtt
    ensures exists th :: SameProgram(s.threads[t], th) && Apply(s, Advance(t)).threads == s.threads[t := th]
  {
    var th := s.threads[t];
    assert s.threads == s.threads[t := th];
    if th.Writer? {
      var moved := WriterMoved(s, t, th);
      assert SameProgram(th, moved);
    } else {
      var moved := ReaderMoved(s, t, th);
      assert SameProgram(th, moved);
    }
  }

  lemma WriterMoved(s: State, t: Tid, w: Thread) returns (moved: Thread)
    requires s.threads == s.threads[t := w] && w.Writer? && !w.wpc.Notifying?
    ensures AdvanceWriter(s, t, w).mqtt == s.mqtt
    ensures moved.Writer? && moved.payloads == w.payloads && AdvanceWriter(s, t, w).threads == s.threads[t := moved]
  {
    moved := w;
    if AdvanceWriter(s, t, w) != s {
      moved := AdvanceWriter(s, t, w).threads[t];
    }
  }

  lemma ReaderMoved(s: State, t: Tid, r: Thread) returns (moved: Thread)
    requires s.threads == s.threads[t := r] && r.Reader?
    ensures AdvanceReader(s, t, r).mqtt == s.mqtt
    ensures moved.Reader? && moved.requests == r.requests && AdvanceReader(s, t, r).threads == s.threads[t := moved]
  {
    moved := r;
    if |r.results| < |r.requests| {
      var request := r.requests[|r.results|];
      match r.rpc {
        case Outside =>
          if !request.all && request.limit == 0 {
            moved := r.(results := r.results + [[]]);
          } else if s.lock == None {
            moved := r.(rpc := Checking(false));
          }
        case Checking(timedOut) =>
          moved := r.(rpc := if s.bytes == [] && request.blocking && s.connected && !timedOut
                             then Dozing else Taking([], Share(request, s.bytes)));
        case Dozing => moved := r.(rpc := Sleeping);
        case Sleeping =>
        case Waking(timedOut) => if s.lock == None { moved := r.(rpc := Checking(timedOut)); }
        case Taking(out, want) =>
          moved := if |out| < want && s.bytes != [] then r.(rpc := Taking(out + [s.bytes[0]], want))
                   else r.(rpc := Outside, results := r.results + [out]);
      }
    }
  }

  lemma StepGrowsLog(s: State, step: Step)
    ensures s.log <= Apply(s, step).log
    ensures forall i :: |s.log| <= i < |Apply(s, step).log| ==> Apply(s, step).log[i].tid in s.threads
  {
    var s' := Apply(s, step);
    match step {
      case Advance(t) =>
        if s'.log != s.log {
          var e := s'.log[|s.log|];
          assert s'.log == s.log + [e] && e.tid == t;
        }
      case _ => assert s'.log == s.log;
    }
  }

  lemma {:induction false} LogGrows(s: State, schedule: seq<Step>)
    ensures s.log <= Run(s, schedule).log
  {
    if schedule != [] {
      LogGrows(s, schedule[..|schedule| - 1]);
      StepGrowsLog(Run(s, schedule[..|schedule| - 1]), schedule[|schedule| - 1]);
    }
  }

  /** The blocks appended to, and the blocks removed from, the queue. */
  function Appended(log: seq<Event>): seq<seq<byte>> {
    if log == [] then []
    else
      Appended(log[..|log| - 1]) + match log[|log| - 1] case Put(_, p) => [p] case Got(_, _, _) => []
  }

  function Removed(log: seq<Event>): seq<seq<byte>> {
    if log == [] then []
    else
      Removed(log[..|log| - 1]) + match log[|log| - 1] case Put(_, _) => [] case Got(_, _, out) => [out]
  }

  /** Conservation: what was ever appended is what was removed followed by what is left, in order. */
  lemma {:induction false} Conservation(log: seq<Event>)
    requires Replay(log).Some?
    ensures Flatten(Appended(log)) == Flatten(Removed(log)) + Replay(log).value
  {
    if log != [] {
      var before := log[..|log| - 1];
      Conservation(before);
      var q := Replay(before).value;
      match log[|log| - 1] {
        case Put(_, p) =>
          FlattenSnoc(Appended(before), p);
          Reassociate(Flatten(Removed(before)), q, p);
          assert Removed(log) == Removed(before);
        case Got(_, _, out) =>
          FlattenSnoc(Removed(before), out);
          assert q == out + q[|out|..];
          Reassociate(Flatten(Removed(before)), out, q[|out|..]);
          assert Appended(log) == Appended(before);
      }
    }
  }

  /** One read of the sequential queue, in terms of the request alone: it takes the front of what is there,
      no more than asked for, and leaves bytes behind only at its limit. */
  predicate ReadOk(before: seq<byte>, request: Request, out: seq<byte>, after: seq<byte>) {
    && before == out + after
    && (request.all || |out| <= request.limit)
    && (after != [] ==> !request.all && |out| == request.limit)
  }

  /** What happens to the queue at one event of the log. */
  ghost predicate EventOk(log: seq<Event>, k: nat)
    requires k < |log|
  {
    && Replay(log[..k]).Some? && Replay(log[..k + 1]).Some?
    && match log[k]
       case Put(_, payload) => Replay(log[..k + 1]).value == Replay(log[..k]).value + payload
       case Got(_, request, out) => ReadOk(Replay(log[..k]).value, request, out, Replay(log[..k + 1]).value)
  }

  lemma {:induction false} EventsOk(log: seq<Event>, k: nat)
    requires Replay(log).Some? && k < |log|
    ensures EventOk(log, k)
  {
    var before := log[..|log| - 1];
    if k < |before| {
      EventsOk(before, k);
      assert before[..k] == log[..k] && before[..k + 1] == log[..k + 1];
    } else {
      assert log[..k] == before && log[..k + 1] == log;
      var q := Replay(before).value;
      match log[k] {
        case Put(_, _) =>
        case Got(_, request, out) => assert q == out + q[|out|..];
      }
    }
  }

  /** What a finished read returned is what its request allows. */
  predicate WithinLimits(th: Thread) {
    th.Reader? ==>
      && |th.results| <= |th.requests|
      && forall i :: 0 <= i < |th.results| ==> th.requests[i].all || |th.results[i]| <= th.requests[i].limit
  }

  lemma ResultsWithinLimits(f: State, t: Tid)
    requires Inv(f) && t in f.threads
    ensures WithinLimits(f.threads[t])
  {
    assert Local(f, t);
    var th := f.threads[t];
    if th.Reader? {
      forall i | 0 <= i < |th.results|
        ensures th.requests[i].all || |th.results[i]| <= th.requests[i].limit
      {
        InBy(f.log, t, i);
        var k :| 0 <= k < |f.log| && f.log[k] == By(f.log, t)[i];
        EventsOk(f.log, k);
      }
    }
  }

  /** Linearizability. Under every schedule the critical sections, in the order they ended, form a run
      of the sequential queue; each thread's sections are exactly its finished calls with the results
      they returned, in its program's order; a write adds its block at the end, a read takes the front, no
      more than asked for, and less only if it leaves nothing; while nobody holds the lock the deque is that
      queue; and calls finished before an extension of the schedule come before everything in the extension. */
  lemma Linearizable(s: State, schedule: seq<Step>, more: seq<Step>)
    requires Init(s)
    ensures var f := Run(s, schedule);
            && Replay(f.log).Some?
            && (f.lock == None ==> f.bytes == Replay(f.log).value)
            && Flatten(Appended(f.log)) == Flatten(Removed(f.log)) + Replay(f.log).value
            && f.threads.Keys == s.threads.Keys
            && (forall t :: t in f.threads ==>
                 && SameProgram(s.threads[t], f.threads[t])
                 && ProgramOk(f.log, t, f.threads[t])
                 && WithinLimits(f.threads[t]))
            && (forall k :: 0 <= k < |f.log| ==> EventOk(f.log, k))
            && f.log <= Run(s, schedule + more).log
  {
    RunKeepsInv(s, schedule);
    RunKeepsPrograms(s, schedule);
    var f := Run(s, schedule);
    Conservation(f.log);
    forall t | t in f.threads
      ensures ProgramOk(f.log, t, f.threads[t]) && WithinLimits(f.threads[t])
    {
      assert Local(f, t);
      ResultsWithinLimits(f, t);
    }
    forall k | 0 <= k < |f.log|
      ensures EventOk(f.log, k)
    {
      EventsOk(f.log, k);
    }
    Runs.RunConcat(Apply, s, schedule, more);
    LogGrows(f, more);
  }

  /** No lost wakeup, under every schedule: a reader asleep on a non-empty buffer has a writer that has
      appended and not yet notified: it holds the lock, still appending, or stands between its unlock and
      its notification. */
  lemma NoLostWakeup(s: State, schedule: seq<Step>, t: Tid)
    requires Init(s)
    requires var f := Run(s, schedule); t in f.threads && Asleep(f.threads[t]) && f.bytes != []
    ensures var f := Run(s, schedule);
            exists w :: w in f.threads && Active(f.threads[w]) && (f.threads[w].wpc.Notifying? || f.lock == Some(w))
  {
    RunKeepsInv(s, schedule);
    var f := Run(s, schedule);
    var w :| w in f.threads && Active(f.threads[w]);
    assert Local(f, w);
  }

  lemma {:induction false} InBy(log: seq<Event>, t: Tid, i: nat)
    requires i < |By(log, t)|
    ensures exists k :: 0 <= k < |log| && log[k] == By(log, t)[i]
  {
    var before := log[..|log| - 1];
    if i < |By(before, t)| {
      InBy(before, t, i);
      var k :| 0 <= k < |before| && before[k] == By(before, t)[i];
      assert log[k] == By(log, t)[i];
    } else {
      assert log[|log| - 1] == By(log, t)[i];
    }
  }

  /** A blocking read of something, without a timeout, never comes back empty-handed on a GATT
      endpoint; on the MQTT queue it does so only once the connection is gone. */
  lemma NeverEmptyHanded(s: State, schedule: seq<Step>, t: Tid, i: nat)
    requires Init(s)
    requires var f := Run(s, schedule); t in f.threads && f.threads[t].Reader? && i < |f.threads[t].results|
    ensures var f := Run(s, schedule);
            && i < |f.threads[t].requests|
            && var r := f.threads[t].requests[i];
               r.blocking && !r.timed && (r.all || r.limit > 0) && (!s.mqtt || f.connected) ==>
                 f.threads[t].results[i] != []
  {
    RunKeepsInv(s, schedule);
    RunKeepsPrograms(s, schedule);
    var f := Run(s, schedule);
    assert Local(f, t);
    InBy(f.log, t, i);
    var k :| 0 <= k < |f.log| && f.log[k] == By(f.log, t)[i];
  }

  /** Deadlock freedom: when no thread can move by itself, every writer has finished all its calls, and
      every reader has too or is asleep, in a blocking call, on an empty buffer. */
  lemma QuiescentMeansDrained(s: State, schedule: seq<Step>, t: Tid)
    requires Init(s)
    requires forall u :: u in Run(s, schedule).threads ==> Apply(Run(s, schedule), Advance(u)) == Run(s, schedule)
    requires t in Run(s, schedule).threads
    ensures var f := Run(s, schedule);
            match f.threads[t]
            case Writer(payloads, done, pc) => pc == Away && done == |payloads|
            case Reader(requests, results, pc) =>
              || (pc == Outside && |results| == |requests|)
              || (pc == Sleeping && f.bytes == [] && |results| < |requests| && requests[|results|].blocking)
  {
    RunKeepsInv(s, schedule);
    var f := Run(s, schedule);
    LockFree(f);
    assert Local(f, t);
    assert Apply(f, Advance(t)) == f;
    Moves(f, t);
    if Asleep(f.threads[t]) && f.bytes != [] {
      var w :| w in f.threads && Active(f.threads[w]);
      assert Local(f, w);
      assert Apply(f, Advance(w)) == f;
      Moves(f, w);
    }
  }

  lemma LockFree(f: State)
    requires Inv(f) && forall u :: u in f.threads ==> Apply(f, Advance(u)) == f
    ensures f.lock == None
  {
    if f.lock.Some? {
      var h := f.lock.value;
      assert Local(f, h);
      assert Apply(f, Advance(h)) == f;
      Moves(f, h);
    }
  }

  /** Which threads can move. */
  lemma Moves(f: State, t: Tid)
    requires t in f.threads && Local(f, t)
    ensures Holds(f.threads[t]) ==> Apply(f, Advance(t)) != f
    ensures f.threads[t].Writer? && f.threads[t].wpc.Notifying? ==> Apply(f, Advance(t)) != f
    ensures f.lock == None && f.threads[t].Writer? && f.threads[t].done < |f.threads[t].payloads| ==>
              Apply(f, Advance(t)) != f
    ensures f.lock == None && f.threads[t].Reader? && !f.threads[t].rpc.Sleeping?
            && |f.threads[t].results| < |f.threads[t].requests| ==>
              Apply(f, Advance(t)) != f
  {
    var g := Apply(f, Advance(t));
    match f.threads[t] {
      case Writer(payloads, done, pc) =>
        match pc {
          case Away => assert f.lock == None && done < |payloads| ==> g.lock == Some(t);
          case Appending(copied) => assert g.log != f.log || g.bytes != f.bytes;
          case Notifying => assert g.threads[t].wpc == Away;
        }
      case Reader(requests, results, pc) =>
        if |results| < |requests| {
          match pc {
            case Outside => assert f.lock == None ==> g.lock == Some(t) || g.log != f.log;
            case Checking(_) => assert !g.threads[t].rpc.Checking?;
            case Dozing => assert g.lock == None;
            case Sleeping =>
            case Waking(_) => assert f.lock == None ==> g.lock == Some(t);
            case Taking(_, _) => assert g.log != f.log || g.bytes != f.bytes;
          }
        }
    }
  }

  // ---- One producer --------------------------------------------------------------------------

  lemma {:induction false} BySeen(log: seq<Event>, i: nat)
    requires i < |log|
    ensures log[i] in By(log, log[i].tid)
  {
    var before := log[..|log| - 1];
    if i < |before| {
      BySeen(before, i);
      assert before[i] == log[i];
    }
  }

  lemma {:induction false} AppendedBy(log: seq<Event>, w: Tid)
    requires forall i :: 0 <= i < |log| && log[i].Put? ==> log[i].tid == w
    ensures Appended(log) == Appended(By(log, w))
  {
    if log != [] {
      var before := log[..|log| - 1];
      AppendedBy(before, w);
      var last := log[|log| - 1];
      if last.tid == w {
        assert By(log, w)[..|By(log, w)| - 1] == By(before, w);
      } else {
        assert Appended(log) == Appended(before);
        assert By(log, w) == By(before, w);
      }
    }
  }

  lemma {:induction false} RemovedBy(log: seq<Event>, r: Tid)
    requires forall i :: 0 <= i < |log| && log[i].Got? ==> log[i].tid == r
    ensures Removed(log) == Removed(By(log, r))
  {
    if log != [] {
      var before := log[..|log| - 1];
      RemovedBy(before, r);
      var last := log[|log| - 1];
      if last.tid == r {
        assert By(log, r)[..|By(log, r)| - 1] == By(before, r);
      } else {
        assert Removed(log) == Removed(before);
        assert By(log, r) == By(before, r);
      }
    }
  }

  lemma {:induction false} AppendedPuts(t: Tid, payloads: seq<seq<byte>>, n: nat)
    requires n <= |payloads|
    ensures Appended(PutsOf(t, payloads, n)) == payloads[..n]
  {
    if n > 0 {
      AppendedPuts(t, payloads, n - 1);
      PutsOfSnoc(t, payloads, n - 1);
      var puts := PutsOf(t, payloads, n);
      assert puts[..|puts| - 1] == PutsOf(t, payloads, n - 1);
      assert payloads[..n] == payloads[..n - 1] + [payloads[n - 1]];
    }
  }

  lemma {:induction false} RemovedGots(t: Tid, requests: seq<Request>, results: seq<seq<byte>>)
    requires |results| <= |requests|
    ensures Removed(GotsOf(t, requests, results)) == results
  {
    if results != [] {
      var before := results[..|results| - 1];
      RemovedGots(t, requests, before);
      GotsOfSnoc(t, requests, before, results[|results| - 1]);
      assert before + [results[|results| - 1]] == results;
      var gots := GotsOf(t, requests, results);
      assert gots[..|gots| - 1] == GotsOf(t, requests, before);
    }
  }

  /** Every event in the log belongs to a thread of the system. */
  ghost predicate AuthorsOk(s: State) {
    forall i :: 0 <= i < |s.log| ==> s.log[i].tid in s.threads
  }

  lemma {:induction false} RunKeepsAuthors(s: State, schedule: seq<Step>)
    requires Init(s)
    ensures AuthorsOk(Run(s, schedule))
  {
    if schedule != [] {
      var before := Run(s, schedule[..|schedule| - 1]);
      RunKeepsAuthors(s, schedule[..|schedule| - 1]);
      StepKeepsPrograms(before, schedule[|schedule| - 1]);
      StepGrowsLog(before, schedule[|schedule| - 1]);
    }
  }

  lemma AuthorKind(f: State, i: nat)
    requires Inv(f) && AuthorsOk(f) && i < |f.log|
    ensures f.log[i].tid in f.threads
    ensures f.log[i].Put? ==> f.threads[f.log[i].tid].Writer?
    ensures f.log[i].Got? ==> f.threads[f.log[i].tid].Reader?
  {
    var t := f.log[i].tid;
    assert Local(f, t);
    BySeen(f.log, i);
  }

  /** One producer, as for the MQTT receiver thread: what was appended is a prefix of its payloads, in
      order, and with the lock free every byte of it has been read, in order, or still waits. */
  lemma OneWriter(s: State, schedule: seq<Step>, w: Tid)
    requires Init(s) && w in s.threads && s.threads[w].Writer?
    requires forall t :: t in s.threads && s.threads[t].Writer? ==> t == w
    ensures var f := Run(s, schedule);
            && w in f.threads && f.threads[w].Writer? && PutCount(f.threads[w]) <= |s.threads[w].payloads|
            && Appended(f.log) == s.threads[w].payloads[..PutCount(f.threads[w])]
            && (f.lock == None ==>
                Flatten(Removed(f.log)) + f.bytes == Flatten(s.threads[w].payloads[..PutCount(f.threads[w])]))
  {
    Linearizable(s, schedule, []);
    RunKeepsInv(s, schedule);
    var f := Run(s, schedule);
    assert SameProgram(s.threads[w], f.threads[w]) && ProgramOk(f.log, w, f.threads[w]);
    RunKeepsAuthors(s, schedule);
    forall i | 0 <= i < |f.log| && f.log[i].Put?
      ensures f.log[i].tid == w
    {
      AuthorKind(f, i);
      assert SameProgram(s.threads[f.log[i].tid], f.threads[f.log[i].tid]);
    }
    AppendedBy(f.log, w);
    AppendedPuts(w, s.threads[w].payloads, PutCount(f.threads[w]));
  }

  /** One producer and one consumer: the results the consumer got, joined, and the bytes left are what
      the producer has appended. */
  lemma OneWriterOneReader(s: State, schedule: seq<Step>, w: Tid, r: Tid)
    requires Init(s) && s.threads.Keys == {w, r} && s.threads[w].Writer? && s.threads[r].Reader?
    ensures var f := Run(s, schedule);
            && f.threads.Keys == {w, r} && f.threads[w].Writer? && f.threads[r].Reader?
            && PutCount(f.threads[w]) <= |s.threads[w].payloads|
            && (f.lock == None ==>
                Flatten(f.threads[r].results) + f.bytes == Flatten(s.threads[w].payloads[..PutCount(f.threads[w])]))
  {
    OneWriter(s, schedule, w);
    Linearizable(s, schedule, []);
    RunKeepsInv(s, schedule);
    var f := Run(s, schedule);
    assert SameProgram(s.threads[r], f.threads[r]) && ProgramOk(f.log, r, f.threads[r]);
    RunKeepsAuthors(s, schedule);
    forall i | 0 <= i < |f.log| && f.log[i].Got?
      ensures f.log[i].tid == r
    {
      AuthorKind(f, i);
    }
    RemovedBy(f.log, r);
    RemovedGots(r, f.threads[r].requests, f.threads[r].results);
  }

  // ---- The end of an MQTT connection ---------------------------------------------------------

  lemma {:induction false} LateStays(s: State, more: seq<Step>)
    requires s.announced
    ensures Run(s, more).announced && Run(s, more).late == s.late
  {
    if more != [] {
      LateStays(s, more[..|more| - 1]);
      StepKeepsLate(Run(s, more[..|more| - 1]), more[|more| - 1]);
    }
  }

  lemma StepKeepsLate(s: State, step: Step)
    requires s.announced
    ensures Apply(s, step).announced && Apply(s, step).late == s.late
  {
  }

  /** The moment of the receiver thread's last notification: the flag is down, nothing is announced yet. */
  predicate Ending(s: State) {
    s.mqtt && !s.connected && !s.announced
  }

  /** Whoever sleeps at any time after that notification was, when it was issued, the reader between its
      check and its wait. There is at most one: it held the lock. */
  lemma OnlyTheLateReaderSleepsOn(s: State, before: seq<Step>, more: seq<Step>, t: Tid)
    requires Init(s) && Ending(Run(s, before))
    requires var g := Run(Apply(Run(s, before), Announce), more); t in g.threads && Asleep(g.threads[t])
    ensures var f := Run(s, before);
            t in f.threads && AboutToWait(f.threads[t]) && f.lock == Some(t)
  {
    RunKeepsInv(s, before);
    var f := Run(s, before);
    var end := Apply(f, Announce);
    StepKeepsInv(f, Announce);
    RunFromKeepsInv(end, more);
    LateStays(end, more);
    assert Local(Run(end, more), t);
  }

  /** The end of the connection wakes every reader for good, whatever happens afterwards, if and only if
      no reader stands between its check and its wait when it is announced. */
  lemma EndIsHeard(s: State, before: seq<Step>)
    requires Init(s) && Ending(Run(s, before))
    ensures var f := Run(s, before);
            (forall more: seq<Step>, t: Tid :: t in Run(Apply(f, Announce), more).threads ==>
                !Asleep(Run(Apply(f, Announce), more).threads[t]))
            <==> forall t: Tid :: t in f.threads ==> !AboutToWait(f.threads[t])
  {
    var f := Run(s, before);
    var end := Apply(f, Announce);
    if t: Tid :| t in f.threads && AboutToWait(f.threads[t]) {
      RunKeepsInv(s, before);
      FallsAsleep(f, t);
      assert t in Run(end, [Advance(t)]).threads;
    } else {
      forall more: seq<Step>, t: Tid | t in Run(end, more).threads
        ensures !Asleep(Run(end, more).threads[t])
      {
        if Asleep(Run(end, more).threads[t]) {
          OnlyTheLateReaderSleepsOn(s, before, more, t);
        }
      }
    }
  }

  /** A reader already past its check waits, notified or not. */
  lemma FallsAsleep(f: State, t: Tid)
    requires Inv(f) && Ending(f) && t in f.threads && AboutToWait(f.threads[t])
    ensures var g := Run(Apply(f, Announce), [Advance(t)]); t in g.threads && Asleep(g.threads[t])
  {
    assert Local(f, t);
    var end := Apply(f, Announce);
    assert end.threads[t] == f.threads[t];
    Runs.RunOne(Apply, end, Advance(t));
  }

  // ---- The flag alone ------------------------------------------------------------------------

  /** The steps that wake a sleeping reader: its own spurious wakeup or timeout, and notifications. */
  predicate Wakes(s: State, step: Step, t: Tid)
    requires t in s.threads && Asleep(s.threads[t])
  {
    match step
    case Spurious(u) => u == t
    case Timeout(u) =>
      u == t && |s.threads[t].results| < |s.threads[t].requests| && s.threads[t].requests[|s.threads[t].results|].timed
    case Announce => Ending(s)
    case Advance(w) => w in s.threads && s.threads[w].Writer? && s.threads[w].wpc.Notifying?
    case Drop => false
  }

  lemma StepWakes(s: State, step: Step, t: Tid)
    requires t in s.threads && Asleep(s.threads[t])
    ensures t in Apply(s, step).threads
    ensures Asleep(Apply(s, step).threads[t]) <==> !Wakes(s, step, t)
    ensures !Wakes(s, step, t) ==> Apply(s, step).threads[t] == s.threads[t]
  {
    if step.Advance? && step.t in s.threads {
      if step.t == t {
        assert Apply(s, step) == s;
      } else if s.threads[step.t].Writer? {
        WriterWakes(s, step.t, t);
      } else {
        ReaderWakes(s, step.t, t);
      }
    }
  }

  lemma WriterWakes(s: State, w: Tid, t: Tid)
    requires t in s.threads && Asleep(s.threads[t]) && w in s.threads && s.threads[w].Writer?
    ensures t in Apply(s, Advance(w)).threads
    ensures Apply(s, Advance(w)).threads[t] == if s.threads[w].wpc.Notifying? then Awake(s.threads[t]) else s.threads[t]
  {
    if !s.threads[w].wpc.Notifying? {
      MovedAlone(s, w);
    }
  }

  lemma ReaderWakes(s: State, u: Tid, t: Tid)
    requires t in s.threads && u in s.threads && s.threads[u].Reader? && u != t
    ensures t in Apply(s, Advance(u)).threads && Apply(s, Advance(u)).threads[t] == s.threads[t]
  {
    MovedAlone(s, u);
  }

  ghost predicate SleepsOn(s: State, more: seq<Step>, t: Tid) {
    forall k :: 0 <= k <= |more| ==> t in Run(s, more[..k]).threads && Asleep(Run(s, more[..k]).threads[t])
  }

  ghost predicate NeverWoken(s: State, more: seq<Step>, t: Tid) {
    forall k :: 0 <= k < |more| ==> NotWokenAt(s, more, k, t)
  }

  ghost predicate NotWokenAt(s: State, more: seq<Step>, k: nat, t: Tid)
    requires k < |more|
  {
    var f := Run(s, more[..k]);
    t in f.threads && Asleep(f.threads[t]) ==> !Wakes(f, more[k], t)
  }

  /** A sleeping reader sleeps on, under any schedule, if and only if none of its steps wakes it. */
  lemma {:induction false} SleepsUntilWoken(s: State, more: seq<Step>, t: Tid)
    requires t in s.threads && Asleep(s.threads[t])
    ensures SleepsOn(s, more, t) <==> NeverWoken(s, more, t)
  {
    if more == [] {
      assert more[..0] == [];
    } else {
      var n := |more| - 1;
      var before := more[..n];
      SleepsUntilWoken(s, before, t);
      assert forall k :: 0 <= k <= n ==> before[..k] == more[..k];
      assert more[..n + 1] == more;
      var f := Run(s, before);
      if SleepsOn(s, before, t) {
        assert t in Run(s, before[..n]).threads && before[..n] == before;
        StepWakes(f, more[n], t);
        assert Run(s, more) == Apply(f, more[n]);
        SleepsOnSnoc(s, more, t);
      } else {
        var k :| 0 <= k <= n && !(t in Run(s, before[..k]).threads && Asleep(Run(s, before[..k]).threads[t]));
        assert before[..k] == more[..k];
        var j :| 0 <= j < n && !NotWokenAt(s, before, j, t);
        assert before[..j] == more[..j] && before[j] == more[j];
        assert !NotWokenAt(s, more, j, t);
      }
    }
  }

  lemma SleepsOnSnoc(s: State, more: seq<Step>, t: Tid)
    requires more != [] && SleepsOn(s, more[..|more| - 1], t)
    ensures SleepsOn(s, more, t) <==> t in Run(s, more).threads && Asleep(Run(s, more).threads[t])
    ensures t in Run(s, more[..|more| - 1]).threads && Asleep(Run(s, more[..|more| - 1]).threads[t])
    ensures NeverWoken(s, more, t) <==>
              NeverWoken(s, more[..|more| - 1], t) && !Wakes(Run(s, more[..|more| - 1]), more[|more| - 1], t)
  {
    var n := |more| - 1;
    var before := more[..n];
    assert before[..n] == before && more[..n + 1] == more;
    forall k | 0 <= k <= n
      ensures before[..k] == more[..k]
    {
    }
    assert t in Run(s, before[..n]).threads && Asleep(Run(s, before[..n]).threads[t]);
    NeverWokenSnoc(s, more, t);
  }

  lemma NeverWokenSnoc(s: State, more: seq<Step>, t: Tid)
    requires more != []
    requires var f := Run(s, more[..|more| - 1]); t in f.threads && Asleep(f.threads[t])
    ensures NeverWoken(s, more, t) <==>
              NeverWoken(s, more[..|more| - 1], t) && !Wakes(Run(s, more[..|more| - 1]), more[|more| - 1], t)
  {
    var n := |more| - 1;
    var before := more[..n];
    forall k | 0 <= k < n
      ensures before[..k] == more[..k] && before[k] == more[k]
    {
    }
    if NeverWoken(s, more, t) {
      forall k | 0 <= k < n
        ensures NotWokenAt(s, before, k, t)
      {
        assert NotWokenAt(s, more, k, t);
      }
      assert NotWokenAt(s, more, n, t);
    }
    if NeverWoken(s, before, t) && !Wakes(Run(s, before), more[n], t) {
      forall k | 0 <= k < |more|
        ensures NotWokenAt(s, more, k, t)
      {
        if k < n {
          assert NotWokenAt(s, before, k, t);
        }
      }
    }
  }

  /** A failed send lowers the flag and notifies nobody: a reader asleep without a timeout stays asleep for
      as long as no writer notifies, the end is not announced and it does not wake by itself. */
  lemma FlagWakesNobody(f: State, more: seq<Step>, t: Tid)
    requires t in f.threads && Asleep(f.threads[t]) && NeverWoken(Apply(f, Drop), more, t)
    ensures var g := Run(Apply(f, Drop), more); t in g.threads && Asleep(g.threads[t])
  {
    StepWakes(f, Drop, t);
    SleepsUntilWoken(Apply(f, Drop), more, t);
    assert more[..|more|] == more;
  }

  /** Such a reader exists: the flag and the notification do not take the lock, so both can fall between
      the check and the wait. The reader then sleeps although nobody is left to wake it. */
  lemma DisconnectionCanBeMissed()
    ensures var s := LoneReader();
            var f := Run(s, MISSED);
            && Init(s)
            && !f.connected && f.announced && 0 in f.threads && Asleep(f.threads[0])
            && (forall t :: t in f.threads ==> Apply(f, Advance(t)) == f)
            && Apply(f, Announce) == f
  {
    var s := LoneReader();
    var s1 := Apply(s, Advance(0));
    var s2 := Apply(s1, Advance(0));
    var s3 := Apply(s2, Drop);
    var s4 := Apply(s3, Announce);
    var s5 := Apply(s4, Advance(0));
    assert s2.threads[0].rpc == Dozing;
    assert Asleep(s5.threads[0]);
    Runs.RunOne(Apply, s, Advance(0));
    Runs.RunSnoc(Apply, s, [Advance(0)], Advance(0));
    Runs.RunSnoc(Apply, s, [Advance(0)] + [Advance(0)], Drop);
    Runs.RunSnoc(Apply, s, [Advance(0)] + [Advance(0)] + [Drop], Announce);
    Runs.RunSnoc(Apply, s, [Advance(0)] + [Advance(0)] + [Drop] + [Announce], Advance(0));
    assert Run(s, MISSED) == s5;
  }

  const MISSED: seq<Step> := [Advance(0)] + [Advance(0)] + [Drop] + [Announce] + [Advance(0)]

  function LoneReader(): State {
    State(map[0 := Reader([Request(true, 0, true, false)], [], Outside)], None, [], true, true, false, None, [])
  }
}
