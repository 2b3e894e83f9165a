/** The life of a UniTransmit object (src/UniTransmit.cpp): an owner thread that calls start, close and
    set_receive_callback in any order, and the background receiver thread, interleaved one shared
    access at a time. */
module Lifecycle {
  import opened Bytes
  import Runs

  datatype Op = Start | Close | SetCallback(present: bool)

  /** Where the owner stands. `Reset` parameters say whether the call is `close`. */
  datatype OwnerPc =
    | Idle
    | StartReceiver
    | MarkRunning
    | Spawn
    | StopReceiver(close: bool)
    | Join(close: bool)
    | ClearRunning(close: bool)
    | Reset(close: bool)

  /** Where the receiver thread stands: in its loop, and inside poll_receive at the calls of in_waiting,
      of read, of read_all behind a first byte, and of read_all. */
  datatype ThreadPc =
    | LoopTest | TransportTest | CopyCallback | AskWaiting | ReadFirst | ReadRest | ReadEverything
    | InCallback | LoopEnd | Exited

  /** `readBlocks` and `readAllBlocks` say whether these calls wait for data without a timeout: true of
      both for a blocking GATT, MQTT, serial or TCP client transport and for a TCP server with clients, of `read`
      alone for UDP, of neither for the loopback transport and for any that does not block or has a
      timeout. */
  datatype Kind = Kind(readBlocks: bool, readAllBlocks: bool)

  datatype State = State(
    kind: Kind,
    transport: bool,
    callback: bool,
    running: bool,
    stop: bool,
    thread: Option<ThreadPc>,   // Some: the std::thread is joinable
    owner: OwnerPc,
    calls: nat,                 // callback invocations so far
    sawNull: bool,              // the receiver found no transport
    terminated: bool)           // a joinable std::thread was overwritten

  /** What the transport has for the receiver's next call: data, nothing so far, or nothing for good,
      as when an MQTT connection has ended. */
  datatype Answer = Data | Nothing | HungUp

  /** `Owner(op)` lets the owner begin `op`, or go on with the call it is in; `Receiver(answer)` lets the
      receiver thread go on if it can: a call that waits for data stands still while there is none. */
  datatype Step = Owner(op: Op) | Receiver(answer: Answer)

  function OwnerStep(s: State, op: Op): State {
    if s.owner == Idle then Begin(s, op) else GoOn(s)
  }

  /** The owner's next call, up to its first shared access behind the call's own fields. */
  function Begin(s: State, op: Op): State {
    match op
    case Start =>
      if s.transport then s
      else s.(transport := true, owner := if s.callback then StartReceiver else Idle)
    case Close => s.(owner := StopReceiver(true))
    case SetCallback(present) =>
      s.(callback := present, owner := if present then StartReceiver else StopReceiver(false))
  }

  /** The next step of the call the owner is in. */
  function GoOn(s: State): State {
    match s.owner
    case Idle => s
    case StartReceiver =>
      if !s.transport || s.running then s.(owner := Idle) else s.(stop := false, owner := MarkRunning)
    case MarkRunning => s.(running := true, owner := Spawn)
    case Spawn =>
      if s.thread.Some? then s.(terminated := true, owner := Idle)
      else s.(thread := Some(LoopTest), owner := Idle)
    case StopReceiver(close) =>
      if !s.running then s.(owner := Reset(close)) else s.(stop := true, owner := Join(close))
    case Join(close) =>
      if s.thread.None? then s.(owner := ClearRunning(close))
      else if s.thread.value.Exited? then s.(thread := None, owner := ClearRunning(close))
      else s
    case ClearRunning(close) => s.(running := false, owner := Reset(close))
    case Reset(close) => s.(transport := s.transport && !close, owner := Idle)
  }

  function ReceiverStep(s: State, answer: Answer): State {
    match s.thread
    case None => s
    case Some(pc) =>
      s.(thread := Some(NextPc(s, pc, answer)),
         calls := s.calls + (if pc == InCallback then 1 else 0),
         sawNull := s.sawNull || (!s.transport && UsesTransport(pc)))
  }

  function NextPc(s: State, pc: ThreadPc, answer: Answer): ThreadPc {
    if Blocked(s, pc) && answer == Nothing then pc
    else
      match pc
      case LoopTest => if s.stop then Exited else TransportTest
      case TransportTest => if s.transport then CopyCallback else LoopTest
      case CopyCallback => if s.callback then AskWaiting else LoopEnd
      case AskWaiting => if answer == Data then ReadEverything else ReadFirst
      case ReadFirst => if answer == Data then ReadRest else LoopEnd
      case ReadRest => InCallback
      case ReadEverything => if answer == Data then InCallback else LoopEnd
      case InCallback => LoopEnd
      case LoopEnd => LoopTest
      case Exited => Exited
  }

  predicate UsesTransport(pc: ThreadPc) {
    pc == TransportTest || pc == AskWaiting || pc == ReadFirst || pc == ReadRest || pc == ReadEverything
  }

  /** A call that does not come back before there is data. */
  predicate Blocked(s: State, pc: ThreadPc) {
    (pc == ReadFirst && s.kind.readBlocks) || ((pc == ReadRest || pc == ReadEverything) && s.kind.readAllBlocks)
  }

  function Apply(s: State, step: Step): State {
    match step
    case Owner(op) => OwnerStep(s, op)
    case Receiver(answer) => ReceiverStep(s, answer)
  }

  function Run(s: State, schedule: seq<Step>): State {
    Runs.Run(Apply, s, schedule)
  }

  function New(readBlocks: bool, readAllBlocks: bool): State {
    State(Kind(readBlocks, readAllBlocks), false, false, false, false, None, Idle, 0, false, false)
  }

  // ---- What every step keeps -----------------------------------------------------------------

  predicate Joinable(s: State) {
    s.thread.Some?
  }

  /** The receiver is up and nobody has asked it to stop. */
  predicate Serving(s: State) {
    s.running && Joinable(s) && s.transport && !s.stop && !s.thread.value.Exited?
  }

  predicate AtRest(s: State) {
    !s.running && !Joinable(s)
  }

  predicate Inv(s: State) {
    && !s.sawNull && !s.terminated
    && match s.owner
       case Idle => if s.transport && s.callback then Serving(s) else AtRest(s)
       case StartReceiver => s.callback && (Serving(s) || AtRest(s))
       case MarkRunning => s.transport && s.callback && AtRest(s) && !s.stop
       case Spawn => s.transport && s.callback && s.running && !Joinable(s) && !s.stop
       case StopReceiver(close) => (Serving(s) || AtRest(s)) && (close || !s.callback)
       case Join(close) => s.running && Joinable(s) && s.transport && s.stop && (close || !s.callback)
       case ClearRunning(close) => s.running && !Joinable(s) && (close || !s.callback)
       case Reset(close) => AtRest(s) && (close || !s.callback)
  }

  lemma StepKeepsInv(s: State, step: Step)
    requires Inv(s)
    ensures Inv(Apply(s, step)) && Apply(s, step).kind == s.kind
  {
    match step {
      case Owner(op) => OwnerKeepsInv(s, op);
      case Receiver(answer) => ReceiverKeepsInv(s, answer);
    }
  }

  lemma OwnerKeepsInv(s: State, op: Op)
    requires Inv(s)
    ensures Inv(OwnerStep(s, op)) && OwnerStep(s, op).kind == s.kind
  {
    if s.owner == Idle {
      assert Inv(Begin(s, op)) && Begin(s, op).kind == s.kind;
    } else {
      assert Inv(GoOn(s)) && GoOn(s).kind == s.kind;
    }
  }

  lemma ReceiverKeepsInv(s: State, answer: Answer)
    requires Inv(s)
    ensures Inv(ReceiverStep(s, answer)) && ReceiverStep(s, answer).kind == s.kind
  {
  }

  lemma {:induction false} RunKeepsInv(readBlocks: bool, readAllBlocks: bool, schedule: seq<Step>)
    ensures Inv(Run(New(readBlocks, readAllBlocks), schedule))
    ensures Run(New(readBlocks, readAllBlocks), schedule).kind == Kind(readBlocks, readAllBlocks)
  {
    if schedule != [] {
      RunKeepsInv(readBlocks, readAllBlocks, schedule[..|schedule| - 1]);
      StepKeepsInv(Run(New(readBlocks, readAllBlocks), schedule[..|schedule| - 1]), schedule[|schedule| - 1]);
    }
  }

  /** Under every schedule of any calls, on any transport: between calls the receiver is marked running
      exactly when both a transport and a callback exist, and exactly when its thread is joinable; a
      joinable thread is never overwritten; the thread never finds the transport gone; and whenever the
      owner is past a join no thread is left. */
  lemma LifecycleHolds(readBlocks: bool, readAllBlocks: bool, schedule: seq<Step>)
    ensures var s := Run(New(readBlocks, readAllBlocks), schedule);
            && (s.owner == Idle ==>
                 && (s.running <==> s.transport && s.callback)
                 && (s.running <==> Joinable(s))
                 && (s.running ==> !s.stop))
            && !s.terminated && !s.sawNull
            && (Joinable(s) ==> s.transport && s.running)
            && (s.owner.ClearRunning? || s.owner.Reset? ==> !Joinable(s))
  {
    RunKeepsInv(readBlocks, readAllBlocks, schedule);
  }

  // ---- What a call leaves --------------------------------------------------------------------

  /** Somewhere inside a call of `op` begun in `s`, or at its end. */
  predicate During(s: State, op: Op, g: State) {
    && g.callback == (match op case SetCallback(present) => present case _ => s.callback)
    && match g.owner
       case Idle => g.transport == (match op case Start => true case Close => false case SetCallback(_) => s.transport)
       case StopReceiver(close) => Stopping(s, op, g, close)
       case Join(close) => Stopping(s, op, g, close)
       case ClearRunning(close) => Stopping(s, op, g, close)
       case Reset(close) => Stopping(s, op, g, close)
       case _ => !op.Close? && g.transport == (op.Start? || s.transport)
  }

  predicate Stopping(s: State, op: Op, g: State, close: bool) {
    !op.Start? && close == op.Close? && g.transport == s.transport
  }

  lemma BeginIsDuring(s: State, op: Op)
    requires s.owner == Idle
    ensures During(s, op, Apply(s, Owner(op)))
  {
  }

  lemma StaysDuring(s: State, op: Op, g: State, step: Step)
    requires During(s, op, g) && g.owner != Idle
    ensures During(s, op, Apply(g, step))
  {
    match step {
      case Owner(_) => GoOnDuring(s, op, g);
      case Receiver(answer) => ReceiverUnseen(g, answer);
    }
  }

  lemma GoOnDuring(s: State, op: Op, g: State)
    requires During(s, op, g) && g.owner != Idle
    ensures During(s, op, GoOn(g))
  {
    match g.owner {
      case StopReceiver(close) =>
      case Join(close) =>
      case ClearRunning(close) =>
      case Reset(close) =>
      case _ =>
    }
  }

  lemma ReceiverUnseen(g: State, answer: Answer)
    ensures var g' := ReceiverStep(g, answer);
            g'.owner == g.owner && g'.transport == g.transport && g'.callback == g.callback
  {
  }

  lemma {:induction false} RunsDuring(s: State, op: Op, steps: seq<Step>)
    requires s.owner == Idle
    requires forall k :: 0 <= k < |steps| ==> Run(Apply(s, Owner(op)), steps[..k]).owner != Idle
    ensures During(s, op, Run(Apply(s, Owner(op)), steps))
  {
    if steps == [] {
      BeginIsDuring(s, op);
    } else {
      var n := |steps| - 1;
      assert forall k :: 0 <= k < n ==> steps[..n][..k] == steps[..k];
      RunsDuring(s, op, steps[..n]);
      StaysDuring(s, op, Run(Apply(s, Owner(op)), steps[..n]), steps[n]);
    }
  }

  /** Whatever the receiver does in between, once a call has returned: `start` leaves a transport, `close`
      none and no thread, neither touches the callback; `set_receive_callback` leaves the callback it was
      given and the transport as it was; and the receiver runs exactly if both are there. So a `start`
      after `close` serves again if there is a callback. */
  lemma CallLeaves(readBlocks: bool, readAllBlocks: bool, schedule: seq<Step>, op: Op, steps: seq<Step>)
    requires Run(New(readBlocks, readAllBlocks), schedule).owner == Idle
    requires var begun := Apply(Run(New(readBlocks, readAllBlocks), schedule), Owner(op));
             && (forall k :: 0 <= k < |steps| ==> Run(begun, steps[..k]).owner != Idle)
             && Run(begun, steps).owner == Idle
    ensures var s := Run(New(readBlocks, readAllBlocks), schedule);
            var f := Run(Apply(s, Owner(op)), steps);
            && (op.Start? ==> f.transport && f.callback == s.callback)
            && (op.Close? ==> !f.transport && f.callback == s.callback)
            && (op.SetCallback? ==> f.callback == op.present && f.transport == s.transport)
            && (f.running <==> f.transport && f.callback) && (Joinable(f) <==> f.running)
  {
    var new_ := New(readBlocks, readAllBlocks);
    var s := Run(new_, schedule);
    RunsDuring(s, op, steps);
    Runs.RunSnoc(Apply, new_, schedule, Owner(op));
    Runs.RunConcat(Apply, new_, schedule + [Owner(op)], steps);
    RunKeepsInv(readBlocks, readAllBlocks, schedule + [Owner(op)] + steps);
  }

  // ---- Serving -------------------------------------------------------------------------------

  function Traffic(n: nat): seq<Step> {
    seq(n, _ => Receiver(Data))
  }

  /** How many calls away the next callback is, with data there whenever it is asked for. */
  function StepsToCall(pc: ThreadPc): nat {
    match pc
    case InCallback => 1
    case ReadRest => 2
    case ReadEverything => 2
    case AskWaiting => 3
    case ReadFirst => 3
    case CopyCallback => 4
    case TransportTest => 5
    case LoopTest => 6
    case LoopEnd => 7
    case Exited => 8
  }

  lemma {:induction false} TrafficServed(s: State, n: nat)
    requires Inv(s) && s.owner == Idle && Serving(s) && s.callback
    ensures var f := Run(s, Traffic(n));
            && Inv(f) && f.owner == Idle && Serving(f) && f.callback && f.calls >= s.calls
            && (f.calls > s.calls || n + StepsToCall(f.thread.value) <= StepsToCall(s.thread.value))
  {
    if n > 0 {
      TrafficServed(s, n - 1);
      assert Traffic(n)[..n - 1] == Traffic(n - 1);
      var f := Run(s, Traffic(n - 1));
      ReceiverKeepsInv(f, Data);
      assert Run(s, Traffic(n)) == Apply(f, Receiver(Data));
    }
  }

  /** A receiver that is running serves: wherever its thread stands, in every reachable state between
      calls, seven of its steps with data there run a callback at least. */
  lemma DataReachesCallback(readBlocks: bool, readAllBlocks: bool, schedule: seq<Step>)
    requires var s := Run(New(readBlocks, readAllBlocks), schedule); s.owner == Idle && s.running
    ensures var s := Run(New(readBlocks, readAllBlocks), schedule); Run(s, Traffic(7)).calls > s.calls
  {
    RunKeepsInv(readBlocks, readAllBlocks, schedule);
    TrafficServed(Run(New(readBlocks, readAllBlocks), schedule), 7);
  }

  // ---- Stopping ------------------------------------------------------------------------------

  ghost predicate OnlyReceiver(steps: seq<Step>) {
    forall i :: 0 <= i < |steps| ==> steps[i].Receiver?
  }

  lemma {:induction false} NothingMoves(s: State, steps: seq<Step>)
    requires !Joinable(s) && OnlyReceiver(steps)
    ensures Run(s, steps) == s
  {
    if steps != [] {
      NothingMoves(s, steps[..|steps| - 1]);
      assert steps[|steps| - 1].Receiver?;
    }
  }

  /** After `close` or `set_receive_callback(nullptr)` has returned, nothing the receiver could do, for
      however long, runs a callback: the object stays as it is until the owner's next call. */
  lemma NoCallbackAfterStop(readBlocks: bool, readAllBlocks: bool, schedule: seq<Step>, later: seq<Step>)
    requires var s := Run(New(readBlocks, readAllBlocks), schedule); s.owner == Idle && (!s.transport || !s.callback)
    requires OnlyReceiver(later)
    ensures Run(New(readBlocks, readAllBlocks), schedule + later) == Run(New(readBlocks, readAllBlocks), schedule)
  {
    RunKeepsInv(readBlocks, readAllBlocks, schedule);
    Runs.RunConcat(Apply, New(readBlocks, readAllBlocks), schedule, later);
    NothingMoves(Run(New(readBlocks, readAllBlocks), schedule), later);
  }

  /** An upper bound on the calls and tests between the thread and its exit, once it has been asked to
      stop. */
  function StepsToExit(pc: ThreadPc): nat {
    match pc
    case Exited => 0
    case LoopTest => 1
    case LoopEnd => 2
    case InCallback => 3
    case ReadRest => 4
    case ReadEverything => 4
    case ReadFirst => 5
    case AskWaiting => 6
    case CopyCallback => 7
    case TransportTest => 8
  }

  /** The steps at which the transport had an answer other than "nothing so far". */
  function Answered(steps: seq<Step>): nat {
    if steps == [] then 0
    else
      Answered(steps[..|steps| - 1])
      + if steps[|steps| - 1].Receiver? && steps[|steps| - 1].answer != Nothing then 1 else 0
  }

  /** The owner is in its join: it waits there, and the receiver can only go on towards its exit. */
  lemma JoinStep(s: State, answer: Answer)
    requires Inv(s) && s.owner.Join?
    ensures var s' := Apply(s, Receiver(answer));
            && Inv(s') && s'.owner == s.owner && s'.thread.Some?
            && s' == s.(thread := s'.thread, calls := s'.calls)
            && (if s.thread.value == Exited || (Blocked(s, s.thread.value) && answer == Nothing) then s' == s
                else StepsToExit(s'.thread.value) < StepsToExit(s.thread.value))
            && s'.calls <= s.calls + (if s.thread.value == InCallback then 1 else 0)
  {
  }

  /** However long it takes, a stop that has begun runs at most one more callback, and none after a step
      past it; every answer of the transport brings the exit nearer, so a join ends if enough come. */
  lemma {:induction false} AnswersEndJoin(s: State, steps: seq<Step>)
    requires Inv(s) && s.owner.Join? && OnlyReceiver(steps)
    ensures var f := Run(s, steps);
            && f.owner == s.owner && f.thread.Some? && Inv(f)
            && f == s.(thread := f.thread, calls := f.calls)
            && StepsToExit(f.thread.value) <= Max(StepsToExit(s.thread.value) - Answered(steps), 0)
            && (Answered(steps) >= StepsToExit(s.thread.value) ==> f.thread == Some(Exited))
            && f.calls <= s.calls
               + (if StepsToExit(f.thread.value) >= 3 || StepsToExit(s.thread.value) < 3 then 0 else 1)
  {
    if steps != [] {
      var last := steps[|steps| - 1];
      AnswersEndJoin(s, steps[..|steps| - 1]);
      assert last.Receiver?;
      JoinStep(Run(s, steps[..|steps| - 1]), last.answer);
    }
  }

  /** The thread is, or may still come, where a call waits for data without a timeout: it stands at such a
      call or before it, with the callback already taken or still there to be taken. */
  predicate MayBlock(s: State)
    requires s.thread.Some?
  {
    match s.thread.value
    case TransportTest => s.callback && (s.kind.readBlocks || s.kind.readAllBlocks)
    case CopyCallback => s.callback && (s.kind.readBlocks || s.kind.readAllBlocks)
    case AskWaiting => s.kind.readBlocks || s.kind.readAllBlocks
    case ReadFirst => s.kind.readBlocks || s.kind.readAllBlocks
    case ReadRest => s.kind.readAllBlocks
    case ReadEverything => s.kind.readAllBlocks
    case _ => false
  }

  lemma {:induction false} NeverBlocks(s: State, steps: seq<Step>)
    requires Inv(s) && s.owner.Join? && OnlyReceiver(steps) && !MayBlock(s)
    ensures var f := Run(s, steps);
            && f.owner == s.owner && f.thread.Some? && Inv(f) && !MayBlock(f)
            && f == s.(thread := f.thread, calls := f.calls)
            && StepsToExit(f.thread.value) <= Max(StepsToExit(s.thread.value) - |steps|, 0)
  {
    if steps != [] {
      var last := steps[|steps| - 1];
      NeverBlocks(s, steps[..|steps| - 1]);
      assert last.Receiver?;
      JoinStep(Run(s, steps[..|steps| - 1]), last.answer);
    }
  }

  function Silence(n: nat): seq<Step> {
    seq(n, _ => Receiver(Nothing))
  }

  lemma {:induction false} StandsStill(s: State, n: nat)
    requires Inv(s) && s.owner.Join? && Blocked(s, s.thread.value)
    ensures Run(s, Silence(n)) == s
  {
    if n > 0 {
      StandsStill(s, n - 1);
      assert Silence(n)[..n - 1] == Silence(n - 1);
      JoinStep(s, Nothing);
    }
  }

  /** The answers that lead a thread which may block to a call that does. */
  function Lead(s: State): seq<Step>
    requires s.thread.Some? && MayBlock(s)
  {
    var answer := if s.kind.readBlocks then Nothing else Data;
    match s.thread.value
    case TransportTest => [Receiver(Nothing), Receiver(Nothing), Receiver(answer)]
    case CopyCallback => [Receiver(Nothing), Receiver(answer)]
    case AskWaiting => [Receiver(answer)]
    case ReadFirst => if s.kind.readBlocks then [] else [Receiver(Data)]
    case _ => []
  }

  lemma LeadBlocks(s: State)
    requires Inv(s) && s.owner.Join? && MayBlock(s)
    ensures var f := Run(s, Lead(s));
            Inv(f) && f.owner == s.owner && f.thread.Some? && Blocked(f, f.thread.value) && OnlyReceiver(Lead(s))
  {
    var steps := Lead(s);
    assert Run(s, []) == s;
    if |steps| >= 1 {
      Runs.RunOne(Apply, s, steps[0]);
      assert steps[..1] == [steps[0]];
    }
    if |steps| >= 2 {
      assert steps[..2][..1] == steps[..1];
      assert Run(s, steps[..2]) == Apply(Run(s, steps[..1]), steps[1]);
    }
    assert steps[..|steps|] == steps;
    AnswersEndJoin(s, steps);
  }

  /** When a join ends for certain: whatever the transport has for the receiver, eight of the receiver's
      steps are enough, if and only if the thread cannot come to a call that waits without a timeout. */
  lemma JoinEnds(s: State)
    requires Inv(s) && s.owner.Join?
    ensures (forall steps: seq<Step> :: OnlyReceiver(steps) && |steps| >= 8 ==> Run(s, steps).thread == Some(Exited))
            <==> !MayBlock(s)
  {
    if MayBlock(s) {
      var f := Run(s, Lead(s));
      LeadBlocks(s);
      StandsStill(f, 8);
      Runs.RunConcat(Apply, s, Lead(s), Silence(8));
      assert Run(s, Lead(s) + Silence(8)) == f;
      assert OnlyReceiver(Lead(s) + Silence(8));
    } else {
      forall steps: seq<Step> | OnlyReceiver(steps) && |steps| >= 8
        ensures Run(s, steps).thread == Some(Exited)
      {
        NeverBlocks(s, steps);
      }
    }
  }

  /** And otherwise it may never end: some answers leave the owner joining, for as long as nothing more
      arrives, if and only if the thread may come to such a call. */
  lemma JoinHangs(s: State)
    requires Inv(s) && s.owner.Join?
    ensures MayBlock(s) <==>
            exists lead: seq<Step> :: OnlyReceiver(lead) && forall n: nat :: Joining(Run(s, lead + Silence(n)))
  {
    if MayBlock(s) {
      var lead := Lead(s);
      LeadBlocks(s);
      forall n: nat
        ensures Joining(Run(s, lead + Silence(n)))
      {
        StandsStill(Run(s, lead), n);
        Runs.RunConcat(Apply, s, lead, Silence(n));
      }
    } else {
      forall lead: seq<Step> | OnlyReceiver(lead)
        ensures !Joining(Run(s, lead + Silence(8)))
      {
        assert OnlyReceiver(lead + Silence(8));
        NeverBlocks(s, lead + Silence(8));
      }
    }
  }

  /** The owner waits for a thread that has not left its loop. */
  predicate Joining(s: State) {
    s.owner.Join? && s.thread.Some? && s.thread.value != Exited
  }

  /** The thread will wait for data if none comes: it goes through `read` once it has a callback. */
  predicate BlocksInSilence(s: State)
    requires s.thread.Some?
  {
    match s.thread.value
    case TransportTest => s.callback && s.kind.readBlocks
    case CopyCallback => s.callback && s.kind.readBlocks
    case AskWaiting => s.kind.readBlocks
    case pc => Blocked(s, pc)
  }

  lemma {:induction false} SilentRun(s: State, n: nat)
    requires Inv(s) && s.owner.Join?
    ensures var f := Run(s, Silence(n));
            && Inv(f) && f.owner == s.owner && f.thread.Some? && f == s.(thread := f.thread, calls := f.calls)
            && BlocksInSilence(f) == BlocksInSilence(s)
            && (!BlocksInSilence(s) ==> StepsToExit(f.thread.value) <= Max(StepsToExit(s.thread.value) - n, 0))
  {
    if n > 0 {
      SilentRun(s, n - 1);
      assert Silence(n)[..n - 1] == Silence(n - 1);
      JoinStep(Run(s, Silence(n - 1)), Nothing);
    }
  }

  /** Without any traffic, the case of a quiet peer: the join ends, within eight steps, if and only if the
      thread does not come to wait; otherwise it never does. */
  lemma QuietJoinEnds(s: State, n: nat)
    requires Inv(s) && s.owner.Join? && n >= 8
    ensures Run(s, Silence(n)).thread == Some(Exited) <==> !BlocksInSilence(s)
  {
    SilentRun(s, n);
  }

  /** How a receiver comes to wait in `read`: the calls of doc/usage.md:131-144 on a quiet transport. */
  const STARTED: seq<Step> :=
    [Owner(Start)] + [Owner(SetCallback(true))] + [Owner(Start)] + [Owner(Start)] + [Owner(Start)]
  const QUIET_START: seq<Step> :=
    STARTED + [Receiver(Nothing)] + [Receiver(Nothing)] + [Receiver(Nothing)] + [Receiver(Nothing)]

  function Receiving(readBlocks: bool, readAllBlocks: bool, pc: ThreadPc): State {
    State(Kind(readBlocks, readAllBlocks), true, true, true, false, Some(pc), Idle, 0, false, false)
  }

  /** The documented way to stop, and `close` alike, hang on a quiet transport that blocks without a
      timeout, the default: the owner is in its join and stays there until something arrives. */
  lemma StopHangsWhenQuiet(readAllBlocks: bool, stop: Op, n: nat)
    requires stop == Close || stop == SetCallback(false)
    ensures var s := Run(New(true, readAllBlocks), QUIET_START + [Owner(stop)] + [Owner(stop)] + Silence(n));
            s.owner == Join(stop == Close) && s.thread == Some(ReadFirst)
  {
    var s := New(true, readAllBlocks);
    var quiet := Run(s, QUIET_START);
    QuietStart(true, readAllBlocks);
    Runs.RunSnoc(Apply, s, QUIET_START, Owner(stop));
    Runs.RunSnoc(Apply, s, QUIET_START + [Owner(stop)], Owner(stop));
    var joining := Run(s, QUIET_START + [Owner(stop)] + [Owner(stop)]);
    Runs.RunConcat(Apply, s, QUIET_START + [Owner(stop)] + [Owner(stop)], Silence(n));
    RunKeepsInv(true, readAllBlocks, QUIET_START + [Owner(stop)] + [Owner(stop)]);
    StandsStill(joining, n);
  }

  lemma QuietStart(readBlocks: bool, readAllBlocks: bool)
    ensures Run(New(readBlocks, readAllBlocks), QUIET_START) == Receiving(readBlocks, readAllBlocks, ReadFirst)
  {
    var s := New(readBlocks, readAllBlocks);
    Started(readBlocks, readAllBlocks);
    Runs.RunSnoc(Apply, s, STARTED, Receiver(Nothing));
    Runs.RunSnoc(Apply, s, STARTED + [Receiver(Nothing)], Receiver(Nothing));
    Runs.RunSnoc(Apply, s, STARTED + [Receiver(Nothing)] + [Receiver(Nothing)], Receiver(Nothing));
    Runs.RunSnoc(Apply, s, STARTED + [Receiver(Nothing)] + [Receiver(Nothing)] + [Receiver(Nothing)],
                 Receiver(Nothing));
    assert Apply(Receiving(readBlocks, readAllBlocks, LoopTest), Receiver(Nothing))
        == Receiving(readBlocks, readAllBlocks, TransportTest);
    assert Apply(Receiving(readBlocks, readAllBlocks, TransportTest), Receiver(Nothing))
        == Receiving(readBlocks, readAllBlocks, CopyCallback);
    assert Apply(Receiving(readBlocks, readAllBlocks, CopyCallback), Receiver(Nothing))
        == Receiving(readBlocks, readAllBlocks, AskWaiting);
    assert Apply(Receiving(readBlocks, readAllBlocks, AskWaiting), Receiver(Nothing))
        == Receiving(readBlocks, readAllBlocks, ReadFirst);
  }

  lemma Started(readBlocks: bool, readAllBlocks: bool)
    ensures Run(New(readBlocks, readAllBlocks), STARTED) == Receiving(readBlocks, readAllBlocks, LoopTest)
  {
    var s := New(readBlocks, readAllBlocks);
    var a := [Owner(Start)];
    var b := a + [Owner(SetCallback(true))];
    var c := b + [Owner(Start)];
    var withTransport := s.(transport := true);
    var withCallback := withTransport.(callback := true, owner := StartReceiver);
    var marking := withCallback.(owner := MarkRunning);
    var spawning := marking.(running := true, owner := Spawn);
    Runs.RunOne(Apply, s, Owner(Start));
    assert Run(s, a) == withTransport;
    Runs.RunSnoc(Apply, s, a, Owner(SetCallback(true)));
    assert Run(s, b) == withCallback;
    Runs.RunSnoc(Apply, s, b, Owner(Start));
    assert Run(s, c) == marking;
    Runs.RunSnoc(Apply, s, c, Owner(Start));
    assert Run(s, c + [Owner(Start)]) == spawning;
    Runs.RunSnoc(Apply, s, c + [Owner(Start)], Owner(Start));
    assert Apply(spawning, Owner(Start)) == Receiving(readBlocks, readAllBlocks, LoopTest);
  }

  /** Close right behind the thread's test for a transport. */
  const CLOSE_EARLY: seq<Step> := STARTED + [Receiver(Nothing)] + [Owner(Close)] + [Owner(Close)]

  lemma CloseEarly(readBlocks: bool, readAllBlocks: bool)
    ensures Run(New(readBlocks, readAllBlocks), CLOSE_EARLY)
            == Receiving(readBlocks, readAllBlocks, TransportTest).(owner := Join(true), stop := true)
  {
    var s := New(readBlocks, readAllBlocks);
    Started(readBlocks, readAllBlocks);
    Runs.RunSnoc(Apply, s, STARTED, Receiver(Nothing));
    Runs.RunSnoc(Apply, s, STARTED + [Receiver(Nothing)], Owner(Close));
    Runs.RunSnoc(Apply, s, STARTED + [Receiver(Nothing)] + [Owner(Close)], Owner(Close));
  }

  /** Every join of a run ends within eight of the receiver's steps. */
  ghost predicate JoinsEnd(s: State, schedule: seq<Step>) {
    Run(s, schedule).owner.Join? ==>
      forall steps: seq<Step> :: OnlyReceiver(steps) && |steps| >= 8 ==>
        Run(Run(s, schedule), steps).thread == Some(Exited)
  }

  /** In a caller's terms: stopping is certain to end, whenever it is called, if and only if the transport
      does not block, or has a timeout. */
  lemma StopsEndUnlessBlocking(readBlocks: bool, readAllBlocks: bool)
    ensures (forall schedule: seq<Step> :: JoinsEnd(New(readBlocks, readAllBlocks), schedule))
            <==> !readBlocks && !readAllBlocks
  {
    var s := New(readBlocks, readAllBlocks);
    if readBlocks || readAllBlocks {
      RunKeepsInv(readBlocks, readAllBlocks, CLOSE_EARLY);
      CloseEarly(readBlocks, readAllBlocks);
      JoinEnds(Run(s, CLOSE_EARLY));
      assert !JoinsEnd(s, CLOSE_EARLY);
    } else {
      forall schedule: seq<Step>
        ensures JoinsEnd(s, schedule)
      {
        RunKeepsInv(readBlocks, readAllBlocks, schedule);
        if Run(s, schedule).owner.Join? {
          JoinEnds(Run(s, schedule));
        }
      }
    }
  }

  // ---- A single byte -------------------------------------------------------------------------

  lemma {:induction false} Withheld(s: State, n: nat)
    requires s.thread == Some(ReadRest) && s.kind.readAllBlocks && s.transport
    ensures Run(s, Silence(n)) == s
  {
    if n > 0 {
      Withheld(s, n - 1);
      assert Silence(n)[..n - 1] == Silence(n - 1);
    }
  }

  lemma HandedOver(s: State, n: nat)
    requires s.thread == Some(ReadRest) && !s.kind.readAllBlocks && n >= 2
    ensures Run(s, Silence(2)).calls == s.calls + 1
    ensures Run(s, Silence(n)) == Run(Run(s, Silence(2)), Silence(n - 2))
  {
    assert Silence(2) == [Receiver(Nothing)] + [Receiver(Nothing)];
    Runs.RunOne(Apply, s, Receiver(Nothing));
    Runs.RunSnoc(Apply, s, [Receiver(Nothing)], Receiver(Nothing));
    assert Silence(n) == Silence(2) + Silence(n - 2);
    Runs.RunConcat(Apply, s, Silence(2), Silence(n - 2));
  }

  lemma {:induction false} CallsGrow(s: State, n: nat)
    ensures Run(s, Silence(n)).calls >= s.calls
  {
    if n > 0 {
      CallsGrow(s, n - 1);
      assert Silence(n)[..n - 1] == Silence(n - 1);
    }
  }

  /** A byte that arrives while the thread waits in `read`, and is all that arrives: in every reachable
      state it reaches the callback if and only if `read_all`, called behind it, does not wait for more. */
  lemma SingleByteArrives(readBlocks: bool, readAllBlocks: bool, schedule: seq<Step>, n: nat)
    requires Run(New(readBlocks, readAllBlocks), schedule).thread == Some(ReadFirst) && n >= 2
    ensures var s := Run(New(readBlocks, readAllBlocks), schedule);
            Run(Apply(s, Receiver(Data)), Silence(n)).calls > s.calls <==> !readAllBlocks
  {
    var s := Run(New(readBlocks, readAllBlocks), schedule);
    LifecycleHolds(readBlocks, readAllBlocks, schedule);
    RunKeepsInv(readBlocks, readAllBlocks, schedule);
    var taken := Apply(s, Receiver(Data));
    if readAllBlocks {
      Withheld(taken, n);
    } else {
      HandedOver(taken, n);
      CallsGrow(Run(taken, Silence(2)), n - 2);
    }
  }

  /** So on a quiet GATT or MQTT transport that blocks without a timeout, a single byte is withheld. */
  lemma SingleByteWithheld(n: nat)
    requires n >= 2
    ensures var s := Run(Apply(Run(New(true, true), QUIET_START), Receiver(Data)), Silence(n));
            s.calls == 0 && s.thread == Some(ReadRest)
  {
    QuietStart(true, true);
    Withheld(Apply(Run(New(true, true), QUIET_START), Receiver(Data)), n);
  }

  function Max(a: int, b: int): int {
    if a >= b then a else b
  }
}
