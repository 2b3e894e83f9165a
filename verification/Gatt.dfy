/** GATT's process-wide registry of endpoint buffers and the life of the transports that use it
    (src/GATT.cpp). Registry operations are atomic under the registry mutex; appends and reads are
    atomic blocks, which is what module Monitor shows of the lock, deque and condition variable inside
    each buffer. Any number of constructors, destructors, writers and readers interleave. */
module Gatt {
  import opened Bytes
  import Runs
  import Streams
  import Text
  import Uri

  type Id = nat
  type Buf = nat

  datatype Key = Key(device: string, service: string, characteristic: string)

  datatype Config = Config(local: string, remote: string, service: string, tx: string, rx: string)

  /** The key a transport registers under, and the key it writes to. */
  function InKey(c: Config): Key {
    Key(c.local, c.service, c.rx)
  }

  function OutKey(c: Config): Key {
    Key(c.remote, c.service, c.tx)
  }

  // ---- The registry --------------------------------------------------------------------------

  /** `g_registry`: a map of weak references. `alive` stands for the buffers somebody still holds a
      strong reference to, so a reference outside it is expired. */
  class Registry {
    var slots: map<Key, Buf>

    constructor ()
      ensures slots == map[]
    {
      slots := map[];
    }

    /** Hands out the buffer of a live slot; otherwise the fresh one, which then fills the slot. */
    method RegisterEndpoint(key: Key, alive: set<Buf>, fresh_: Buf) returns (buf: Buf)
      modifies this
      ensures (slots, buf) == Registered(old(slots), key, alive, fresh_)
      ensures key in slots && slots[key] == buf
      ensures key in old(slots) && old(slots)[key] in alive ==> buf == old(slots)[key] && slots == old(slots)
      ensures !(key in old(slots) && old(slots)[key] in alive) ==> buf == fresh_
      ensures forall k :: k in old(slots) && k != key ==> k in slots && slots[k] == old(slots)[k]
      ensures forall k :: k in slots && k != key ==> k in old(slots)
    {
      if key in slots && slots[key] in alive {
        return slots[key];
      }
      slots := slots[key := fresh_];
      buf := fresh_;
    }

    /** The buffer of a live slot; an expired slot is erased on the way. */
    method FindEndpoint(key: Key, alive: set<Buf>) returns (buf: Option<Buf>)
      modifies this
      ensures (slots, buf) == Found(old(slots), key, alive)
      ensures buf.Some? <==> key in old(slots) && old(slots)[key] in alive
      ensures buf.Some? ==> slots == old(slots) && buf.value == slots[key]
      ensures buf.None? ==> slots == old(slots) - {key}
    {
      if key !in slots {
        assert slots == slots - {key};
        return None;
      }
      if slots[key] !in alive {
        slots := slots - {key};
        return None;
      }
      buf := Some(slots[key]);
    }

    /** Erases the slot if it is expired or names this very buffer. */
    method UnregisterEndpoint(key: Key, buf: Buf, alive: set<Buf>)
      modifies this
      ensures slots == Unregistered(old(slots), key, buf, alive)
      ensures key in slots ==> key in old(slots) && slots[key] != buf && slots[key] in alive
      ensures key in old(slots) && old(slots)[key] != buf && old(slots)[key] in alive ==> slots == old(slots)
      ensures slots - {key} == old(slots) - {key}
    {
      if key !in slots {
        return;
      }
      if slots[key] !in alive || slots[key] == buf {
        slots := slots - {key};
      }
    }
  }

  function Registered(slots: map<Key, Buf>, key: Key, alive: set<Buf>, fresh_: Buf): (map<Key, Buf>, Buf) {
    if key in slots && slots[key] in alive then (slots, slots[key]) else (slots[key := fresh_], fresh_)
  }

  function Found(slots: map<Key, Buf>, key: Key, alive: set<Buf>): (map<Key, Buf>, Option<Buf>) {
    if key !in slots then (slots, None)
    else if slots[key] !in alive then (slots - {key}, None)
    else (slots, Some(slots[key]))
  }

  function Unregistered(slots: map<Key, Buf>, key: Key, buf: Buf, alive: set<Buf>): map<Key, Buf> {
    if key !in slots then slots
    else if slots[key] !in alive || slots[key] == buf then slots - {key}
    else slots
  }

  // ---- The transition system -----------------------------------------------------------------

  /** A transport registered, holding a buffer; the constructor that has yet to store it; the destructor
      that has erased the slot and has yet to let go; and a transport gone for good. */
  datatype Phase = Constructing | Live | Leaving | Gone

  datatype Transport = Transport(cfg: Config, inbound: Buf, phase: Phase, since: nat)

  /** A write that has found its buffer, at time `at`. */
  datatype Write = Write(author: Id, key: Key, data: seq<byte>, buf: Buf, at: nat)

  /** The bytes waiting in a buffer, and those ever taken from it. */
  datatype Endpoint = Endpoint(contents: seq<byte>, taken: seq<byte>)

  datatype State = State(
    slots: map<Key, Buf>,
    endpoints: seq<Endpoint>,
    transports: map<Id, Transport>,
    writes: map<Id, Write>,
    acks: seq<Write>,
    retired: set<Buf>,
    clock: nat)

  datatype Step =
    | Construct(t: Id, cfg: Config)
    | Assign(t: Id)
    | Unregister(t: Id)
    | Release(t: Id)
    | Find(w: Id, t: Id, data: seq<byte>)
    | Append(w: Id)
    | Read(t: Id, limit: nat)

  /** The buffers with a strong reference: from a transport that has not let go, or from a write between
      its lookup and its return. */
  function Alive(s: State): set<Buf> {
    (set t | t in s.transports && s.transports[t].phase != Gone :: s.transports[t].inbound)
    + (set w | w in s.writes :: s.writes[w].buf)
  }

  function SetPhase(s: State, t: Id, phase: Phase): State
    requires t in s.transports
  {
    s.(transports := s.transports[t := s.transports[t].(phase := phase)])
  }

  predicate InPhase(s: State, t: Id, phase: Phase) {
    t in s.transports && s.transports[t].phase == phase
  }

  predicate CanFind(s: State, w: Id, t: Id, data: seq<byte>) {
    w !in s.writes && InPhase(s, t, Live) && data != [] && s.transports[t].cfg.remote != ""
  }

  /** What a write makes of the result of its lookup: it goes on with the buffer, or returns nothing. */
  function LookUp(s: State, w: Id, t: Id, data: seq<byte>, found: (map<Key, Buf>, Option<Buf>)): State
    requires t in s.transports
  {
    match found.1
    case None => s.(slots := found.0)
    case Some(buf) =>
      s.(slots := found.0, clock := s.clock + 1,
         writes := s.writes[w := Write(t, OutKey(s.transports[t].cfg), data, buf, s.clock + 1)])
  }

  /** A step that is not enabled leaves the state alone. */
  function Apply(s: State, step: Step): State {
    match step
    case Construct(t, cfg) =>
      if t in s.transports then s
      else
        var (slots, buf) := Registered(s.slots, InKey(cfg), Alive(s), |s.endpoints|);
        s.(slots := slots,
           endpoints := if buf == |s.endpoints| then s.endpoints + [Endpoint([], [])] else s.endpoints,
           transports := s.transports[t := Transport(cfg, buf, Constructing, s.clock)])
    case Assign(t) => if InPhase(s, t, Constructing) then SetPhase(s, t, Live) else s
    case Unregister(t) =>
      if InPhase(s, t, Live) then
        var tr := s.transports[t];
        SetPhase(s, t, Leaving)
        .(slots := Unregistered(s.slots, InKey(tr.cfg), tr.inbound, Alive(s)),
          retired := s.retired + {tr.inbound})
      else s
    case Release(t) => if InPhase(s, t, Leaving) then SetPhase(s, t, Gone) else s
    case Find(w, t, data) =>
      if CanFind(s, w, t, data) then
        LookUp(s, w, t, data, Found(s.slots, OutKey(s.transports[t].cfg), Alive(s)))
      else s
    case Append(w) =>
      if w in s.writes && s.writes[w].buf < |s.endpoints| then
        var op := s.writes[w];
        var e := s.endpoints[op.buf];
        s.(endpoints := s.endpoints[op.buf := e.(contents := e.contents + op.data)],
           writes := s.writes - {w},
           acks := s.acks + [op])
      else s
    case Read(t, limit) =>
      if InPhase(s, t, Live) && s.transports[t].inbound < |s.endpoints| then
        var b := s.transports[t].inbound;
        var e := s.endpoints[b];
        var n := Min(limit, |e.contents|);
        s.(endpoints := s.endpoints[b := Endpoint(e.contents[n..], e.taken + e.contents[..n])])
      else s
  }

  function Run(s: State, schedule: seq<Step>): State {
    Runs.Run(Apply, s, schedule)
  }

  const EMPTY: State := State(map[], [], map[], map[], [], {}, 0)

  // ---- What every step keeps -----------------------------------------------------------------

  /** Registered and not yet unregistered. */
  predicate Holding(tr: Transport) {
    tr.phase == Constructing || tr.phase == Live
  }

  ghost predicate Holder(transports: map<Id, Transport>, t: Id, key: Key, buf: Buf) {
    t in transports && Holding(transports[t]) && InKey(transports[t].cfg) == key && transports[t].inbound == buf
  }

  predicate Reachable(slots: map<Key, Buf>, tr: Transport) {
    InKey(tr.cfg) in slots && slots[InKey(tr.cfg)] == tr.inbound
  }

  /** Every slot names a buffer that nobody has unregistered and that a registered transport of that
      very key holds. */
  ghost predicate SlotsOk(slots: map<Key, Buf>, transports: map<Id, Transport>, retired: set<Buf>) {
    forall k :: k in slots ==> slots[k] !in retired && exists t :: Holder(transports, t, k, slots[k])
  }

  /** A registered transport is the one in its slot unless some transport sharing its buffer has
      unregistered; and a buffer belongs to one key. */
  ghost predicate TransportOk(slots: map<Key, Buf>, retired: set<Buf>, n: nat, clock: nat, tr: Transport) {
    && tr.inbound < n && tr.since <= clock
    && (Holding(tr) ==> (Reachable(slots, tr) <==> tr.inbound !in retired))
  }

  ghost predicate TransportsOk(slots: map<Key, Buf>, transports: map<Id, Transport>, retired: set<Buf>, n: nat,
                               clock: nat)
  {
    && (forall t :: t in transports ==> TransportOk(slots, retired, n, clock, transports[t]))
    && (forall b :: b in retired ==> b < n)
  }

  ghost predicate OneKey(transports: map<Id, Transport>) {
    forall t, u :: t in transports && u in transports && transports[t].inbound == transports[u].inbound ==>
      InKey(transports[t].cfg) == InKey(transports[u].cfg)
  }

  /** What holds of a write from the moment it found its buffer: some transport of the key it was
      addressed to registered that buffer before, and every transport reachable since before the
      lookup is the one it found. */
  ghost predicate WriteOk(slots: map<Key, Buf>, transports: map<Id, Transport>, n: nat, clock: nat, op: Write) {
    && op.buf < n && op.at <= clock
    && op.author in transports && op.key == OutKey(transports[op.author].cfg)
    && (forall t :: t in transports && transports[t].inbound == op.buf ==> InKey(transports[t].cfg) == op.key)
    && (exists t :: t in transports && transports[t].inbound == op.buf && transports[t].since < op.at)
    && (forall t :: t in transports && Routed(slots, transports[t], op) ==> op.buf == transports[t].inbound)
  }

  predicate Routed(slots: map<Key, Buf>, tr: Transport, op: Write) {
    Holding(tr) && Reachable(slots, tr) && InKey(tr.cfg) == op.key && op.at > tr.since
  }

  ghost predicate WritesOk(s: State) {
    && (forall w :: w in s.writes ==> WriteOk(s.slots, s.transports, |s.endpoints|, s.clock, s.writes[w]))
    && (forall i :: 0 <= i < |s.acks| ==> WriteOk(s.slots, s.transports, |s.endpoints|, s.clock, s.acks[i]))
  }

  /** The data of the writes that went to one buffer, in order. */
  function DataTo(acks: seq<Write>, buf: Buf): seq<seq<byte>> {
    if acks == [] then []
    else DataTo(acks[..|acks| - 1], buf) + if acks[|acks| - 1].buf == buf then [acks[|acks| - 1].data] else []
  }

  /** Conservation per buffer: the writes to it, whole and in order, are what was taken and what waits. */
  ghost predicate EndpointsOk(endpoints: seq<Endpoint>, acks: seq<Write>) {
    && (forall i :: 0 <= i < |acks| ==> acks[i].buf < |endpoints|)
    && (forall b :: 0 <= b < |endpoints| ==>
         Flatten(DataTo(acks, b)) == endpoints[b].taken + endpoints[b].contents)
  }

  ghost predicate Inv(s: State) {
    && SlotsOk(s.slots, s.transports, s.retired)
    && TransportsOk(s.slots, s.transports, s.retired, |s.endpoints|, s.clock)
    && OneKey(s.transports)
    && WritesOk(s)
    && EndpointsOk(s.endpoints, s.acks)
  }

  lemma SlotAlive(s: State, k: Key)
    requires SlotsOk(s.slots, s.transports, s.retired) && k in s.slots
    ensures s.slots[k] in Alive(s)
  {
    var t :| Holder(s.transports, t, k, s.slots[k]);
    assert s.transports[t].phase != Gone;
  }

  /** How transports may change without a write noticing: nobody becomes reachable again, and whoever
      is new came after every lookup so far. */
  ghost predicate Evolves(s: State, s': State) {
    && |s'.endpoints| >= |s.endpoints| && s'.clock >= s.clock
    && s.transports.Keys <= s'.transports.Keys
    && (forall t :: t in s.transports ==> NoCloser(s.slots, s.transports[t], s'.slots, s'.transports[t]))
    && (forall t :: t in s'.transports && t !in s.transports ==> s'.transports[t].since >= s.clock)
  }

  predicate NoCloser(slots: map<Key, Buf>, tr: Transport, slots': map<Key, Buf>, tr': Transport) {
    && tr'.cfg == tr.cfg && tr'.inbound == tr.inbound && tr'.since == tr.since
    && (Holding(tr') && Reachable(slots', tr') ==> Holding(tr) && Reachable(slots, tr))
  }

  /** A new transport that shares a buffer shares its key. */
  ghost predicate Newcomers(s: State, s': State, op: Write) {
    forall t :: t in s'.transports && t !in s.transports && s'.transports[t].inbound == op.buf ==>
      InKey(s'.transports[t].cfg) == op.key
  }

  lemma WriteKept(s: State, s': State, op: Write)
    requires WriteOk(s.slots, s.transports, |s.endpoints|, s.clock, op) && Evolves(s, s') && Newcomers(s, s', op)
    ensures WriteOk(s'.slots, s'.transports, |s'.endpoints|, s'.clock, op)
  {
    var t :| t in s.transports && s.transports[t].inbound == op.buf && s.transports[t].since < op.at;
    assert t in s'.transports && NoCloser(s.slots, s.transports[t], s'.slots, s'.transports[t]);
    forall u | u in s'.transports && Routed(s'.slots, s'.transports[u], op)
      ensures op.buf == s'.transports[u].inbound
    {
      if u in s.transports {
        assert NoCloser(s.slots, s.transports[u], s'.slots, s'.transports[u]);
        assert Routed(s.slots, s.transports[u], op);
      }
    }
    forall u | u in s'.transports && s'.transports[u].inbound == op.buf
      ensures InKey(s'.transports[u].cfg) == op.key
    {
      if u in s.transports {
        assert NoCloser(s.slots, s.transports[u], s'.slots, s'.transports[u]);
      }
    }
  }

  lemma WritesKept(s: State, s': State)
    requires WritesOk(s) && s'.writes == s.writes && s'.acks == s.acks
    requires Evolves(s, s')
    requires forall w :: w in s.writes ==> Newcomers(s, s', s.writes[w])
    requires forall i :: 0 <= i < |s.acks| ==> Newcomers(s, s', s.acks[i])
    ensures WritesOk(s')
  {
    forall w | w in s'.writes
      ensures WriteOk(s'.slots, s'.transports, |s'.endpoints|, s'.clock, s'.writes[w])
    {
      WriteKept(s, s', s.writes[w]);
    }
    forall i | 0 <= i < |s'.acks|
      ensures WriteOk(s'.slots, s'.transports, |s'.endpoints|, s'.clock, s'.acks[i])
    {
      WriteKept(s, s', s.acks[i]);
    }
  }

  lemma NobodyNew(s: State, s': State)
    requires s'.transports.Keys == s.transports.Keys
    ensures forall w :: w in s.writes ==> Newcomers(s, s', s.writes[w])
    ensures forall i :: 0 <= i < |s.acks| ==> Newcomers(s, s', s.acks[i])
  {
  }

  lemma DataToNobody(acks: seq<Write>, buf: Buf)
    requires forall i :: 0 <= i < |acks| ==> acks[i].buf != buf
    ensures DataTo(acks, buf) == []
  {
  }

  lemma ConstructKeeps(s: State, t: Id, cfg: Config)
    requires Inv(s) && t !in s.transports
    ensures Inv(Apply(s, Construct(t, cfg)))
  {
    var s' := Apply(s, Construct(t, cfg));
    var key := InKey(cfg);
    forall k | k in s'.slots
      ensures s'.slots[k] !in s'.retired && exists u :: Holder(s'.transports, u, k, s'.slots[k])
    {
      if k == key {
        assert Holder(s'.transports, t, k, s'.slots[k]);
      } else {
        var u :| Holder(s.transports, u, k, s.slots[k]);
        assert Holder(s'.transports, u, k, s'.slots[k]);
      }
    }
    ConstructKeepsTransports(s, t, cfg);
    ConstructKeepsWrites(s, t, cfg);
    FreshEndpoint(s.endpoints, s.acks);
  }

  lemma FreshEndpoint(endpoints: seq<Endpoint>, acks: seq<Write>)
    requires EndpointsOk(endpoints, acks)
    ensures EndpointsOk(endpoints + [Endpoint([], [])], acks)
  {
    DataToNobody(acks, |endpoints|);
  }

  lemma ConstructKeepsWrites(s: State, t: Id, cfg: Config)
    requires Inv(s) && t !in s.transports
    ensures WritesOk(Apply(s, Construct(t, cfg)))
  {
    var s' := Apply(s, Construct(t, cfg));
    var key := InKey(cfg);
    var tr := s'.transports[t];
    forall u | u in s.transports
      ensures NoCloser(s.slots, s.transports[u], s'.slots, s'.transports[u])
    {
      assert TransportOk(s.slots, s.retired, |s.endpoints|, s.clock, s.transports[u]);
    }
    forall op | WriteOk(s.slots, s.transports, |s.endpoints|, s.clock, op)
      ensures Newcomers(s, s', op)
    {
      if tr.inbound == op.buf {
        assert key in s.slots;
        var h :| Holder(s.transports, h, key, s.slots[key]);
        assert s.transports[h].inbound == op.buf;
      }
    }
    WritesKept(s, s');
  }

  lemma ConstructKeepsTransports(s: State, t: Id, cfg: Config)
    requires Inv(s) && t !in s.transports
    ensures var s' := Apply(s, Construct(t, cfg));
            TransportsOk(s'.slots, s'.transports, s'.retired, |s'.endpoints|, s'.clock) && OneKey(s'.transports)
  {
    var s' := Apply(s, Construct(t, cfg));
    var key := InKey(cfg);
    if key in s.slots {
      SlotAlive(s, key);
      var h :| Holder(s.transports, h, key, s.slots[key]);
    }
    forall u | u in s'.transports
      ensures TransportOk(s'.slots, s'.retired, |s'.endpoints|, s'.clock, s'.transports[u])
    {
      if u != t {
        assert TransportOk(s.slots, s.retired, |s.endpoints|, s.clock, s.transports[u]);
      }
    }
  }

  lemma UnregisterKeeps(s: State, t: Id)
    requires Inv(s) && InPhase(s, t, Live)
    ensures Inv(Apply(s, Unregister(t)))
  {
    var s' := Apply(s, Unregister(t));
    UnregisterKeepsSlots(s, t);
    UnregisterKeepsTransports(s, t);
    NobodyNew(s, s');
    WritesKept(s, s');
  }

  lemma UnregisterKeepsSlots(s: State, t: Id)
    requires Inv(s) && InPhase(s, t, Live)
    ensures var s' := Apply(s, Unregister(t)); SlotsOk(s'.slots, s'.transports, s'.retired)
  {
    var s' := Apply(s, Unregister(t));
    var tr := s.transports[t];
    if InKey(tr.cfg) in s.slots {
      SlotAlive(s, InKey(tr.cfg));
    }
    assert TransportOk(s.slots, s.retired, |s.endpoints|, s.clock, tr);
    forall k | k in s'.slots
      ensures s'.slots[k] !in s'.retired && exists u :: Holder(s'.transports, u, k, s'.slots[k])
    {
      var u :| Holder(s.transports, u, k, s.slots[k]);
      assert u != t;
      assert Holder(s'.transports, u, k, s'.slots[k]);
    }
  }

  lemma UnregisterKeepsTransports(s: State, t: Id)
    requires Inv(s) && InPhase(s, t, Live)
    ensures var s' := Apply(s, Unregister(t));
            && TransportsOk(s'.slots, s'.transports, s'.retired, |s'.endpoints|, s'.clock)
            && OneKey(s'.transports)
            && Evolves(s, s')
  {
    var s' := Apply(s, Unregister(t));
    var tr := s.transports[t];
    assert TransportOk(s.slots, s.retired, |s.endpoints|, s.clock, tr);
    if InKey(tr.cfg) in s.slots {
      SlotAlive(s, InKey(tr.cfg));
    }
    forall u | u in s'.transports
      ensures TransportOk(s'.slots, s'.retired, |s'.endpoints|, s'.clock, s'.transports[u])
      ensures NoCloser(s.slots, s.transports[u], s'.slots, s'.transports[u])
    {
      assert TransportOk(s.slots, s.retired, |s.endpoints|, s.clock, s.transports[u]);
    }
  }

  lemma PhaseKeeps(s: State, t: Id, phase: Phase)
    requires Inv(s) && t in s.transports
    requires Holding(s.transports[t]) <==> Holding(s.transports[t].(phase := phase))
    ensures Inv(SetPhase(s, t, phase))
  {
    var s' := SetPhase(s, t, phase);
    forall k | k in s'.slots
      ensures s'.slots[k] !in s'.retired && exists u :: Holder(s'.transports, u, k, s'.slots[k])
    {
      var u :| Holder(s.transports, u, k, s.slots[k]);
      assert Holder(s'.transports, u, k, s'.slots[k]);
    }
    PhaseKeepsTransports(s, t, phase);
    NobodyNew(s, s');
    WritesKept(s, s');
  }

  lemma PhaseKeepsTransports(s: State, t: Id, phase: Phase)
    requires Inv(s) && t in s.transports
    requires Holding(s.transports[t]) <==> Holding(s.transports[t].(phase := phase))
    ensures var s' := SetPhase(s, t, phase);
            && TransportsOk(s'.slots, s'.transports, s'.retired, |s'.endpoints|, s'.clock)
            && OneKey(s'.transports)
            && Evolves(s, s')
  {
    var s' := SetPhase(s, t, phase);
    forall u | u in s'.transports
      ensures TransportOk(s'.slots, s'.retired, |s'.endpoints|, s'.clock, s'.transports[u])
      ensures NoCloser(s.slots, s.transports[u], s'.slots, s'.transports[u])
    {
      assert TransportOk(s.slots, s.retired, |s.endpoints|, s.clock, s.transports[u]);
    }
  }

  /** A write finds a buffer exactly when its key has a slot: no slot is ever expired. */
  lemma FindOutcome(s: State, w: Id, t: Id, data: seq<byte>)
    requires Inv(s) && CanFind(s, w, t, data)
    ensures var key := OutKey(s.transports[t].cfg);
            Apply(s, Find(w, t, data)) ==
            if key in s.slots then
              s.(clock := s.clock + 1, writes := s.writes[w := Write(t, key, data, s.slots[key], s.clock + 1)])
            else s
  {
    var key := OutKey(s.transports[t].cfg);
    var found := Found(s.slots, key, Alive(s));
    if key in s.slots {
      SlotAlive(s, key);
    }
    assert found == (s.slots, if key in s.slots then Some(s.slots[key]) else None);
    LookedUp(s, w, t, data, found);
  }

  lemma LookedUp(s: State, w: Id, t: Id, data: seq<byte>, found: (map<Key, Buf>, Option<Buf>))
    requires CanFind(s, w, t, data) && found.0 == s.slots
    ensures var key := OutKey(s.transports[t].cfg);
            LookUp(s, w, t, data, found) ==
            if found.1.Some? then
              s.(clock := s.clock + 1, writes := s.writes[w := Write(t, key, data, found.1.value, s.clock + 1)])
            else s
  {
  }

  /** What refuses a write before any lookup, and that it then changes nothing. */
  lemma Refused(s: State, w: Id, t: Id, data: seq<byte>)
    requires w !in s.writes && t in s.transports && s.transports[t].phase == Live
    ensures data == [] || s.transports[t].cfg.remote == "" ==> Apply(s, Find(w, t, data)) == s
    ensures data != [] && s.transports[t].cfg.remote != "" ==> CanFind(s, w, t, data)
    ensures var cfg := s.transports[t].cfg;
            OutKey(cfg) == Key(cfg.remote, cfg.service, cfg.tx) && InKey(cfg) == Key(cfg.local, cfg.service, cfg.rx)
  {
  }

  /** The second half of a write always succeeds: its bytes go whole behind those of the buffer it found,
      into no other, and the write is done. */
  lemma AppendDelivers(s: State, w: Id)
    requires Inv(s) && w in s.writes
    ensures var s' := Apply(s, Append(w));
            var op := s.writes[w];
            && op.buf < |s.endpoints| && |s'.endpoints| == |s.endpoints|
            && s'.endpoints[op.buf].contents == s.endpoints[op.buf].contents + op.data
            && s'.endpoints[op.buf].taken == s.endpoints[op.buf].taken
            && (forall b :: 0 <= b < |s.endpoints| && b != op.buf ==> s'.endpoints[b] == s.endpoints[b])
            && s'.acks == s.acks + [op] && w !in s'.writes
  {
    assert WriteOk(s.slots, s.transports, |s.endpoints|, s.clock, s.writes[w]);
  }

  /** A constructor is given the buffer of its key's slot, or a new and empty one that then fills it. */
  lemma ConstructShares(s: State, t: Id, cfg: Config)
    requires Inv(s) && t !in s.transports
    ensures var s' := Apply(s, Construct(t, cfg));
            var key := InKey(cfg);
            && t in s'.transports && s'.transports[t].cfg == cfg && s'.transports[t].phase == Constructing
            && key in s'.slots && s'.slots[key] == s'.transports[t].inbound
            && (key in s.slots ==> s'.slots == s.slots && s'.endpoints == s.endpoints)
            && (key !in s.slots ==>
                  && s'.transports[t].inbound == |s.endpoints|
                  && s'.endpoints == s.endpoints + [Endpoint([], [])])
  {
    if InKey(cfg) in s.slots {
      SlotAlive(s, InKey(cfg));
    }
  }

  lemma FindKeeps(s: State, w: Id, t: Id, data: seq<byte>)
    requires Inv(s) && CanFind(s, w, t, data)
    ensures Inv(Apply(s, Find(w, t, data)))
  {
    FindOutcome(s, w, t, data);
    var key := OutKey(s.transports[t].cfg);
    if key in s.slots {
      var h :| Holder(s.transports, h, key, s.slots[key]);
      assert TransportOk(s.slots, s.retired, |s.endpoints|, s.clock, s.transports[h]);
      FreshWriteOk(s, Write(t, key, data, s.slots[key], s.clock + 1), h);
      Tick(s);
    }
  }

  lemma Tick(s: State)
    requires Inv(s)
    ensures Inv(s.(clock := s.clock + 1))
  {
    var s' := s.(clock := s.clock + 1);
    forall u | u in s'.transports
      ensures TransportOk(s'.slots, s'.retired, |s'.endpoints|, s'.clock, s'.transports[u])
    {
      assert TransportOk(s.slots, s.retired, |s.endpoints|, s.clock, s.transports[u]);
    }
    NobodyNew(s, s');
    WritesKept(s, s');
  }

  lemma FreshWriteOk(s: State, op: Write, h: Id)
    requires OneKey(s.transports) && Holder(s.transports, h, op.key, op.buf)
    requires TransportOk(s.slots, s.retired, |s.endpoints|, s.clock, s.transports[h])
    requires op.author in s.transports && op.key == OutKey(s.transports[op.author].cfg)
    requires op.key in s.slots && s.slots[op.key] == op.buf && op.at == s.clock + 1
    ensures WriteOk(s.slots, s.transports, |s.endpoints|, s.clock + 1, op)
  {
  }

  lemma AppendKeeps(s: State, w: Id)
    requires Inv(s) && w in s.writes
    ensures Inv(Apply(s, Append(w)))
  {
    var op := s.writes[w];
    assert WriteOk(s.slots, s.transports, |s.endpoints|, s.clock, op);
    AppendKeepsEndpoints(s.endpoints, s.acks, op);
  }

  lemma AppendKeepsEndpoints(endpoints: seq<Endpoint>, acks: seq<Write>, op: Write)
    requires EndpointsOk(endpoints, acks) && op.buf < |endpoints|
    ensures var e := endpoints[op.buf];
            EndpointsOk(endpoints[op.buf := e.(contents := e.contents + op.data)], acks + [op])
  {
    var e := endpoints[op.buf];
    forall b | 0 <= b < |endpoints|
      ensures DataTo(acks + [op], b) == DataTo(acks, b) + if op.buf == b then [op.data] else []
    {
      DataToSnoc(acks, op, b);
    }
    FlattenSnoc(DataTo(acks, op.buf), op.data);
    Reassociate(e.taken, e.contents, op.data);
    var more := endpoints[op.buf := e.(contents := e.contents + op.data)];
    forall b | 0 <= b < |more|
      ensures Flatten(DataTo(acks + [op], b)) == more[b].taken + more[b].contents
    {
      if b != op.buf {
        assert DataTo(acks + [op], b) == DataTo(acks, b);
      }
    }
  }

  lemma DataToSnoc(acks: seq<Write>, op: Write, b: Buf)
    ensures DataTo(acks + [op], b) == DataTo(acks, b) + if op.buf == b then [op.data] else []
  {
    assert (acks + [op])[..|acks|] == acks;
  }

  lemma ReadKeeps(s: State, t: Id, limit: nat)
    requires Inv(s)
    ensures Inv(Apply(s, Read(t, limit)))
  {
    var s' := Apply(s, Read(t, limit));
    if InPhase(s, t, Live) && s.transports[t].inbound < |s.endpoints| {
      var b := s.transports[t].inbound;
      var e := s.endpoints[b];
      var n := Min(limit, |e.contents|);
      assert e.contents == e.contents[..n] + e.contents[n..];
      Reassociate(e.taken, e.contents[..n], e.contents[n..]);
    }
  }

  lemma StepKeepsInv(s: State, step: Step)
    requires Inv(s)
    ensures Inv(Apply(s, step))
  {
    match step {
      case Construct(t, cfg) => if t !in s.transports { ConstructKeeps(s, t, cfg); }
      case Assign(t) => if InPhase(s, t, Constructing) { PhaseKeeps(s, t, Live); }
      case Unregister(t) => if InPhase(s, t, Live) { UnregisterKeeps(s, t); }
      case Release(t) => if InPhase(s, t, Leaving) { PhaseKeeps(s, t, Gone); }
      case Find(w, t, data) => if CanFind(s, w, t, data) { FindKeeps(s, w, t, data); }
      case Append(w) => if w in s.writes { AppendKeeps(s, w); }
      case Read(t, limit) => ReadKeeps(s, t, limit);
    }
  }

  lemma {:induction false} RunKeepsInv(schedule: seq<Step>)
    ensures Inv(Run(EMPTY, schedule))
  {
    if schedule != [] {
      RunKeepsInv(schedule[..|schedule| - 1]);
      StepKeepsInv(Run(EMPTY, schedule[..|schedule| - 1]), schedule[|schedule| - 1]);
    }
  }

  /** The buffers some transport has unregistered are the retired ones. */
  ghost predicate RetiredOk(s: State) {
    && (forall t :: t in s.transports && !Holding(s.transports[t]) ==> s.transports[t].inbound in s.retired)
    && (forall b :: b in s.retired ==> exists t :: LetGo(s.transports, t, b))
  }

  ghost predicate LetGo(transports: map<Id, Transport>, t: Id, b: Buf) {
    t in transports && !Holding(transports[t]) && transports[t].inbound == b
  }

  lemma {:induction false} RunKeepsRetired(schedule: seq<Step>)
    ensures RetiredOk(Run(EMPTY, schedule))
  {
    if schedule != [] {
      RunKeepsRetired(schedule[..|schedule| - 1]);
      StepKeepsRetired(Run(EMPTY, schedule[..|schedule| - 1]), schedule[|schedule| - 1]);
    }
  }

  lemma StepKeepsRetired(s: State, step: Step)
    requires RetiredOk(s)
    ensures RetiredOk(Apply(s, step))
  {
    var s' := Apply(s, step);
    forall b | b in s'.retired
      ensures exists t :: LetGo(s'.transports, t, b)
    {
      if b in s.retired {
        var t :| LetGo(s.transports, t, b);
        assert LetGo(s'.transports, t, b);
      } else {
        assert LetGo(s'.transports, step.t, b);
      }
    }
  }

  // ---- Every run -----------------------------------------------------------------------------

  /** Under every interleaving, every slot names a live buffer that a registered transport of that very
      key holds; so no branch for an expired slot ever runs. */
  lemma NoSlotExpires(schedule: seq<Step>, k: Key)
    requires k in Run(EMPTY, schedule).slots
    ensures var s := Run(EMPTY, schedule);
            && s.slots[k] in Alive(s)
            && (exists t :: Holder(s.transports, t, k, s.slots[k]))
            && (forall other: Buf :: Registered(s.slots, k, Alive(s), other) == (s.slots, s.slots[k]))
            && Found(s.slots, k, Alive(s)) == (s.slots, Some(s.slots[k]))
  {
    RunKeepsInv(schedule);
    SlotAlive(Run(EMPTY, schedule), k);
  }

  /** Unregistering removes at most one slot: its own key's, and only if it names its own buffer. */
  lemma UnregisterRemovesOnlyItsOwn(schedule: seq<Step>, t: Id, k: Key)
    requires InPhase(Run(EMPTY, schedule), t, Live) && k in Run(EMPTY, schedule).slots
    ensures var s := Run(EMPTY, schedule);
            var s' := Apply(s, Unregister(t));
            (k in s'.slots && s'.slots[k] == s.slots[k])
            <==> !(k == InKey(s.transports[t].cfg) && s.slots[k] == s.transports[t].inbound)
  {
    RunKeepsInv(schedule);
    SlotAlive(Run(EMPTY, schedule), k);
  }

  /** A registered transport is found under its key exactly as long as no transport that shared its
      buffer has unregistered: the first destructor among transports of one key cuts off the rest. */
  lemma FoundUnlessSharedAndLeft(schedule: seq<Step>, t: Id)
    requires var s := Run(EMPTY, schedule); t in s.transports && Holding(s.transports[t])
    ensures var s := Run(EMPTY, schedule);
            Found(s.slots, InKey(s.transports[t].cfg), Alive(s)).1 == Some(s.transports[t].inbound)
            <==> !exists u :: LetGo(s.transports, u, s.transports[t].inbound)
  {
    RunKeepsInv(schedule);
    RunKeepsRetired(schedule);
    var s := Run(EMPTY, schedule);
    var key := InKey(s.transports[t].cfg);
    assert TransportOk(s.slots, s.retired, |s.endpoints|, s.clock, s.transports[t]);
    if key in s.slots {
      SlotAlive(s, key);
    }
    if exists u :: LetGo(s.transports, u, s.transports[t].inbound) {
      var u :| LetGo(s.transports, u, s.transports[t].inbound);
    }
  }

  /** That this can happen: two transports of one key, the first leaves, the second stays live and is
      no longer found. */
  lemma SecondTransportIsCutOff(cfg: Config)
    ensures exists schedule ::
              var s := Run(EMPTY, schedule);
              && InPhase(s, 0, Leaving) && InPhase(s, 1, Live)
              && InKey(s.transports[1].cfg) !in s.slots
  {
    var none: seq<Step> := [];
    var both := none + [Construct(0, cfg)] + [Construct(1, cfg)];
    Runs.RunSnoc(Apply, EMPTY, none, Construct(0, cfg));
    Runs.RunSnoc(Apply, EMPTY, none + [Construct(0, cfg)], Construct(1, cfg));
    var s1 := Run(EMPTY, none + [Construct(0, cfg)]);
    assert s1 == Apply(EMPTY, Construct(0, cfg));
    assert s1.transports[0].inbound == 0 && s1.slots == map[InKey(cfg) := 0];
    assert s1.transports[0].inbound in Alive(s1);
    var s2 := Run(EMPTY, both);
    assert s2.transports[1].inbound == 0 && s2.slots == s1.slots;
    Runs.RunSnoc(Apply, EMPTY, both, Assign(0));
    Runs.RunSnoc(Apply, EMPTY, both + [Assign(0)], Assign(1));
    Runs.RunSnoc(Apply, EMPTY, both + [Assign(0)] + [Assign(1)], Unregister(0));
    var s5 := Run(EMPTY, both + [Assign(0)] + [Assign(1)] + [Unregister(0)]);
    assert InPhase(s5, 0, Leaving) && InPhase(s5, 1, Live) && InKey(cfg) !in s5.slots;
  }

  /** Conservation and contiguity: what was ever appended to a buffer is the sequence of whole payloads
      of the writes sent to it, and it equals what readers took followed by what waits. */
  lemma BufferConservation(schedule: seq<Step>, b: Buf)
    requires b < |Run(EMPTY, schedule).endpoints|
    ensures var s := Run(EMPTY, schedule);
            Flatten(DataTo(s.acks, b)) == s.endpoints[b].taken + s.endpoints[b].contents
  {
    RunKeepsInv(schedule);
  }

  /** A read takes the front of its endpoint's unread bytes. */
  lemma ReadTakesFront(s: State, t: Id, limit: nat)
    requires InPhase(s, t, Live) && s.transports[t].inbound < |s.endpoints|
    ensures var e := s.endpoints[s.transports[t].inbound];
            var e' := Apply(s, Read(t, limit)).endpoints[s.transports[t].inbound];
            Streams.TakesFront(Books(e), Some(limit), e.contents[..Min(limit, |e.contents|)], Books(e'))
  {
    var e := s.endpoints[s.transports[t].inbound];
    var n := Min(limit, |e.contents|);
    assert e.contents == e.contents[..n] + e.contents[n..];
    Reassociate(e.taken, e.contents[..n], e.contents[n..]);
  }

  function Books(e: Endpoint): Streams.Account {
    Streams.Account(e.taken + e.contents, e.taken)
  }

  // ---- Delivery ------------------------------------------------------------------------------

  /** The data of the writes addressed to a key whose lookup came after a given time, in order. */
  function DataFor(acks: seq<Write>, key: Key, since: nat): seq<seq<byte>> {
    if acks == [] then []
    else
      var last := acks[|acks| - 1];
      DataFor(acks[..|acks| - 1], key, since) + if last.key == key && last.at > since then [last.data] else []
  }

  /** The data one transport wrote after a given time, in order. */
  function DataFrom(acks: seq<Write>, author: Id, since: nat): seq<seq<byte>> {
    if acks == [] then []
    else
      var last := acks[|acks| - 1];
      DataFrom(acks[..|acks| - 1], author, since) + if last.author == author && last.at > since then [last.data] else []
  }

  /** Each selection grows by the data of every further write that meets its condition, and by nothing
      else. */
  lemma SelectionsGrow(acks: seq<Write>, op: Write, buf: Buf, key: Key, author: Id, since: nat)
    ensures DataTo([], buf) == DataFor([], key, since) == DataFrom([], author, since) == []
    ensures DataTo(acks + [op], buf) == DataTo(acks, buf) + if op.buf == buf then [op.data] else []
    ensures DataFor(acks + [op], key, since)
            == DataFor(acks, key, since) + if op.key == key && op.at > since then [op.data] else []
    ensures DataFrom(acks + [op], author, since)
            == DataFrom(acks, author, since) + if op.author == author && op.at > since then [op.data] else []
  {
    assert (acks + [op])[..|acks|] == acks;
  }

  lemma {:induction false} SameSelection(acks: seq<Write>, b: Buf, key: Key, since: nat)
    requires forall i :: 0 <= i < |acks| ==> (acks[i].buf == b <==> acks[i].key == key && acks[i].at > since)
    ensures DataTo(acks, b) == DataFor(acks, key, since)
  {
    if acks != [] {
      SameSelection(acks[..|acks| - 1], b, key, since);
    }
  }

  lemma {:induction false} SameAuthor(acks: seq<Write>, key: Key, author: Id, since: nat)
    requires forall i :: 0 <= i < |acks| ==> (acks[i].key == key <==> acks[i].author == author)
    ensures DataFor(acks, key, since) == DataFrom(acks, author, since)
  {
    if acks != [] {
      SameAuthor(acks[..|acks| - 1], key, author, since);
    }
  }

  /** No other transport was ever handed this one's buffer. */
  ghost predicate Sole(s: State, t: Id)
    requires t in s.transports
  {
    forall u :: u in s.transports && s.transports[u].inbound == s.transports[t].inbound ==> u == t
  }

  /** If this step looks up the key of a transport, the lookup finds that transport's buffer. */
  ghost predicate LookupSucceeds(s: State, step: Step, tr: Transport) {
    step.Find? && step.w !in s.writes && step.data != []
    && step.t in s.transports && s.transports[step.t].phase == Live && s.transports[step.t].cfg.remote != ""
    && OutKey(s.transports[step.t].cfg) == InKey(tr.cfg) ==>
      var s' := Apply(s, step);
      step.w in s'.writes && s'.writes[step.w] == Write(step.t, InKey(tr.cfg), step.data, tr.inbound, s.clock + 1)
  }

  /** No lookup of its key since a transport registered was refused or went elsewhere. */
  ghost predicate NoneRefused(schedule: seq<Step>, t: Id) {
    forall k :: 0 <= k < |schedule| && t in Run(EMPTY, schedule[..k]).transports ==>
      LookupSucceeds(Run(EMPTY, schedule[..k]), schedule[k], Run(EMPTY, schedule[..k]).transports[t])
  }

  /** A transport stays what it is, and one that has let go never registers again. */
  ghost predicate Persists(before: map<Id, Transport>, after: map<Id, Transport>) {
    forall u :: u in before ==>
      && u in after && after[u].cfg == before[u].cfg && after[u].inbound == before[u].inbound
      && (Holding(after[u]) ==> Holding(before[u]))
  }

  lemma StepPersists(s: State, step: Step)
    ensures Persists(s.transports, Apply(s, step).transports)
  {
  }

  lemma {:induction false} RunPersists(s: State, more: seq<Step>)
    ensures Persists(s.transports, Run(s, more).transports)
  {
    if more != [] {
      RunPersists(s, more[..|more| - 1]);
      StepPersists(Run(s, more[..|more| - 1]), more[|more| - 1]);
    }
  }

  lemma Earlier(schedule: seq<Step>, k: nat)
    requires k <= |schedule|
    ensures Persists(Run(EMPTY, schedule[..k]).transports, Run(EMPTY, schedule).transports)
  {
    assert schedule[..k] + schedule[k..] == schedule;
    Runs.RunConcat(Apply, EMPTY, schedule[..k], schedule[k..]);
    RunPersists(Run(EMPTY, schedule[..k]), schedule[k..]);
  }

  lemma NeverRefused(schedule: seq<Step>, t: Id)
    requires var s := Run(EMPTY, schedule); t in s.transports && Holding(s.transports[t]) && Sole(s, t)
    ensures NoneRefused(schedule, t)
  {
    forall k | 0 <= k < |schedule| && t in Run(EMPTY, schedule[..k]).transports
      ensures LookupSucceeds(Run(EMPTY, schedule[..k]), schedule[k], Run(EMPTY, schedule[..k]).transports[t])
    {
      var s := Run(EMPTY, schedule[..k]);
      Earlier(schedule, k);
      assert !exists u :: LetGo(s.transports, u, s.transports[t].inbound);
      FoundUnlessSharedAndLeft(schedule[..k], t);
    }
  }

  /** Delivery: while a transport that never shared its buffer is registered, every lookup of its key has
      found its buffer since, and every write that looked it up is delivered to it, in order, exactly
      once, and nothing else is. */
  lemma Delivery(schedule: seq<Step>, t: Id)
    requires var s := Run(EMPTY, schedule); t in s.transports && Holding(s.transports[t]) && Sole(s, t)
    ensures var s := Run(EMPTY, schedule);
            var tr := s.transports[t];
            && tr.inbound < |s.endpoints|
            && NoneRefused(schedule, t)
            && Flatten(DataFor(s.acks, InKey(tr.cfg), tr.since))
               == s.endpoints[tr.inbound].taken + s.endpoints[tr.inbound].contents
  {
    NeverRefused(schedule, t);
    RunKeepsInv(schedule);
    RunKeepsRetired(schedule);
    var s := Run(EMPTY, schedule);
    var tr := s.transports[t];
    assert TransportOk(s.slots, s.retired, |s.endpoints|, s.clock, tr);
    assert forall u :: !LetGo(s.transports, u, tr.inbound);
    assert Reachable(s.slots, tr);
    forall i | 0 <= i < |s.acks|
      ensures s.acks[i].buf == tr.inbound <==> s.acks[i].key == InKey(tr.cfg) && s.acks[i].at > tr.since
    {
      var op := s.acks[i];
      assert WriteOk(s.slots, s.transports, |s.endpoints|, s.clock, op);
      if op.buf == tr.inbound {
        var u :| u in s.transports && s.transports[u].inbound == op.buf && s.transports[u].since < op.at;
      } else if op.key == InKey(tr.cfg) && op.at > tr.since {
        assert Routed(s.slots, tr, op);
      }
    }
    SameSelection(s.acks, tr.inbound, InKey(tr.cfg), tr.since);
  }

  /** Two configurations wired to each other, as doc/usage.md:84-93 describes them. */
  predicate Mirrored(a: Config, b: Config) {
    OutKey(a) == InKey(b) && OutKey(b) == InKey(a)
  }

  /** Cross-wired delivery: when only `a` ever wrote to `b`'s key, what `b` has read and what waits for
      it is exactly what `a` has written since `b` registered, in order and once, none of its lookups
      having been refused; and the same the other way round. */
  lemma CrossWired(schedule: seq<Step>, a: Id, b: Id)
    requires var s := Run(EMPTY, schedule);
             && a in s.transports && b in s.transports && a != b
             && Mirrored(s.transports[a].cfg, s.transports[b].cfg)
             && Holding(s.transports[a]) && Holding(s.transports[b])
             && Sole(s, a) && Sole(s, b)
             && (forall u :: u in s.transports && OutKey(s.transports[u].cfg) == InKey(s.transports[b].cfg) ==> u == a)
             && (forall u :: u in s.transports && OutKey(s.transports[u].cfg) == InKey(s.transports[a].cfg) ==> u == b)
    ensures var s := Run(EMPTY, schedule);
            var ta, tb := s.transports[a], s.transports[b];
            && ta.inbound < |s.endpoints| && tb.inbound < |s.endpoints|
            && NoneRefused(schedule, a) && NoneRefused(schedule, b)
            && Flatten(DataFrom(s.acks, a, tb.since))
               == s.endpoints[tb.inbound].taken + s.endpoints[tb.inbound].contents
            && Flatten(DataFrom(s.acks, b, ta.since))
               == s.endpoints[ta.inbound].taken + s.endpoints[ta.inbound].contents
  {
    Delivery(schedule, a);
    Delivery(schedule, b);
    OneSide(schedule, a, b);
    OneSide(schedule, b, a);
  }

  lemma OneSide(schedule: seq<Step>, a: Id, b: Id)
    requires var s := Run(EMPTY, schedule);
             && a in s.transports && b in s.transports
             && OutKey(s.transports[a].cfg) == InKey(s.transports[b].cfg)
             && (forall u :: u in s.transports && OutKey(s.transports[u].cfg) == InKey(s.transports[b].cfg) ==> u == a)
    ensures var s := Run(EMPTY, schedule);
            var tb := s.transports[b];
            DataFor(s.acks, InKey(tb.cfg), tb.since) == DataFrom(s.acks, a, tb.since)
  {
    RunKeepsInv(schedule);
    var s := Run(EMPTY, schedule);
    forall i | 0 <= i < |s.acks|
      ensures s.acks[i].key == InKey(s.transports[b].cfg) <==> s.acks[i].author == a
    {
      assert WriteOk(s.slots, s.transports, |s.endpoints|, s.clock, s.acks[i]);
    }
    SameAuthor(s.acks, InKey(s.transports[b].cfg), a, s.transports[b].since);
  }

  // ---- Lifetimes that do not overlap ---------------------------------------------------------

  /** A constructor of a key runs only when no transport of that key is registered. */
  ghost predicate Apart(s: State, step: Step) {
    step.Construct? && step.t !in s.transports ==>
      forall u :: u in s.transports && Holding(s.transports[u]) ==> InKey(s.transports[u].cfg) != InKey(step.cfg)
  }

  ghost predicate NoOverlap(schedule: seq<Step>) {
    forall i :: 0 <= i < |schedule| ==> Apart(Run(EMPTY, schedule[..i]), schedule[i])
  }

  ghost predicate AllSole(s: State) {
    forall t :: t in s.transports ==> Sole(s, t)
  }

  lemma {:induction false} ApartMeansSole(schedule: seq<Step>)
    requires NoOverlap(schedule)
    ensures AllSole(Run(EMPTY, schedule))
  {
    if schedule != [] {
      var shorter := schedule[..|schedule| - 1];
      assert NoOverlap(shorter) by {
        forall i | 0 <= i < |shorter|
          ensures Apart(Run(EMPTY, shorter[..i]), shorter[i])
        {
          assert shorter[..i] == schedule[..i];
        }
      }
      ApartMeansSole(shorter);
      var s, step := Run(EMPTY, shorter), schedule[|schedule| - 1];
      assert Apart(s, step);
      RunKeepsInv(shorter);
      if step.Construct? && step.t !in s.transports {
        var key := InKey(step.cfg);
        NoSlotWithoutHolder(s, key);
        forall u | u in s.transports
          ensures s.transports[u].inbound < |s.endpoints|
        {
          assert TransportOk(s.slots, s.retired, |s.endpoints|, s.clock, s.transports[u]);
        }
      }
      SoleKept(s, step);
    }
  }

  lemma NoSlotWithoutHolder(s: State, key: Key)
    requires SlotsOk(s.slots, s.transports, s.retired)
    requires forall u :: u in s.transports && Holding(s.transports[u]) ==> InKey(s.transports[u].cfg) != key
    ensures key !in s.slots
  {
    forall k | k in s.slots
      ensures k != key
    {
      var u :| Holder(s.transports, u, k, s.slots[k]);
    }
  }

  lemma SoleKept(s: State, step: Step)
    requires AllSole(s)
    requires step.Construct? && step.t !in s.transports ==>
               InKey(step.cfg) !in s.slots && forall u :: u in s.transports ==> s.transports[u].inbound < |s.endpoints|
    ensures AllSole(Apply(s, step))
  {
    var s' := Apply(s, step);
    forall t, u | t in s'.transports && u in s'.transports && s'.transports[u].inbound == s'.transports[t].inbound
      ensures u == t
    {
      if t in s.transports && u in s.transports {
        assert Sole(s, t);
      }
    }
  }

  /** If no two transports of one key are ever registered at once, every registered transport is found
      under its key, and `Delivery` applies to it. */
  lemma FoundWhenApart(schedule: seq<Step>, t: Id)
    requires NoOverlap(schedule)
    requires var s := Run(EMPTY, schedule); t in s.transports && Holding(s.transports[t])
    ensures var s := Run(EMPTY, schedule);
            && Sole(s, t)
            && Found(s.slots, InKey(s.transports[t].cfg), Alive(s)) == (s.slots, Some(s.transports[t].inbound))
  {
    ApartMeansSole(schedule);
    FoundUnlessSharedAndLeft(schedule, t);
    var s := Run(EMPTY, schedule);
    assert Sole(s, t);
    assert forall u :: !LetGo(s.transports, u, s.transports[t].inbound);
  }

  // ---- Configurations from URIs --------------------------------------------------------------

  function NonEmptyOr(value: string, fallback: string): string {
    if value == "" then fallback else value
  }

  /** `GattConfig::from_url`, as far as keys go. */
  function ConfigFromUrl(parts: Uri.UrlParts): Config {
    var device := NonEmptyOr(Uri.Lookup(parts.query, "device", ""), parts.host);
    var service := NonEmptyOr(Uri.Lookup(parts.query, "service", ""), parts.path);
    Config(NonEmptyOr(device, "gatt-local"),
           Uri.Lookup(parts.query, "remote", ""),
           NonEmptyOr(service, "default-service"),
           NonEmptyOr(Uri.Lookup(parts.query, "tx", ""), "tx"),
           NonEmptyOr(Uri.Lookup(parts.query, "rx", ""), "rx"))
  }

  /** What the query names comes before the host and the path; defaults come last. */
  lemma QueryComesFirst(parts: Uri.UrlParts, q: map<string, string>)
    requires q == parts.query
    ensures "device" in q && q["device"] != "" ==> ConfigFromUrl(parts).local == q["device"]
    ensures "service" in q && q["service"] != "" ==> ConfigFromUrl(parts).service == q["service"]
    ensures "device" !in q && parts.host != "" ==> ConfigFromUrl(parts).local == parts.host
    ensures "service" !in q && parts.path != "" ==> ConfigFromUrl(parts).service == parts.path
    ensures "device" !in q && parts.host == "" ==> ConfigFromUrl(parts).local == "gatt-local"
    ensures "service" !in q && parts.path == "" ==> ConfigFromUrl(parts).service == "default-service"
    ensures "tx" !in q ==> ConfigFromUrl(parts).tx == "tx"
    ensures "rx" !in q ==> ConfigFromUrl(parts).rx == "rx"
    ensures "remote" !in q ==> ConfigFromUrl(parts).remote == ""
  {
  }

  function GattPairs(remote: string, tx: string, rx: string): seq<Uri.Pair> {
    [Uri.Pair("remote", remote), Uri.Pair("tx", tx), Uri.Pair("rx", rx)]
  }

  /** `gatt://device/service?remote=...&tx=...&rx=...`. */
  function GattUri(device: string, service: string, remote: string, tx: string, rx: string): string {
    Uri.Render("gatt", device, None, service, GattPairs(remote, tx, rx))
  }

  /** A name that can stand as a host, a path and a query value alike. */
  predicate NameOk(name: string) {
    && name != "" && Text.Trimmed(name)
    && '/' !in name && '?' !in name && ':' !in name && '&' !in name
  }

  lemma GattUriConfig(device: string, service: string, remote: string, tx: string, rx: string)
    requires NameOk(device) && NameOk(service) && NameOk(remote) && NameOk(tx) && NameOk(rx)
    ensures ConfigFromUrl(Uri.ParseIfname(GattUri(device, service, remote, tx, rx)))
            == Config(device, remote, service, tx, rx)
  {
    GattQuery(remote, tx, rx);
    GattPairsOk(remote, tx, rx);
    GattScheme();
    Uri.RoundTrip("gatt", device, None, service, GattPairs(remote, tx, rx));
  }

  lemma GattScheme()
    ensures Uri.SchemeOk("gatt") && Text.Lower("gatt") == "gatt"
  {
    Uri.LowerStays("gatt");
    assert |"gatt"| != |"serial"|;
  }

  lemma GattPairsOk(remote: string, tx: string, rx: string)
    requires NameOk(remote) && NameOk(tx) && NameOk(rx)
    ensures Uri.PairsOk(GattPairs(remote, tx, rx))
  {
    assert Uri.PairOk(Uri.Pair("remote", remote));
    assert Uri.PairOk(Uri.Pair("tx", tx));
    assert Uri.PairOk(Uri.Pair("rx", rx));
  }

  lemma GattQuery(remote: string, tx: string, rx: string)
    ensures var query := Uri.MapOf(GattPairs(remote, tx, rx));
            && "device" !in query && "service" !in query && "port" !in query
            && Uri.Lookup(query, "remote", "") == remote
            && Uri.Lookup(query, "tx", "") == tx
            && Uri.Lookup(query, "rx", "") == rx
  {
    var pairs := GattPairs(remote, tx, rx);
    assert pairs[1..] == [pairs[1], pairs[2]] && pairs[1..][1..] == [pairs[2]] && pairs[1..][1..][1..] == [];
    Uri.LowerStays("remote");
    Uri.LowerStays("tx");
    Uri.LowerStays("rx");
    assert Uri.MapOf(pairs[1..][1..]) == map["rx" := rx] + Uri.MapOf([]);
    assert Uri.MapOf(pairs[1..]) == map["tx" := tx] + Uri.MapOf(pairs[1..][1..]);
    assert Uri.MapOf(pairs) == map["remote" := remote] + Uri.MapOf(pairs[1..]);
    assert "tx"[0] != "rx"[0] && |"remote"| == 6 && |"device"| == 6 && "device"[0] != "remote"[0];
    assert |"service"| == 7 && |"port"| == 4 && |"tx"| == 2 && |"rx"| == 2;
  }

  /** Whatever a URI leaves out, the key a transport registers under has no empty part; so a transport
      that names no remote device writes to nobody's key. */
  lemma KeysAreNamed(parts: Uri.UrlParts, other: Uri.UrlParts)
    ensures var key := InKey(ConfigFromUrl(parts)); key.device != "" && key.service != "" && key.characteristic != ""
    ensures ConfigFromUrl(other).remote == "" ==> OutKey(ConfigFromUrl(other)) != InKey(ConfigFromUrl(parts))
  {
  }

  /** The documented wiring: two URIs with device and remote, tx and rx swapped are mirrored, for all
      names, and what the first writes goes to the other's device under the first's tx. */
  lemma DocumentedPair(a: string, b: string, service: string, x: string, y: string)
    requires NameOk(a) && NameOk(b) && NameOk(service) && NameOk(x) && NameOk(y)
    ensures Mirrored(ConfigFromUrl(Uri.ParseIfname(GattUri(a, service, b, x, y))),
                     ConfigFromUrl(Uri.ParseIfname(GattUri(b, service, a, y, x))))
    ensures OutKey(ConfigFromUrl(Uri.ParseIfname(GattUri(a, service, b, x, y)))) == Key(b, service, x)
    ensures InKey(ConfigFromUrl(Uri.ParseIfname(GattUri(b, service, a, y, x)))) == Key(b, service, x)
  {
    GattUriConfig(a, service, b, x, y);
    GattUriConfig(b, service, a, y, x);
  }
}
