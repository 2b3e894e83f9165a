/** The TCP server transport of src/TCP.cpp: accepting into a growing list of clients and draining them.
    A client is the bytes waiting in its socket; the backlog is the connections waiting to be accepted,
    with the bytes already received on them. Bytes and connections may arrive during every wait; accepting,
    waiting, receiving and sending may fail at any call. */
module Tcp {
  import opened Bytes
  import opened Sends

  /** How many connections one round of accepting takes when nothing fails: all of them without a bound;
      with one, up to the bound, but always one, because the bound is looked at after accepting. */
  function AcceptCount(clients: nat, backlog: nat, maxConnect: int): (n: nat)
    ensures n <= backlog
  {
    if maxConnect <= 0 then backlog else Min(backlog, if maxConnect - clients > 1 then maxConnect - clients else 1)
  }

  /** The list stays within the bound exactly as long as it was below it, or nobody waits. */
  lemma AcceptMayExceed(clients: nat, backlog: nat, maxConnect: int)
    requires maxConnect > 0 && clients <= maxConnect
    ensures clients + AcceptCount(clients, backlog, maxConnect) <= maxConnect <==> clients < maxConnect || backlog == 0
  {
  }

  /** Accepting stops only when nobody waits or the list has reached its bound. */
  predicate Full(clients: nat, backlog: nat, maxConnect: int) {
    backlog == 0 || (maxConnect > 0 && clients >= maxConnect)
  }

  predicate AllEmpty(clients: seq<seq<byte>>) {
    forall i :: 0 <= i < |clients| ==> clients[i] == []
  }

  lemma {:induction false} FlattenEmpty(clients: seq<seq<byte>>)
    ensures AllEmpty(clients) <==> Flatten(clients) == []
  {
    if clients != [] {
      FlattenEmpty(clients[1..]);
      if clients[0] == [] && AllEmpty(clients[1..]) {
        forall i | 0 <= i < |clients|
          ensures clients[i] == []
        {
          if i > 0 {
            assert clients[i] == clients[1..][i - 1];
          }
        }
      }
    }
  }

  /** Receiving from the first client that has bytes takes them off the front of all bytes waiting. */
  lemma TakeFromFirst(clients: seq<seq<byte>>, i: nat, n: nat)
    requires i < |clients| && n <= |clients[i]| && AllEmpty(clients[..i])
    ensures Flatten(clients) == clients[i][..n] + Flatten(clients[i := clients[i][n..]])
  {
    var after := clients[i := clients[i][n..]];
    FlattenEmpty(clients[..i]);
    assert clients == clients[..i] + ([clients[i]] + clients[i + 1..]);
    assert after == clients[..i] + ([clients[i][n..]] + clients[i + 1..]);
    FlattenConcat(clients[..i], [clients[i]] + clients[i + 1..]);
    FlattenConcat(clients[..i], [clients[i][n..]] + clients[i + 1..]);
    assert clients[i] == clients[i][..n] + clients[i][n..];
    Reassociate(clients[i][..n], clients[i][n..], Flatten(clients[i + 1..]));
  }

  // ---- Every client's account ----------------------------------------------------------------

  /** The bytes one receive took from a client. */
  datatype Chunk = Chunk(client: nat, data: seq<byte>)

  /** All bytes taken, in the order they were taken. */
  function Joined(chunks: seq<Chunk>): seq<byte> {
    if chunks == [] then [] else Joined(chunks[..|chunks| - 1]) + chunks[|chunks| - 1].data
  }

  /** The bytes taken from one client, in order. */
  function From(chunks: seq<Chunk>, i: nat): seq<byte> {
    if chunks == [] then []
    else From(chunks[..|chunks| - 1], i) + if chunks[|chunks| - 1].client == i then chunks[|chunks| - 1].data else []
  }

  predicate FromClients(chunks: seq<Chunk>, clients: nat) {
    forall k :: 0 <= k < |chunks| ==> chunks[k].client < clients
  }

  lemma ChunksSnoc(chunks: seq<Chunk>, c: Chunk)
    ensures Joined(chunks + [c]) == Joined(chunks) + c.data
    ensures forall i: nat :: From(chunks + [c], i) == From(chunks, i) + if c.client == i then c.data else []
  {
    assert (chunks + [c])[..|chunks|] == chunks;
  }

  lemma {:induction false} FromNobody(chunks: seq<Chunk>, clients: nat, i: nat)
    requires FromClients(chunks, clients) && i >= clients
    ensures From(chunks, i) == []
  {
    if chunks != [] {
      FromNobody(chunks[..|chunks| - 1], clients, i);
    }
  }

  /** What waits on the clients and on the connections behind them; all bytes each connection, in the
      order of its arrival, ever had for us; the receives; and how many bytes are still to come. */
  datatype View = View(clients: seq<seq<byte>>, backlog: seq<seq<byte>>, arrived: seq<seq<byte>>, chunks: seq<Chunk>,
                       supply: nat)

  /** What each connection ever had for us is what was taken from it, in order, and what still waits. */
  ghost predicate Balanced(v: View) {
    && |v.arrived| == |v.clients + v.backlog| && FromClients(v.chunks, |v.clients|)
    && forall i :: 0 <= i < |v.arrived| ==> v.arrived[i] == From(v.chunks, i) + (v.clients + v.backlog)[i]
  }

  /** More bytes on the connections there were, and more connections behind them. */
  predicate Grown(a: seq<seq<byte>>, b: seq<seq<byte>>) {
    |a| <= |b| && forall i :: 0 <= i < |a| ==> a[i] <= b[i]
  }

  lemma BalancedAccept(v: View)
    requires Balanced(v) && v.backlog != []
    ensures Balanced(v.(clients := v.clients + [v.backlog[0]], backlog := v.backlog[1..]))
  {
    assert (v.clients + [v.backlog[0]]) + v.backlog[1..] == v.clients + v.backlog;
  }

  lemma BalancedReceive(v: View, i: nat, n: nat)
    requires Balanced(v) && i < |v.clients| && n <= |v.clients[i]|
    ensures Balanced(v.(clients := v.clients[i := v.clients[i][n..]],
                        chunks := v.chunks + [Chunk(i, v.clients[i][..n])]))
  {
    var v' := v.(clients := v.clients[i := v.clients[i][n..]], chunks := v.chunks + [Chunk(i, v.clients[i][..n])]);
    ChunksSnoc(v.chunks, Chunk(i, v.clients[i][..n]));
    assert v.clients[i] == v.clients[i][..n] + v.clients[i][n..];
    Reassociate(From(v.chunks, i), v.clients[i][..n], v.clients[i][n..]);
    forall k | 0 <= k < |v.arrived|
      ensures v.arrived[k] == From(v'.chunks, k) + (v'.clients + v'.backlog)[k]
    {
      assert From(v.chunks, k) + [] == From(v.chunks, k);
      assert v.arrived[k] == From(v.chunks, k) + (v.clients + v.backlog)[k];
    }
  }

  /** The accounts once `waiting` waits on the connections. */
  function Accounts(chunks: seq<Chunk>, waiting: seq<seq<byte>>): seq<seq<byte>> {
    seq(|waiting|, i requires 0 <= i < |waiting| => From(chunks, i) + waiting[i])
  }

  lemma BalancedArrive(v: View, clients: seq<seq<byte>>, backlog: seq<seq<byte>>)
    requires Balanced(v) && |clients| == |v.clients| && Grown(v.clients + v.backlog, clients + backlog)
    ensures Balanced(v.(clients := clients, backlog := backlog, arrived := Accounts(v.chunks, clients + backlog)))
    ensures Grown(v.arrived, Accounts(v.chunks, clients + backlog))
  {
    var accounts := Accounts(v.chunks, clients + backlog);
    forall i | 0 <= i < |v.arrived|
      ensures v.arrived[i] <= accounts[i]
    {
      assert (v.clients + v.backlog)[i] <= (clients + backlog)[i];
    }
  }

  lemma GrownTwice(a: seq<seq<byte>>, b: seq<seq<byte>>, c: seq<seq<byte>>)
    requires Grown(a, b) && Grown(b, c)
    ensures Grown(a, c)
    ensures c == a ==> b == a
  {
    forall i | 0 <= i < |a|
      ensures a[i] <= c[i] && (c == a ==> b[i] == a[i])
    {
      assert a[i] <= b[i] && b[i] <= c[i];
    }
  }

  /** What the first `m` connections have for us, of all that arrived, beyond what was taken. */
  function Due(arrived: seq<seq<byte>>, chunks: seq<Chunk>, m: nat): seq<seq<byte>>
    requires m <= |arrived|
  {
    seq(m, i requires 0 <= i < m => Beyond(arrived[i], From(chunks, i)))
  }

  function Beyond(all: seq<byte>, taken: seq<byte>): seq<byte> {
    if taken <= all then all[|taken|..] else []
  }

  /** As long as nothing more arrives or is taken, that is what waits on them. */
  lemma DueIsWaiting(v: View)
    requires Balanced(v)
    ensures Due(v.arrived, v.chunks, |v.clients|) == v.clients
  {
    DueWaits(v, |v.clients|);
  }

  lemma DueWaits(v: View, m: nat)
    requires Balanced(v) && m <= |v.arrived|
    ensures Due(v.arrived, v.chunks, m) == (v.clients + v.backlog)[..m]
  {
    forall i | 0 <= i < m
      ensures Due(v.arrived, v.chunks, m)[i] == (v.clients + v.backlog)[i]
    {
      assert v.arrived[i] == From(v.chunks, i) + (v.clients + v.backlog)[i];
    }
  }

  lemma DueOfMore(arrived: seq<seq<byte>>, chunks: seq<Chunk>, m: nat, k: nat)
    requires m <= k <= |arrived| && FromClients(chunks, m)
    ensures Due(arrived, chunks, k) == Due(arrived, chunks, m) + arrived[m..k]
  {
    forall i | m <= i < k
      ensures Due(arrived, chunks, k)[i] == arrived[i]
    {
      FromNobody(chunks, m, i);
    }
  }

  /** `out` is the front of all that was due from the clients, in the order of the list, and what waits on
      them is the rest. */
  ghost predicate InTurn(arrived: seq<seq<byte>>, chunks: seq<Chunk>, out: seq<byte>, clients: seq<seq<byte>>) {
    |clients| <= |arrived| && Flatten(Due(arrived, chunks, |clients|)) == out + Flatten(clients)
  }

  /** Two reads after one another serve the clients in turn if each does and nothing arrives between. */
  lemma InTurnTwice(chunks: seq<Chunk>, out: seq<byte>, mid: View, chunk: seq<byte>, clients: seq<seq<byte>>)
    requires Balanced(mid) && FromClients(chunks, |mid.clients|)
    requires InTurn(mid.arrived, chunks, out, mid.clients) && InTurn(mid.arrived, mid.chunks, chunk, clients)
    requires |mid.clients| <= |clients|
    ensures InTurn(mid.arrived, chunks, out + chunk, clients)
  {
    var m, k := |mid.clients|, |clients|;
    var newcomers := mid.arrived[m..k];
    DueOfMore(mid.arrived, chunks, m, k);
    DueOfMore(mid.arrived, mid.chunks, m, k);
    DueIsWaiting(mid);
    FlattenConcat(Due(mid.arrived, chunks, m), newcomers);
    FlattenConcat(mid.clients, newcomers);
    Reassociate(out, Flatten(mid.clients), Flatten(newcomers));
    Reassociate(out, chunk, Flatten(clients));
  }

  /** The bytes that wait or are still to come. */
  function Size(v: View): nat {
    |Flatten(v.clients + v.backlog)| + v.supply
  }

  /** What a stretch of waiting, accepting and receiving did to the accounts: connections and bytes came,
      clients joined, and `out` was taken. */
  ghost predicate Moved(before: View, out: seq<byte>, after: View) {
    && |before.clients| <= |after.clients| && Grown(before.arrived, after.arrived)
    && Joined(after.chunks) == Joined(before.chunks) + out
    && |out| + Size(after) == Size(before)
  }

  lemma MovedTwice(start: View, out: seq<byte>, mid: View, chunk: seq<byte>, end: View)
    requires Moved(start, out, mid) && Moved(mid, chunk, end)
    ensures Moved(start, out + chunk, end)
    ensures end.arrived == start.arrived ==> mid.arrived == start.arrived
  {
    GrownTwice(start.arrived, mid.arrived, end.arrived);
    Reassociate(Joined(start.chunks), out, chunk);
  }

  lemma Unmoved(now: View)
    ensures Moved(now, [], now)
    ensures Balanced(now) ==> InTurn(now.arrived, now.chunks, [], now.clients)
  {
    assert Joined(now.chunks) + [] == Joined(now.chunks) && [] + Flatten(now.clients) == Flatten(now.clients);
    if Balanced(now) {
      DueIsWaiting(now);
    }
  }

  /** What may wait once bytes and connections have come. */
  predicate MayBecome(clients: seq<seq<byte>>, backlog: seq<seq<byte>>, supply: nat, c: seq<seq<byte>>,
                      b: seq<seq<byte>>)
  {
    && |c| == |clients| && |b| >= |backlog| && Grown(clients + backlog, c + b)
    && |Flatten(c + b)| <= |Flatten(clients + backlog)| + supply
  }

  lemma Came(before: View, clients: seq<seq<byte>>, backlog: seq<seq<byte>>, arrived: seq<seq<byte>>, supply: nat)
    requires |clients| == |before.clients| && Grown(before.arrived, arrived)
    requires |Flatten(clients + backlog)| + supply == Size(before)
    ensures Moved(before, [], View(clients, backlog, arrived, before.chunks, supply))
  {
    assert Joined(before.chunks) + [] == Joined(before.chunks);
  }

  /** Accepting moves connections from the backlog to the list and nothing else. */
  lemma Accepted(before: View, n: nat)
    requires n <= |before.backlog|
    ensures Moved(before, [], before.(clients := before.clients + before.backlog[..n], backlog := before.backlog[n..]))
  {
    assert (before.clients + before.backlog[..n]) + before.backlog[n..] == before.clients + before.backlog;
    assert Joined(before.chunks) + [] == Joined(before.chunks);
  }

  /** Receiving moves bytes from a client to the caller. */
  lemma Received(before: View, i: nat, n: nat)
    requires i < |before.clients| && n <= |before.clients[i]|
    ensures Moved(before, before.clients[i][..n],
                  before.(clients := before.clients[i := before.clients[i][n..]],
                          chunks := before.chunks + [Chunk(i, before.clients[i][..n])]))
  {
    ChunksSnoc(before.chunks, Chunk(i, before.clients[i][..n]));
    SizeAfterTake(before.clients + before.backlog, i, n);
    assert (before.clients + before.backlog)[i := before.clients[i][n..]]
        == before.clients[i := before.clients[i][n..]] + before.backlog;
  }

  // ---- Fan-out -------------------------------------------------------------------------------

  /** The first clients of the list, each tried once, in order. */
  predicate InOrder(sends: seq<Send<nat>>, clients: nat) {
    |sends| <= clients && forall i :: 0 <= i < |sends| ==> sends[i].to == i
  }

  /** How far a fan-out over a list of clients gets: to the end, unless the bound's worth of sends has
      gone through before; it stops right behind the last of them. */
  predicate FanOut(sends: seq<Send<nat>>, clients: nat, maxConnect: int) {
    && InOrder(sends, clients)
    && (maxConnect > 0 && sends != [] ==> Successes(sends[..|sends| - 1]) < maxConnect)
    && (|sends| < clients ==>
        maxConnect > 0 && sends != [] && sends[|sends| - 1].rc > 0 && Successes(sends) == maxConnect)
  }

  lemma {:induction false} AllSucceed(sends: seq<Send<nat>>)
    requires forall i :: 0 <= i < |sends| ==> sends[i].rc > 0
    ensures Successes(sends) == |sends|
  {
    if sends != [] {
      AllSucceed(sends[..|sends| - 1]);
    }
  }

  /** A fan-out can leave a client out exactly when the list is longer than a bound there is: as many sends
      as the bound allows may go through before its end. */
  lemma SomebodyMayBeLeftOut(clients: nat, maxConnect: int)
    ensures (exists sends: seq<Send<nat>> :: FanOut(sends, clients, maxConnect) && |sends| < clients)
            <==> 0 < maxConnect < clients
  {
    if 0 < maxConnect < clients {
      var sends: seq<Send<nat>> := seq(maxConnect, (i: nat) => Send(i, 1));
      AllSucceed(sends);
      AllSucceed(sends[..|sends| - 1]);
      assert FanOut(sends, clients, maxConnect);
    }
  }

  // ---- The transport -------------------------------------------------------------------------

  class TcpServer {
    const listening: bool
    const blocking: bool
    const maxConnect: int
    /** No accept, wait or receive ever fails although it has something to give. */
    const reliable: bool
    /** Nothing arrives during a wait. */
    const quiet: bool
    var clients: seq<seq<byte>>
    var backlog: seq<seq<byte>>
    /** How many bytes may still arrive, on whatever connection. */
    var supply: nat
    /** One has. */
    ghost var faulted: bool
    /** The bytes each connection ever had for us, the receives and the sends made. */
    ghost var arrived: seq<seq<byte>>
    ghost var chunks: seq<Chunk>
    ghost var attempts: seq<Send<nat>>

    ghost function Now(): View
      reads this`clients, this`backlog, this`arrived, this`chunks, this`supply
    {
      View(clients, backlog, arrived, chunks, supply)
    }

    /** Whatever fails and whatever arrives: no byte of any client is lost, repeated or moved ahead of an
        earlier one. */
    ghost predicate Valid()
      reads this`clients, this`backlog, this`arrived, this`chunks, this`supply, this`faulted
    {
      Balanced(Now()) && (reliable ==> !faulted)
    }

    constructor (listening: bool, blocking: bool, maxConnect: int, reliable: bool, quiet: bool, supply: nat)
      ensures Valid() && clients == [] && backlog == [] && !faulted && chunks == [] && this.supply == supply
      ensures this.listening == listening && this.blocking == blocking && this.maxConnect == maxConnect
      ensures this.reliable == reliable && this.quiet == quiet
    {
      this.listening, this.blocking, this.maxConnect := listening, blocking, maxConnect;
      this.reliable, this.quiet, this.supply := reliable, quiet, supply;
      clients, backlog, faulted, arrived, chunks, attempts := [], [], false, [], [], [];
    }

    // ---- The network ----

    /** Any connections and any bytes, on connections accepted or not, arrive. */
    method Arrivals()
      requires Valid()
      modifies this`clients, this`backlog, this`arrived, this`supply
      ensures Valid() && |clients| == |old(clients)| && |backlog| >= |old(backlog)|
      ensures Moved(old(Now()), [], Now()) && (quiet ==> Now() == old(Now()))
    {
      var c: seq<seq<byte>>, b: seq<seq<byte>> :| true;
      if quiet || !MayBecome(clients, backlog, supply, c, b) {
        Unmoved(Now());
        return;
      }
      BalancedArrive(Now(), c, b);
      ghost var accounts := Accounts(chunks, c + b);
      var left := |Flatten(clients + backlog)| + supply - |Flatten(c + b)|;
      Came(Now(), c, b, accounts, left);
      clients, backlog, arrived, supply := c, b, accounts, left;
    }

    /** `accept`: moves the oldest waiting connection to the caller, or fails. */
    method Accept() returns (client: Option<seq<byte>>)
      modifies this`backlog, this`faulted
      ensures client.Some? ==>
                && old(backlog) != [] && client.value == old(backlog)[0]
                && backlog == old(backlog)[1..] && faulted == old(faulted)
      ensures client.None? ==> backlog == old(backlog) && (backlog != [] ==> faulted)
      ensures old(faulted) ==> faulted
      ensures reliable ==> faulted == old(faulted)
    {
      var fails: bool :| reliable ==> !fails;
      if backlog == [] || fails {
        faulted := faulted || backlog != [];
        return None;
      }
      client := Some(backlog[0]);
      backlog := backlog[1..];
    }

    /** `select` over the clients, or over the listening socket; anything may arrive while it waits. */
    method Wait(onClients: bool) returns (ok: bool)
      requires Valid()
      modifies this`clients, this`backlog, this`arrived, this`supply, this`faulted
      ensures Valid() && |clients| == |old(clients)| && |backlog| >= |old(backlog)|
      ensures Moved(old(Now()), [], Now()) && chunks == old(chunks) && (quiet ==> Now() == old(Now()))
      ensures faulted == (old(faulted) || (!ok && if onClients then !AllEmpty(clients) else backlog != []))
    {
      Arrivals();
      ok :| reliable && (if onClients then !AllEmpty(clients) else backlog != []) ==> ok;
      faulted := faulted || (!ok && if onClients then !AllEmpty(clients) else backlog != []);
    }

    /** `recv` on a non-blocking client: a non-empty part of what waits, or nothing. */
    method Recv(i: nat, limit: nat) returns (data: seq<byte>)
      requires Valid() && i < |clients| && limit > 0
      modifies this`clients, this`faulted, this`chunks
      ensures Valid() && Moved(old(Now()), data, Now())
      ensures |data| <= Min(limit, |old(clients)[i]|) && data == old(clients)[i][..|data|]
      ensures clients == old(clients)[i := old(clients)[i][|data|..]]
      ensures chunks == if data == [] then old(chunks) else old(chunks) + [Chunk(i, data)]
      ensures data == [] ==> clients == old(clients) && (clients[i] != [] ==> faulted)
      ensures data != [] ==> faulted == old(faulted)
      ensures old(faulted) ==> faulted
    {
      var n: nat :| n <= limit && n <= |clients[i]| && (reliable && clients[i] != [] ==> n > 0);
      if n == 0 {
        Unmoved(Now());
        faulted := faulted || clients[i] != [];
        assert clients[i][0..] == clients[i];
        return [];
      }
      data := clients[i][..n];
      BalancedReceive(Now(), i, n);
      Received(Now(), i, n);
      chunks := chunks + [Chunk(i, data)];
      clients := clients[i := clients[i][n..]];
    }

    method SendTo(i: nat, data: seq<byte>) returns (rc: int)
      requires i < |clients|
      modifies this`attempts
      ensures rc <= |data| && attempts == old(attempts) + [Send(i, rc)]
    {
      rc :| rc <= |data|;
      attempts := attempts + [Send(i, rc)];
    }

    // ---- The transport ----

    /** `accept_clients`: waiting connections join the list at its end, oldest first. */
    method AcceptClients() returns (ghost n: nat)
      requires Valid()
      modifies this`clients, this`backlog, this`faulted
      ensures Valid() && Moved(old(Now()), [], Now())
      ensures n <= |old(backlog)|
      ensures clients == old(clients) + old(backlog)[..n] && backlog == old(backlog)[n..]
      ensures old(faulted) ==> faulted
      ensures listening && !faulted ==> n == AcceptCount(|old(clients)|, |old(backlog)|, maxConnect)
      ensures listening && !faulted ==> Full(|clients|, |backlog|, maxConnect) && (old(backlog) != [] ==> n > 0)
      ensures maxConnect > 0 && n > 1 ==> |clients| <= maxConnect
      ensures !listening ==> n == 0
    {
      n := 0;
      assert old(backlog)[..0] == [];
      if !listening {
        Unmoved(Now());
        return;
      }
      while true
        invariant n <= |old(backlog)|
        invariant clients == old(clients) + old(backlog)[..n] && backlog == old(backlog)[n..]
        invariant Valid()
        invariant old(faulted) ==> faulted
        invariant maxConnect > 0 && n > 0 ==> |clients| < maxConnect
        decreases |backlog|
      {
        var joined := AcceptNext();
        if !joined {
          break;
        }
        OneMoreJoins(old(clients), old(backlog), n);
        n := n + 1;
        if maxConnect > 0 && |clients| >= maxConnect {
          break;
        }
      }
      Accepted(old(Now()), n);
    }

    /** One turn of the loop: the oldest waiting connection joins the list, if there is one. */
    method AcceptNext() returns (joined: bool)
      requires Valid()
      modifies this`clients, this`backlog, this`faulted
      ensures Valid() && (old(faulted) ==> faulted)
      ensures if joined then
                old(backlog) != [] && clients == old(clients) + [old(backlog)[0]] && backlog == old(backlog)[1..]
              else
                clients == old(clients) && backlog == old(backlog) && (backlog != [] ==> faulted)
      ensures joined ==> faulted == old(faulted)
    {
      ghost var before := Now();
      var client := Accept();
      joined := client.Some?;
      if joined {
        BalancedAccept(before);
        clients := clients + [client.value];
      }
    }

    /** `in_waiting`: the bytes of the first client that has some. */
    method InWaiting() returns (n: nat)
      ensures n == 0 <==> AllEmpty(clients)
      ensures n > 0 ==> exists i :: 0 <= i < |clients| && AllEmpty(clients[..i]) && n == |clients[i]|
    {
      for i := 0 to |clients|
        invariant AllEmpty(clients[..i])
      {
        if clients[i] != [] {
          return |clients[i]|;
        }
        assert clients[..i + 1] == clients[..i] + [clients[i]];
      }
      assert clients[..|clients|] == clients;
      n := 0;
    }

    method AcceptBlocking() returns (ok: bool)
      requires Valid() && clients == []
      modifies this`clients, this`backlog, this`arrived, this`supply, this`faulted
      ensures Valid() && Moved(old(Now()), [], Now()) && chunks == old(chunks)
      ensures old(faulted) ==> faulted
      ensures ok <==> clients != []
      ensures quiet ==> arrived == old(arrived)
      ensures quiet && !faulted && old(Full(|clients|, |backlog|, maxConnect)) ==>
              Full(|clients|, |backlog|, maxConnect)
      ensures !listening ==> clients == [] && arrived == old(arrived)
    {
      if !listening {
        Unmoved(Now());
        return false;
      }
      var ready := Wait(false);
      if !ready {
        return false;
      }
      ghost var mid := Now();
      var _ := AcceptClients();
      MovedTwice(old(Now()), [], mid, [], Now());
      ok := clients != [];
    }

    /** What `read` does before it receives: accept, and wait if it may. */
    method PrepareToRead() returns (ready: bool)
      requires Valid()
      modifies this`clients, this`backlog, this`arrived, this`supply, this`faulted
      ensures Valid() && Moved(old(Now()), [], Now()) && chunks == old(chunks)
      ensures old(faulted) ==> faulted
      ensures !blocking || quiet ==> arrived == old(arrived)
      ensures !listening ==> |clients| == |old(clients)|
      ensures !faulted && listening && old(clients) != [] ==>
                |clients| == |old(clients)| + AcceptCount(|old(clients)|, |old(backlog)|, maxConnect)
      ensures !ready && !faulted ==> AllEmpty(clients)
      ensures (quiet || !blocking) && listening && !faulted ==> Full(|clients|, |backlog|, maxConnect)
    {
      var _ := AcceptClients();
      if clients == [] {
        if !blocking {
          return false;
        }
        ghost var mid := Now();
        var ok := AcceptBlocking();
        MovedTwice(old(Now()), [], mid, [], Now());
        if !ok {
          return false;
        }
      }
      ready := true;
      if blocking {
        ghost var mid := Now();
        ready := Wait(true);
        MovedTwice(old(Now()), [], mid, [], Now());
      }
    }

    /** The last loop of `read`: the first client with bytes gives some of them. */
    method ReceiveFirst(maxBytes: nat) returns (out: seq<byte>)
      requires Valid() && maxBytes > 0
      modifies this`clients, this`faulted, this`chunks
      ensures Valid() && Moved(old(Now()), out, Now()) && |clients| == |old(clients)| && |out| <= maxBytes
      ensures old(faulted) ==> faulted
      ensures !faulted ==> Flatten(old(clients)) == out + Flatten(clients)
      ensures out == [] && !faulted ==> AllEmpty(clients)
    {
      ghost var start := clients;
      Unmoved(Now());
      for i := 0 to |clients|
        invariant clients == start && Valid() && chunks == old(chunks)
        invariant old(faulted) ==> faulted
        invariant !faulted ==> AllEmpty(start[..i])
      {
        out := Recv(i, maxBytes);
        if out != [] {
          if !faulted {
            TakeFromFirst(start, i, |out|);
          }
          return;
        }
        assert start[..i + 1] == start[..i] + [start[i]];
      }
      assert start[..|start|] == start;
      out := [];
      assert [] + Flatten(clients) == Flatten(clients);
    }

    /** `read(max_bytes)`: accepts, then serves the first client with bytes, those that arrived while it
        waited included. */
    method Read(maxBytes: nat) returns (out: seq<byte>)
      requires Valid()
      modifies this`clients, this`backlog, this`arrived, this`supply, this`faulted, this`chunks
      ensures Valid() && Moved(old(Now()), out, Now()) && |out| <= maxBytes
      ensures old(faulted) ==> faulted
      ensures !faulted ==> InTurn(arrived, old(chunks), out, clients)
      ensures maxBytes == 0 || !blocking || quiet ==> arrived == old(arrived)
      ensures maxBytes == 0 || !listening ==> |clients| == |old(clients)|
      ensures maxBytes > 0 && !faulted && listening && old(clients) != [] ==>
                |clients| == |old(clients)| + AcceptCount(|old(clients)|, |old(backlog)|, maxConnect)
      ensures out == [] && maxBytes > 0 && !faulted ==> AllEmpty(clients)
      ensures maxBytes > 0 && (quiet || !blocking) && listening && !faulted ==> Full(|clients|, |backlog|, maxConnect)
    {
      out := [];
      Unmoved(Now());
      if maxBytes == 0 {
        return;
      }
      var ready := PrepareToRead();
      ghost var mid := Now();
      Unmoved(mid);
      if ready {
        DueIsWaiting(mid);
        out := ReceiveFirst(maxBytes);
        MovedTwice(old(Now()), [], mid, out, Now());
        assert [] + out == out;
      }
    }

    /** One turn of the drain, given what the turns before it did: it ends the loop if it came back with
        nothing, else looks again. */
    method ReadOn(available: nat, ghost start: View, ghost out: seq<byte>) returns (chunk: seq<byte>, next: nat)
      requires Valid() && available > 0 && FromClients(start.chunks, |clients|)
      requires Moved(start, out, Now())
      requires !faulted && arrived == start.arrived ==> InTurn(arrived, start.chunks, out, clients)
      modifies this`clients, this`backlog, this`arrived, this`supply, this`faulted, this`chunks
      ensures Valid() && (old(faulted) ==> faulted) && FromClients(start.chunks, |clients|)
      ensures Moved(start, out + chunk, Now())
      ensures !faulted && arrived == start.arrived ==> InTurn(arrived, start.chunks, out + chunk, clients)
      ensures |chunk| + Size(Now()) == Size(old(Now()))
      ensures if chunk == [] then next == 0 && (!faulted ==> AllEmpty(clients)) else next == 0 <==> AllEmpty(clients)
      ensures |clients| >= |old(clients)| && (!blocking || quiet ==> arrived == old(arrived))
      ensures !faulted && listening && old(clients) != [] ==>
                |clients| == |old(clients)| + AcceptCount(|old(clients)|, |old(backlog)|, maxConnect)
      ensures (quiet || !blocking) && listening && !faulted ==> Full(|clients|, |backlog|, maxConnect)
    {
      ghost var before := Now();
      chunk := Read(available);
      MovedTwice(start, out, before, chunk, Now());
      if !faulted && arrived == start.arrived {
        InTurnTwice(start.chunks, out, before, chunk, clients);
      }
      next := 0;
      if chunk != [] {
        next := InWaiting();
      }
    }

    /** How `read_all` begins: if nobody has bytes and it may block, it waits on the clients it has, not
        on new connections, and looks again. */
    method FirstWaiting() returns (available: nat)
      requires Valid()
      modifies this`clients, this`backlog, this`arrived, this`supply, this`faulted
      ensures Valid() && Moved(old(Now()), [], Now()) && chunks == old(chunks) && |clients| == |old(clients)|
      ensures old(faulted) ==> faulted
      ensures if available > 0 then !AllEmpty(clients) else !faulted ==> AllEmpty(clients)
      ensures !blocking || clients == [] || !AllEmpty(old(clients)) ==> Now() == old(Now()) && faulted == old(faulted)
      ensures quiet ==> Now() == old(Now())
      ensures AllEmpty(old(clients)) && arrived == old(arrived) ==> available == 0
    {
      Unmoved(Now());
      available := InWaiting();
      if available == 0 && blocking {
        if clients == [] {
          return;
        }
        var ready := Wait(true);
        if !ready {
          return;
        }
        available := InWaiting();
        if arrived == old(arrived) {
          DueIsWaiting(Now());
          DueIsWaiting(old(Now()));
        }
      }
    }

    /** The loop of `read_all`, entered with bytes waiting. */
    method Drain(first: nat) returns (out: seq<byte>)
      requires Valid() && first > 0 && !AllEmpty(clients)
      modifies this`clients, this`backlog, this`arrived, this`supply, this`faulted, this`chunks
      ensures Valid() && Moved(old(Now()), out, Now())
      ensures old(faulted) ==> faulted
      ensures !faulted ==> AllEmpty(clients)
      ensures !faulted && arrived == old(arrived) ==> InTurn(arrived, old(chunks), out, clients)
      ensures !blocking || quiet ==> arrived == old(arrived)
      ensures !faulted && listening ==>
              |clients| >= |old(clients)| + AcceptCount(|old(clients)|, |old(backlog)|, maxConnect)
      ensures (quiet || !blocking) && listening && !faulted ==> Full(|clients|, |backlog|, maxConnect)
    {
      out := [];
      ghost var start, due := Now(), |clients| + AcceptCount(|clients|, |backlog|, maxConnect);
      Unmoved(start);
      var available := first;
      ghost var begun := false;
      while available > 0
        invariant Valid() && (old(faulted) ==> faulted) && FromClients(start.chunks, |clients|)
        invariant Moved(start, out, Now())
        invariant !faulted && arrived == start.arrived ==> InTurn(arrived, start.chunks, out, clients)
        invariant if available > 0 then !AllEmpty(clients) else !faulted ==> AllEmpty(clients)
        invariant !blocking || quiet ==> arrived == start.arrived
        invariant if begun then !faulted && listening ==> |clients| >= due else available > 0 && Now() == start
        invariant begun && (quiet || !blocking) && listening && !faulted ==> Full(|clients|, |backlog|, maxConnect)
        decreases available > 0, Size(Now())
      {
        var chunk, next := ReadOn(available, start, out);
        out, available := out + chunk, next;
        begun := true;
      }
    }

    /** `read_all`: it hands out what the clients have, and if nothing fails, leaves none of them with
        bytes. `begun` is what had arrived when, having waited if it had to, it began: if nothing comes
        after that, the bytes are those of all clients in the order of the list, those it accepted on the
        way included. It looks at the backlog only if some client has bytes to begin with; then it accepts
        at least one round, and without a bound the whole backlog. With no clients it neither waits nor
        accepts. Whatever fails or comes, each client's bytes stay in order. */
    method ReadAll() returns (out: seq<byte>, ghost begun: seq<seq<byte>>)
      requires Valid()
      modifies this`clients, this`backlog, this`arrived, this`supply, this`faulted, this`chunks
      ensures Valid() && Moved(old(Now()), out, Now())
      ensures Grown(old(arrived), begun) && Grown(begun, arrived)
      ensures !faulted ==> AllEmpty(clients)
      ensures !faulted && arrived == begun ==>
                |clients| <= |begun| && out == Flatten(Due(begun, old(chunks), |clients|))
      ensures !faulted && arrived == old(arrived) ==>
                |clients| <= |arrived| && out == Flatten(old(clients + backlog)[..|clients|])
      ensures !blocking || quiet ==> arrived == old(arrived)
      ensures old(clients) == [] ==> Now() == old(Now())
      ensures AllEmpty(old(clients)) && begun == old(arrived) ==> out == [] && clients == old(clients)
      ensures !AllEmpty(old(clients)) ==> begun == old(arrived)
      ensures !AllEmpty(old(clients)) && !faulted && listening ==>
                |clients| >= |old(clients)| + AcceptCount(|old(clients)|, |old(backlog)|, maxConnect)
      ensures !AllEmpty(old(clients)) && (quiet || !blocking) && listening && !faulted ==>
                Full(|clients|, |backlog|, maxConnect)
      ensures !AllEmpty(old(clients)) && (quiet || !blocking) && listening && !faulted && maxConnect <= 0 ==>
                backlog == [] && out == Flatten(old(clients + backlog))
    {
      out := [];
      var available := FirstWaiting();
      ghost var mid := Now();
      begun := arrived;
      Unmoved(mid);
      if available > 0 {
        out := Drain(available);
      }
      Unmoved(Now());
      MovedTwice(old(Now()), [], mid, out, Now());
      assert [] + out == out;
      if !faulted {
        DrainEnd(begun, old(chunks), out, clients);
      }
      if arrived == old(arrived) {
        GrownTwice(old(arrived), begun, arrived);
        DueIsWaiting(mid);
        DueIsWaiting(old(Now()));
        if !faulted {
          HandedOut(old(Now()), out, |clients|);
        }
      }
    }

    /** The fan-out loop. */
    method SendToClients(data: seq<byte>) returns (size: nat, ghost sends: seq<Send<nat>>)
      modifies this`attempts
      ensures attempts == old(attempts) + sends && size == LastSuccess(sends) <= |data|
      ensures FanOut(sends, |clients|, maxConnect)
    {
      size, sends := 0, [];
      var remaining := maxConnect;
      for i := 0 to |clients|
        invariant |sends| == i && InOrder(sends, |clients|)
        invariant size == LastSuccess(sends) <= |data|
        invariant attempts == old(attempts) + sends
        invariant maxConnect > 0 ==> remaining == maxConnect - Successes(sends) > 0
      {
        var rc := SendTo(i, data);
        Reassociate(old(attempts), sends, [Send(i, rc)]);
        assert (sends + [Send(i, rc)])[..|sends|] == sends;
        sends := sends + [Send(i, rc)];
        if rc > 0 {
          size := rc;
          if maxConnect > 0 {
            remaining := remaining - 1;
            if remaining <= 0 {
              break;
            }
          }
        }
      }
    }

    /** `write`: accepts, then sends to the clients in order until the bound is used up; the result is
        that of the last send that went through. Only a list that has grown past its bound can leave a
        client out. */
    method Write(data: seq<byte>) returns (size: nat, ghost n: nat, ghost sends: seq<Send<nat>>)
      requires Valid()
      modifies this`clients, this`backlog, this`faulted, this`attempts
      ensures Valid() && n <= |old(backlog)|
      ensures clients == old(clients) + old(backlog)[..n] && backlog == old(backlog)[n..]
      ensures attempts == old(attempts) + sends && size == LastSuccess(sends) <= |data|
      ensures if data == [] then n == 0 && sends == [] else FanOut(sends, |clients|, maxConnect)
      ensures data != [] && (maxConnect <= 0 || |clients| <= maxConnect) ==> |sends| == |clients|
      ensures data != [] && listening && !faulted ==> n == AcceptCount(|old(clients)|, |old(backlog)|, maxConnect)
      ensures data != [] && listening && !faulted ==>
                Full(|clients|, |backlog|, maxConnect) && (old(backlog) != [] ==> n > 0)
      ensures maxConnect > 0 && n > 1 ==> |clients| <= maxConnect
      ensures data != [] && listening && !faulted && maxConnect <= 0 ==>
                clients == old(clients) + old(backlog) && |sends| == |clients|
    {
      size, n, sends := 0, 0, [];
      assert old(clients) + old(backlog)[..0] == old(clients);
      if data == [] {
        return;
      }
      n := AcceptClients();
      if clients == [] {
        return;
      }
      size, sends := SendToClients(data);
    }
  }

  lemma OneMoreJoins(clients: seq<seq<byte>>, backlog: seq<seq<byte>>, n: nat)
    requires n < |backlog|
    ensures clients + backlog[..n] + [backlog[n..][0]] == clients + backlog[..n + 1]
    ensures backlog[n..][1..] == backlog[n + 1..]
  {
  }

  /** When nothing arrived, what is due is what waited. */
  lemma HandedOut(before: View, out: seq<byte>, m: nat)
    requires Balanced(before) && m <= |before.arrived| && out == Flatten(Due(before.arrived, before.chunks, m))
    ensures out == Flatten((before.clients + before.backlog)[..m])
    ensures m == |before.arrived| ==> out == Flatten(before.clients + before.backlog)
  {
    DueWaits(before, m);
    assert (before.clients + before.backlog)[..|before.arrived|] == before.clients + before.backlog;
  }

  lemma DrainEnd(arrived: seq<seq<byte>>, chunks: seq<Chunk>, out: seq<byte>, clients: seq<seq<byte>>)
    requires AllEmpty(clients)
    ensures InTurn(arrived, chunks, out, clients) ==> out == Flatten(Due(arrived, chunks, |clients|))
  {
    FlattenEmpty(clients);
    assert out + [] == out;
  }

  lemma {:induction false} SizeAfterTake(clients: seq<seq<byte>>, i: nat, n: nat)
    requires i < |clients| && n <= |clients[i]|
    ensures |Flatten(clients)| == n + |Flatten(clients[i := clients[i][n..]])|
  {
    if i > 0 {
      SizeAfterTake(clients[1..], i - 1, n);
      assert clients[i := clients[i][n..]][1..] == clients[1..][i - 1 := clients[i][n..]];
    }
  }
}
