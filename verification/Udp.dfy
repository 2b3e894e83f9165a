/** The UDP transport of src/UDP.cpp: a byte stream over datagrams, and the table of peers its writes
    fan out to. The kernel's receive queue is part of the state; waiting, receiving and sending may fail
    at any call. */
module Udp {
  import opened Bytes
  import opened Sends
  import Streams

  /** A `sockaddr_storage` and the length that says how much of it counts. */
  datatype Peer = Peer(storage: seq<byte>, len: nat) {
    predicate Proper() {
      len <= |storage|
    }
  }

  /** `sockaddr_equal`. */
  predicate Same(a: Peer, b: Peer)
    requires a.Proper() && b.Proper()
  {
    a.len == b.len && a.storage[..a.len] == b.storage[..b.len]
  }

  /** The bytes of an address that count. */
  function Address(p: Peer): seq<byte>
    requires p.Proper()
  {
    p.storage[..p.len]
  }

  /** Two peers are the same exactly if these are. */
  lemma SameIsAddress(a: Peer, b: Peer)
    requires a.Proper() && b.Proper()
    ensures Same(a, b) <==> Address(a) == Address(b)
  {
    assert |Address(a)| == a.len && |Address(b)| == b.len;
  }

  datatype Datagram = Datagram(from: Peer, data: seq<byte>)

  // ---- The peer table ------------------------------------------------------------------------

  predicate AllProper(peers: seq<Peer>) {
    forall i :: 0 <= i < |peers| ==> peers[i].Proper()
  }

  predicate Known(peers: seq<Peer>, p: Peer)
    requires AllProper(peers) && p.Proper()
  {
    exists i :: 0 <= i < |peers| && Same(peers[i], p)
  }

  predicate Distinct(peers: seq<Peer>)
    requires AllProper(peers)
  {
    forall i, j :: 0 <= i < j < |peers| ==> !Same(peers[i], peers[j])
  }

  /** What `add_peer` makes of the table. */
  function WithPeer(peers: seq<Peer>, p: Peer, maxConnect: int): seq<Peer>
    requires AllProper(peers) && p.Proper()
  {
    if Known(peers, p) then peers
    else if maxConnect > 0 && |peers| + 1 > maxConnect then (peers + [p])[1..]
    else peers + [p]
  }

  /** A well-kept table: no peer twice, and never more than the bound. */
  predicate TableOk(peers: seq<Peer>, maxConnect: int) {
    AllProper(peers) && Distinct(peers) && (maxConnect > 0 ==> |peers| <= maxConnect)
  }

  /** Adding a peer keeps the table, leaves the peer known, keeps the order of those
      that stay, and drops at most the oldest. */
  lemma WithPeerKeeps(peers: seq<Peer>, p: Peer, maxConnect: int)
    requires TableOk(peers, maxConnect) && p.Proper()
    ensures var after := WithPeer(peers, p, maxConnect);
            && TableOk(after, maxConnect)
            && Known(after, p)
            && (after == peers || after == peers + [p] || (peers != [] && after == peers[1..] + [p]))
            && (Known(peers, p) <==> after == peers)
            && (!Known(peers, p) && (maxConnect <= 0 || |peers| < maxConnect) ==> after == peers + [p])
            && (maxConnect > 0 && |peers| == maxConnect && !Known(peers, p) ==> after == peers[1..] + [p])
  {
    var after := WithPeer(peers, p, maxConnect);
    if !Known(peers, p) {
      assert after[|after| - 1] == p;
      assert Same(after[|after| - 1], p);
      if maxConnect > 0 && |peers| + 1 > maxConnect {
        assert after == peers[1..] + [p];
      }
    }
  }

  predicate SendersOk(queue: seq<Datagram>) {
    forall i :: 0 <= i < |queue| ==> queue[i].from.Proper()
  }

  /** The table after datagrams from these senders. */
  function TableOf(senders: seq<Peer>, maxConnect: int): (peers: seq<Peer>)
    requires AllProper(senders)
    ensures AllProper(peers)
  {
    if senders == [] then []
    else WithPeer(TableOf(senders[..|senders| - 1], maxConnect), senders[|senders| - 1], maxConnect)
  }

  function Addresses(peers: seq<Peer>): set<seq<byte>>
    requires AllProper(peers)
  {
    set i | 0 <= i < |peers| :: Address(peers[i])
  }

  lemma KnownIsAddress(peers: seq<Peer>, p: Peer)
    requires AllProper(peers) && p.Proper()
    ensures Known(peers, p) <==> Address(p) in Addresses(peers)
  {
    forall i | 0 <= i < |peers|
      ensures Same(peers[i], p) <==> Address(peers[i]) == Address(p)
    {
      SameIsAddress(peers[i], p);
    }
  }

  lemma AddressesSnoc(peers: seq<Peer>, p: Peer)
    requires AllProper(peers) && p.Proper()
    ensures Addresses(peers + [p]) == Addresses(peers) + {Address(p)}
  {
    var all := peers + [p];
    forall a | a in Addresses(peers)
      ensures a in Addresses(all)
    {
      var i :| 0 <= i < |peers| && a == Address(peers[i]);
      assert all[i] == peers[i];
    }
    assert all[|peers|] == p;
  }

  lemma {:induction false} DistinctAddresses(peers: seq<Peer>)
    requires AllProper(peers) && Distinct(peers)
    ensures |Addresses(peers)| == |peers|
  {
    if peers != [] {
      var n := |peers| - 1;
      var before := peers[..n];
      DistinctAddresses(before);
      AddressesSnoc(before, peers[n]);
      KnownIsAddress(before, peers[n]);
      assert peers == before + [peers[n]];
    }
  }

  lemma Fewer(a: set<seq<byte>>, b: set<seq<byte>>)
    requires a <= b
    ensures |a| <= |b|
  {
    assert b == a + (b - a);
  }

  /** Any senders, in any order: the table is well kept, holds only senders and the last of them, and holds
      all of them, told apart by their addresses, as long as there is no bound or no more than it allows. */
  lemma {:induction false} AllTracked(senders: seq<Peer>, maxConnect: int)
    requires AllProper(senders)
    ensures TableOk(TableOf(senders, maxConnect), maxConnect)
    ensures senders != [] ==> Address(senders[|senders| - 1]) in Addresses(TableOf(senders, maxConnect))
    ensures Addresses(TableOf(senders, maxConnect)) <= Addresses(senders)
    ensures maxConnect <= 0 || |Addresses(senders)| <= maxConnect ==>
              Addresses(TableOf(senders, maxConnect)) == Addresses(senders)
  {
    if senders != [] {
      var n := |senders| - 1;
      var before, p := senders[..n], senders[n];
      AllTracked(before, maxConnect);
      AddressesSnoc(before, p);
      assert senders == before + [p];
      OneMoreTracked(TableOf(before, maxConnect), p, Addresses(before), maxConnect);
      Fewer(Addresses(before), Addresses(senders));
    }
  }

  /** The table and the last peer are those that these senders leave; with a bound of one only the last
      is kept. */
  ghost predicate Tracking(peers: seq<Peer>, lastPeer: Option<Peer>, senders: seq<Peer>, maxConnect: int) {
    && AllProper(senders)
    && peers == (if maxConnect != 1 then TableOf(senders, maxConnect) else [])
    && lastPeer == (if senders == [] then None else Some(senders[|senders| - 1]))
  }

  /** The same, kept folded: its parts come to light only where `Looking` is mentioned, which spares the
      proofs that merely pass it on. */
  ghost predicate Tracked(peers: seq<Peer>, lastPeer: Option<Peer>, senders: seq<Peer>, maxConnect: int) {
    forall k: int {:trigger Looking(k)} :: Looking(k) ==> Tracking(peers, lastPeer, senders, maxConnect)
  }

  predicate Looking(k: int) {
    true
  }

  lemma TrackedMeans(peers: seq<Peer>, lastPeer: Option<Peer>, senders: seq<Peer>, maxConnect: int)
    ensures Tracked(peers, lastPeer, senders, maxConnect) <==> Tracking(peers, lastPeer, senders, maxConnect)
    ensures Tracking(peers, lastPeer, senders, maxConnect) ==> TableOk(peers, maxConnect)
  {
    assert Looking(0);
    if Tracking(peers, lastPeer, senders, maxConnect) {
      AllTracked(senders, maxConnect);
    }
  }

  lemma TrackedMore(peers: seq<Peer>, lastPeer: Option<Peer>, senders: seq<Peer>, maxConnect: int, from: Peer)
    requires Tracked(peers, lastPeer, senders, maxConnect) && from.Proper() && AllProper(peers)
    ensures Tracked(
              if maxConnect != 1 then WithPeer(peers, from, maxConnect) else peers,
              Some(from), senders + [from], maxConnect)
  {
    assert Looking(0);
    assert (senders + [from])[..|senders|] == senders;
  }

  lemma OneMoreTracked(table: seq<Peer>, p: Peer, came: set<seq<byte>>, maxConnect: int)
    requires TableOk(table, maxConnect) && p.Proper() && Addresses(table) <= came
    requires maxConnect <= 0 || |came| <= maxConnect ==> Addresses(table) == came
    ensures var after := WithPeer(table, p, maxConnect);
            && TableOk(after, maxConnect)
            && Address(p) in Addresses(after) && Addresses(after) <= came + {Address(p)}
            && (maxConnect <= 0 || |came + {Address(p)}| <= maxConnect ==> Addresses(after) == came + {Address(p)})
  {
    var after := WithPeer(table, p, maxConnect);
    WithPeerKeeps(table, p, maxConnect);
    KnownIsAddress(table, p);
    KnownIsAddress(after, p);
    AddressesSnoc(table, p);
    DistinctAddresses(table);
    Fewer(came, came + {Address(p)});
    if !Known(table, p) {
      Fewer(Addresses(table) + {Address(p)}, came + {Address(p)});
      if table != [] {
        AddressesSnoc(table[1..], p);
        forall a | a in Addresses(table[1..])
          ensures a in Addresses(table)
        {
          var i :| 0 <= i < |table[1..]| && a == Address(table[1..][i]);
          assert table[i + 1] == table[1..][i];
        }
      }
    }
  }

  // ---- The transport -------------------------------------------------------------------------

  function DataOf(queue: seq<Datagram>): seq<seq<byte>> {
    if queue == [] then [] else [queue[0].data] + DataOf(queue[1..])
  }

  /** How many datagrams stand before the first empty one. */
  function BeforeEmpty(queue: seq<Datagram>): (n: nat)
    ensures n <= |queue|
  {
    if queue == [] || queue[0].data == [] then 0 else 1 + BeforeEmpty(queue[1..])
  }

  lemma NewDatagram(consumed: seq<seq<byte>>, delivered: seq<byte>, data: seq<byte>, out: seq<byte>, rest: seq<byte>)
    requires Flatten(consumed) == delivered + [] && data == out + rest
    ensures Flatten(consumed + [data]) == (delivered + out) + rest
  {
    FlattenSnoc(consumed, data);
    assert delivered + [] == delivered;
    Reassociate(delivered, out, rest);
  }

  class UdpTransport {
    const valid: bool
    const blocking: bool
    const maxConnect: int
    /** No wait or receive ever fails although a datagram is there. */
    const reliable: bool
    const remote: Option<Peer>
    const broadcast: Option<Peer>
    var lastPeer: Option<Peer>
    var peers: seq<Peer>
    var pending: seq<byte>
    var pendingOffset: nat

    /** The kernel's queue, and the datagrams that will ever be added to it, in order. */
    var queue: seq<Datagram>
    var future: seq<Datagram>
    /** The datagrams taken, the bytes handed out, the send attempts made. */
    ghost var consumed: seq<seq<byte>>
    ghost var delivered: seq<byte>
    ghost var attempts: seq<Send<Peer>>
    /** Who sent the datagrams taken. */
    ghost var senders: seq<Peer>
    /** One has. */
    ghost var faulted: bool

    ghost predicate StreamOk()
      reads this`pending, this`pendingOffset, this`consumed, this`delivered
    {
      && (pendingOffset < |pending| || (pending == [] && pendingOffset == 0))
      && Flatten(consumed) == delivered + pending[pendingOffset..]
    }

    ghost predicate PeersOk()
      reads this`peers, this`senders, this`lastPeer, this`queue, this`future
    {
      && Tracked(peers, lastPeer, senders, maxConnect)
      && SendersOk(queue) && SendersOk(future)
    }

    ghost predicate Valid()
      reads this
    {
      StreamOk() && PeersOk() && (reliable ==> !faulted)
    }

    /** The bytes of the datagram being read that are still to be handed out. */
    function Remaining(): seq<byte>
      reads this`pending, this`pendingOffset
    {
      if pendingOffset <= |pending| then pending[pendingOffset..] else []
    }

    constructor (valid: bool, blocking: bool, maxConnect: int, remote: Option<Peer>, broadcast: Option<Peer>,
                 reliable: bool, future: seq<Datagram>)
      requires SendersOk(future)
      ensures Valid() && queue == [] && this.future == future && delivered == [] && consumed == [] && peers == []
      ensures this.valid == valid && this.blocking == blocking && this.maxConnect == maxConnect
      ensures this.remote == remote && this.broadcast == broadcast && this.reliable == reliable
    {
      this.valid, this.blocking, this.maxConnect := valid, blocking, maxConnect;
      this.remote, this.broadcast := remote, broadcast;
      lastPeer, peers, pending, pendingOffset, queue := None, [], [], 0, [];
      this.reliable, this.future := reliable, future;
      consumed, delivered, attempts, senders, faulted := [], [], [], [], false;
    }

    /** Any number of datagrams arrive. */
    method Arrivals()
      modifies this`queue, this`future
      ensures queue + future == old(queue) + old(future) && old(queue) <= queue
      ensures old(PeersOk()) ==> PeersOk()
    {
      var n: nat :| n <= |future|;
      Reassociate(queue, future[..n], future[n..]);
      assert future == future[..n] + future[n..];
      queue, future := queue + future[..n], future[n..];
    }

    /** What was received, and what of it was handed out. */
    ghost function Account(): Streams.Account
      reads this`consumed, this`delivered
    {
      Streams.Account(Flatten(consumed), delivered)
    }

    // ---- System calls ----

    /** `socket_in_waiting`: at least the size of the head datagram; an empty one does not show. */
    method SocketInWaiting() returns (n: nat)
      ensures n > 0 <==> valid && queue != [] && queue[0].data != []
      ensures n > 0 ==> n >= |queue[0].data|
    {
      if !valid || queue == [] || queue[0].data == [] {
        return 0;
      }
      n :| n >= |queue[0].data|;
    }

    /** `wait_for_read`: datagrams may arrive while it waits. */
    method WaitForRead() returns (ok: bool)
      modifies this`queue, this`future, this`faulted
      ensures queue + future == old(queue) + old(future) && old(queue) <= queue
      ensures old(PeersOk()) ==> PeersOk()
      ensures old(faulted) ==> faulted
      ensures !ok && queue != [] ==> faulted
      ensures ok || reliable ==> faulted == old(faulted)
    {
      Arrivals();
      ok :| reliable && queue != [] ==> ok;
      faulted := faulted || (!ok && queue != []);
    }

    /** `recvfrom` with bytes waiting: the head datagram, cut to the buffer, or a failure. */
    method RecvFrom(size: nat) returns (rc: int, data: seq<byte>, from: Peer)
      requires queue != [] && queue[0].data != [] && size > 0
      modifies this`queue, this`consumed, this`faulted
      ensures rc <= 0 ==> !reliable && faulted && queue == old(queue) && consumed == old(consumed)
      ensures rc > 0 ==>
                && rc == |data| == Min(size, |old(queue)[0].data|)
                && data == old(queue)[0].data[..rc] && from == old(queue)[0].from
                && queue == old(queue)[1..] && consumed == old(consumed) + [old(queue)[0].data]
                && faulted == old(faulted)
    {
      var d := queue[0];
      var fails: bool :| reliable ==> !fails;
      from := d.from;
      if fails {
        faulted := true;
        return -1, [], from;
      }
      data := d.data[..Min(size, |d.data|)];
      rc := |data|;
      queue := queue[1..];
      consumed := consumed + [d.data];
    }

    method SendTo(data: seq<byte>, to: Peer) returns (rc: int)
      modifies this`attempts
      ensures rc <= |data| && attempts == old(attempts) + [Send(to, rc)]
    {
      rc :| rc <= |data|;
      attempts := attempts + [Send(to, rc)];
    }

    // ---- Reading ----

    method InWaiting() returns (n: nat)
      requires Valid()
      ensures n >= |Remaining()|
      ensures n == 0 <==> Remaining() == [] && !(valid && queue != [] && queue[0].data != [])
    {
      var waiting: nat := 0;
      if pendingOffset < |pending| {
        waiting := |pending| - pendingOffset;
      }
      var more := SocketInWaiting();
      n := waiting + more;
    }

    method AddPeer(p: Peer) returns (added: bool)
      requires AllProper(peers) && p.Proper()
      modifies this`peers
      ensures peers == WithPeer(old(peers), p, maxConnect)
      ensures added <==> !Known(old(peers), p)
    {
      for i := 0 to |peers|
        invariant forall j :: 0 <= j < i ==> !Same(peers[j], p)
      {
        if Same(peers[i], p) {
          return false;
        }
      }
      peers := peers + [p];
      if maxConnect > 0 && |peers| > maxConnect {
        peers := peers[1..];
      }
      added := true;
    }

    /** The sender of a datagram becomes the last peer and, unless only one is wanted, a tracked one. */
    method NotePeer(from: Peer)
      requires PeersOk() && from.Proper()
      modifies this`lastPeer, this`peers, this`senders
      ensures PeersOk() && senders == old(senders) + [from] && lastPeer == Some(from)
    {
      TrackedMeans(peers, lastPeer, senders, maxConnect);
      TrackedMore(peers, lastPeer, senders, maxConnect, from);
      lastPeer := Some(from);
      if maxConnect != 1 {
        var _ := AddPeer(from);
      }
      senders := senders + [from];
    }

    /** The first branch of `read`: more of the datagram begun before. */
    method ReadPending(maxBytes: nat) returns (out: seq<byte>)
      requires StreamOk() && maxBytes > 0 && pendingOffset < |pending|
      modifies this`pending, this`pendingOffset, this`delivered
      ensures StreamOk()
      ensures delivered == old(delivered) + out
      ensures out == old(Remaining())[..Min(maxBytes, |old(Remaining())|)] && out != []
      ensures Remaining() == old(Remaining())[|out|..]
    {
      var remaining := |pending| - pendingOffset;
      var count := Min(maxBytes, remaining);
      out := pending[pendingOffset..pendingOffset + count];
      delivered := delivered + out;
      assert pending[pendingOffset..] == out + pending[pendingOffset + count..];
      Reassociate(old(delivered), out, pending[pendingOffset + count..]);
      pendingOffset := pendingOffset + count;
      if pendingOffset >= |pending| {
        pending := [];
        pendingOffset := 0;
      }
    }

    /** The datagrams there and those to come. */
    ghost function Coming(): seq<Datagram>
      reads this`queue, this`future
    {
      queue + future
    }

    /** An empty datagram heads the queue. */
    ghost predicate HeadEmpty()
      reads this`queue
    {
      queue != [] && queue[0].data == []
    }

    /** The second branch of `read`: the next datagram, which may arrive while it waits, or nothing. */
    method ReadDatagram(maxBytes: nat) returns (out: seq<byte>)
      requires Valid() && valid && maxBytes > 0 && Remaining() == []
      modifies this`lastPeer, this`peers, this`senders, this`pending, this`pendingOffset, this`queue, this`future,
               this`consumed, this`delivered, this`faulted
      ensures Valid()
      ensures delivered == old(delivered) + out
      ensures old(faulted) ==> faulted
      ensures |future| <= |old(future)| && (!blocking ==> future == old(future))
      ensures out != [] ==>
                && old(Coming()) != [] && Coming() == old(Coming())[1..]
                && TookHead(old(Coming())[0], old(consumed), old(senders), maxBytes, out)
      ensures out == [] ==> Untouched(old(Coming()), old(consumed), old(senders), old(Remaining()))
      ensures out == [] && !faulted ==> queue == [] || queue[0].data == []
    {
      out := [];
      if blocking {
        var ready := WaitForRead();
        if !ready {
          return;
        }
      }
      var available := SocketInWaiting();
      if available == 0 {
        return;
      }
      HeadOfBoth(queue, future);
      out := Receive(maxBytes, available);
    }

    /** Takes the head datagram out of the socket, hands out its beginning and keeps the rest. */
    method Receive(maxBytes: nat, available: nat) returns (out: seq<byte>)
      requires Valid() && maxBytes > 0 && Remaining() == []
      requires queue != [] && queue[0].data != [] && available >= |queue[0].data|
      modifies this`lastPeer, this`peers, this`senders, this`pending, this`pendingOffset, this`queue, this`consumed,
               this`delivered, this`faulted
      ensures Valid()
      ensures delivered == old(delivered) + out
      ensures old(faulted) ==> faulted
      ensures out != [] ==>
              queue == old(queue)[1..] && TookHead(old(queue)[0], old(consumed), old(senders), maxBytes, out)
      ensures out == [] ==>
                && faulted && queue == old(queue) && consumed == old(consumed)
                && senders == old(senders) && Remaining() == []
    {
      out := [];
      ghost var head := queue[0].data;
      var rc, buffer, from := RecvFrom(available);
      if rc <= 0 {
        return;
      }
      assert buffer == head;
      NotePeer(from);
      out := buffer;
      if |buffer| > maxBytes {
        out := buffer[..maxBytes];
        pending := buffer[maxBytes..];
        pendingOffset := 0;
      }
      delivered := delivered + out;
      assert pending[pendingOffset..] == pending && buffer == out + pending;
      NewDatagram(old(consumed), old(delivered), buffer, out, pending);
    }

    /** The datagram is consumed, its sender noted, its beginning returned and its rest kept. */
    ghost predicate TookHead(d: Datagram, consumedBefore: seq<seq<byte>>, sendersBefore: seq<Peer>, maxBytes: nat,
                             out: seq<byte>)
      reads this`senders, this`pending, this`pendingOffset, this`consumed
    {
      && d.data != [] && consumed == consumedBefore + [d.data] && senders == sendersBefore + [d.from]
      && out == d.data[..Min(maxBytes, |d.data|)] && Remaining() == d.data[|out|..]
    }

    ghost predicate Untouched(comingBefore: seq<Datagram>, consumedBefore: seq<seq<byte>>, sendersBefore: seq<Peer>,
                              remainingBefore: seq<byte>)
      reads this`senders, this`pending, this`pendingOffset, this`queue, this`future, this`consumed
    {
      && Coming() == comingBefore && consumed == consumedBefore && senders == sendersBefore
      && Remaining() == remainingBefore
    }

    /** `read(max_bytes)` never crosses a datagram boundary: it serves the datagram begun before, or
        starts the next one, which may arrive while it waits, or returns nothing and changes nothing. */
    method Read(maxBytes: nat) returns (out: seq<byte>)
      requires Valid()
      modifies this`lastPeer, this`peers, this`senders, this`pending, this`pendingOffset, this`queue, this`future,
               this`consumed, this`delivered, this`faulted
      ensures Valid()
      ensures delivered == old(delivered) + out
      ensures old(faulted) ==> faulted
      ensures |future| <= |old(future)| && (!blocking ==> future == old(future))
      ensures valid && maxBytes > 0 && old(Remaining()) != [] ==>
                && out == old(Remaining())[..Min(maxBytes, |old(Remaining())|)] && out != []
                && Remaining() == old(Remaining())[|out|..]
                && consumed == old(consumed) && Coming() == old(Coming())
                && senders == old(senders)
      ensures out != [] && old(Remaining()) == [] ==>
                && old(Coming()) != [] && Coming() == old(Coming())[1..]
                && TookHead(old(Coming())[0], old(consumed), old(senders), maxBytes, out)
      ensures out == [] ==> Untouched(old(Coming()), old(consumed), old(senders), old(Remaining()))
      ensures out == [] && maxBytes > 0 && valid && !faulted ==>
              old(Remaining()) == [] && (queue == [] || queue[0].data == [])
      ensures out != [] ==> valid
      ensures old(HeadEmpty()) ==> HeadEmpty() && Coming() == old(Coming())
      ensures Streams.TakesFront(old(Account()), Some(maxBytes), out, Account())
    {
      if !valid || maxBytes == 0 {
        return [];
      }
      if pendingOffset < |pending| {
        out := ReadPending(maxBytes);
      } else {
        out := ReadDatagram(maxBytes);
        FlattenPrefix(old(consumed), consumed);
      }
    }

    /** One turn of the drain: with a buffer no smaller than the head datagram, all of it or nothing, which
        ends the loop; else it looks again. */
    method ReadWhole(available: nat) returns (chunk: seq<byte>, next: nat)
      requires Valid() && valid && Remaining() == []
      requires queue != [] && queue[0].data != [] && available >= |queue[0].data|
      modifies this`lastPeer, this`peers, this`senders, this`pending, this`pendingOffset, this`queue, this`future,
               this`consumed, this`delivered, this`faulted
      ensures Valid() && Remaining() == []
      ensures delivered == old(delivered) + chunk
      ensures old(faulted) ==> faulted
      ensures |future| <= |old(future)| && (!blocking ==> future == old(future))
      ensures next > 0 ==> queue != [] && queue[0].data != [] && next >= |queue[0].data|
      ensures next == 0 && !faulted ==> queue == [] || queue[0].data == []
      ensures chunk == [] ==> next == 0 && faulted && Coming() == old(Coming()) && consumed == old(consumed)
      ensures chunk != [] ==>
                && chunk == old(queue)[0].data && Coming() == old(Coming())[1..] && consumed == old(consumed) + [chunk]
    {
      ghost var head := queue[0].data;
      assert Coming()[0] == queue[0];
      chunk := Read(available);
      assert head[..|head|] == head;
      next := 0;
      if chunk != [] {
        next := SocketInWaiting();
      }
    }

    method TakePending() returns (out: seq<byte>)
      requires StreamOk()
      modifies this`pending, this`pendingOffset, this`delivered
      ensures StreamOk() && Remaining() == []
      ensures out == old(Remaining()) && delivered == old(delivered) + out
    {
      out := [];
      if pendingOffset < |pending| {
        out := out + pending[pendingOffset..];
        delivered := delivered + out;
        pending := [];
        pendingOffset := 0;
      }
    }

    /** A datagram waits that `in_waiting` can see, and `available` is enough for it. */
    ghost predicate Visible(available: nat)
      reads this`queue
    {
      valid && queue != [] && queue[0].data != [] && available >= |queue[0].data|
    }

    /** The loop of `read_all`. */
    method Drain(start: nat) returns (out: seq<byte>, ghost n: nat)
      requires Valid() && Remaining() == []
      requires if start > 0 then Visible(start) else !valid || queue == [] || queue[0].data == []
      modifies this`lastPeer, this`peers, this`senders, this`pending, this`pendingOffset, this`queue, this`future,
               this`consumed, this`delivered, this`faulted
      ensures Valid() && Remaining() == []
      ensures Drained(old(Coming()), n, old(consumed), consumed, out)
      ensures Coming() == old(Coming())[n..] && delivered == old(delivered) + out
      ensures |future| <= |old(future)|
      ensures !blocking || start == 0 ==> future == old(future)
      ensures start == 0 ==> n == 0 && queue == old(queue) && faulted == old(faulted)
      ensures old(faulted) ==> faulted
      ensures !faulted && valid ==> queue == [] || queue[0].data == []
    {
      ghost var coming := Coming();
      out, n := [], 0;
      var available := start;
      assert coming[..0] == [] && consumed + [] == consumed && delivered + [] == delivered;
      while available > 0
        invariant Valid() && Remaining() == []
        invariant Drained(coming, n, old(consumed), consumed, out)
        invariant Coming() == coming[n..] && delivered == old(delivered) + out
        invariant |future| <= |old(future)| && (!blocking ==> future == old(future))
        invariant available > 0 ==> Visible(available)
        invariant start == 0 ==>
                  available == 0 && n == 0 && queue == old(queue) && future == old(future) && faulted == old(faulted)
        invariant old(faulted) ==> faulted
        invariant available > 0 || faulted || !valid || queue == [] || queue[0].data == []
        decreases available > 0, |Coming()|
      {
        assert queue[0] == Coming()[0] == coming[n];
        ghost var before := consumed;
        var chunk, next := ReadWhole(available);
        if chunk != [] {
          DrainStep(coming, n, old(consumed), before, out);
          Reassociate(old(delivered), out, chunk);
          out, n := out + chunk, n + 1;
        }
        available := next;
      }
    }

    /** `read_all`: the rest of the datagram begun, then whole datagrams, those that arrive on the way
        included; if nothing fails, all that have arrived by its end up to the first empty one, which the
        drain can neither see nor take. */
    method ReadAll() returns (out: seq<byte>)
      requires Valid()
      modifies this`lastPeer, this`peers, this`senders, this`pending, this`pendingOffset, this`queue, this`future,
               this`consumed, this`delivered, this`faulted
      ensures Valid()
      ensures delivered == old(delivered) + out
      ensures Remaining() == []
      ensures |future| <= |old(future)| && (!blocking || !valid ==> future == old(future))
      ensures |Coming()| <= |old(Coming())| && Coming() == old(Coming())[|old(Coming())| - |Coming()|..]
      ensures var taken := old(Coming())[..|old(Coming())| - |Coming()|];
              && consumed == old(consumed) + DataOf(taken)
              && out == old(Remaining()) + Flatten(DataOf(taken))
              && forall i :: 0 <= i < |taken| ==> taken[i].data != []
      ensures valid && !faulted ==>
                |old(Coming())| - |Coming()| == BeforeEmpty(old(Coming())[..|old(Coming())| - |future|])
      ensures !valid ==> queue == old(queue)
      ensures old(HeadEmpty()) ==> HeadEmpty() && Coming() == old(Coming()) && out == old(Remaining())
      ensures Streams.TakesFront(old(Account()), None, out, Account())
    {
      ghost var coming, first := Coming(), Remaining();
      out := TakePending();
      var available := SocketInWaiting();
      var drained; ghost var n;
      drained, n := Drain(available);
      Reassociate(old(delivered), out, drained);
      out := out + drained;
      if valid && !faulted {
        DrainEnd(coming, n, queue, future);
      }
      FlattenPrefix(old(consumed), consumed);
    }

    // ---- Writing ----

    /** The fan-out branch of `write`: every tracked peer is tried, in order, whichever sends fail: the
        early exit never fires before the end of the table. */
    method SendToPeers(data: seq<byte>) returns (size: nat, ghost sends: seq<Send<Peer>>)
      requires Valid()
      modifies this`attempts
      ensures attempts == old(attempts) + sends
      ensures Targets(sends) == peers && size == LastSuccess(sends) <= |data|
    {
      size, sends := 0, [];
      TrackedMeans(peers, lastPeer, senders, maxConnect);
      var remaining := maxConnect;
      for i := 0 to |peers|
        invariant size == LastSuccess(sends) <= |data|
        invariant attempts == old(attempts) + sends && Targets(sends) == peers[..i]
        invariant maxConnect > 0 ==> remaining >= maxConnect - i && remaining > 0
      {
        var rc := SendTo(data, peers[i]);
        Reassociate(old(attempts), sends, [Send(peers[i], rc)]);
        assert (sends + [Send(peers[i], rc)])[..|sends|] == sends;
        sends := sends + [Send(peers[i], rc)];
        assert Targets(sends) == peers[..i + 1];
        if rc > 0 {
          size := rc;
          if maxConnect > 0 {
            remaining := remaining - 1;
            if remaining <= 0 {
              assert peers[..i + 1] == peers;
              break;
            }
          }
        }
      }
    }

    /** Whom `write` sends to: the fixed remote, else the broadcast address, else every tracked peer,
        else the last sender. */
    function Recipients(data: seq<byte>): seq<Peer>
      reads this`peers, this`lastPeer
    {
      if !valid || data == [] then []
      else if remote.Some? then [remote.value]
      else if broadcast.Some? then [broadcast.value]
      else if maxConnect != 1 then peers
      else if lastPeer.Some? then [lastPeer.value] else []
    }

    method SendOne(data: seq<byte>, to: Peer) returns (size: nat, ghost sends: seq<Send<Peer>>)
      modifies this`attempts
      ensures attempts == old(attempts) + sends
      ensures Targets(sends) == [to] && size == LastSuccess(sends) <= |data|
    {
      var rc := SendTo(data, to);
      sends := [Send(to, rc)];
      assert sends[..0] == [];
      size := if rc <= 0 then 0 else rc;
    }

    method Write(data: seq<byte>) returns (size: nat, ghost sends: seq<Send<Peer>>)
      requires Valid()
      modifies this`attempts
      ensures Valid()
      ensures attempts == old(attempts) + sends
      ensures Targets(sends) == Recipients(data) && size == LastSuccess(sends) <= |data|
      ensures !valid || data == [] ==> Targets(sends) == []
      ensures valid && data != [] && remote.Some? ==> Targets(sends) == [remote.value]
      ensures valid && data != [] && remote.None? && broadcast.Some? ==> Targets(sends) == [broadcast.value]
      ensures valid && data != [] && remote.None? && broadcast.None? ==>
                && AllProper(senders)
                && Targets(sends) == if maxConnect != 1 then TableOf(senders, maxConnect)
                                     else if senders == [] then [] else [senders[|senders| - 1]]
    {
      size, sends := 0, [];
      TrackedMeans(peers, lastPeer, senders, maxConnect);
      if !valid || data == [] {
        return;
      }
      if remote.Some? {
        size, sends := SendOne(data, remote.value);
        return;
      }
      if broadcast.Some? {
        size, sends := SendOne(data, broadcast.value);
        return;
      }
      if maxConnect != 1 {
        size, sends := SendToPeers(data);
        return;
      }
      if lastPeer.Some? {
        size, sends := SendOne(data, lastPeer.value);
      }
    }
  }

  lemma HeadOfBoth(queue: seq<Datagram>, future: seq<Datagram>)
    requires queue != []
    ensures (queue + future)[0] == queue[0] && (queue + future)[1..] == queue[1..] + future
  {
  }

  /** The first `n` datagrams of those coming have been consumed, none of them empty, and returned. */
  ghost predicate Drained(coming: seq<Datagram>, n: nat, consumed0: seq<seq<byte>>, consumed: seq<seq<byte>>,
                          out: seq<byte>)
  {
    && n <= |coming| && (forall i :: 0 <= i < n ==> coming[i].data != [])
    && consumed == consumed0 + DataOf(coming[..n])
    && out == Flatten(DataOf(coming[..n]))
  }

  lemma DrainStep(coming: seq<Datagram>, n: nat, consumed0: seq<seq<byte>>, consumed: seq<seq<byte>>, out: seq<byte>)
    requires Drained(coming, n, consumed0, consumed, out)
    requires n < |coming| && coming[n].data != []
    ensures Drained(coming, n + 1, consumed0, consumed + [coming[n].data], out + coming[n].data)
    ensures coming[n..][1..] == coming[n + 1..]
  {
    assert coming[..n + 1] == coming[..n] + [coming[n]];
    DataOfSnoc(coming[..n], coming[n]);
    FlattenSnoc(DataOf(coming[..n]), coming[n].data);
    Reassociate(consumed0, DataOf(coming[..n]), [coming[n].data]);
  }

  /** Where the drain ends. */
  lemma DrainEnd(coming: seq<Datagram>, n: nat, queue: seq<Datagram>, future: seq<Datagram>)
    requires n <= |coming| && queue + future == coming[n..]
    requires forall i :: 0 <= i < n ==> coming[i].data != []
    requires queue == [] || queue[0].data == []
    ensures BeforeEmpty(coming[..|coming| - |future|]) == n
  {
    var arrived := coming[..|coming| - |future|];
    assert |queue| + |future| == |coming| - n;
    assert forall i :: 0 <= i < |queue| ==> queue[i] == (queue + future)[i] == arrived[n + i];
    FirstEmptyAt(arrived, n);
  }

  lemma {:induction false} FirstEmptyAt(queue: seq<Datagram>, n: nat)
    requires n <= |queue| && forall i :: 0 <= i < n ==> queue[i].data != []
    requires n == |queue| || queue[n].data == []
    ensures BeforeEmpty(queue) == n
  {
    if n > 0 {
      FirstEmptyAt(queue[1..], n - 1);
    }
  }

  lemma {:induction false} DataOfSnoc(queue: seq<Datagram>, d: Datagram)
    ensures DataOf(queue + [d]) == DataOf(queue) + [d.data]
  {
    if queue == [] {
      assert queue + [d] == [d];
      assert [d][1..] == [];
    } else {
      DataOfSnoc(queue[1..], d);
      assert (queue + [d])[1..] == queue[1..] + [d];
    }
  }

  /** The drain empties the queue exactly when no datagram in it is empty. */
  lemma {:induction false} DrainsUnlessEmpty(queue: seq<Datagram>)
    ensures BeforeEmpty(queue) == |queue| <==> forall i :: 0 <= i < |queue| ==> queue[i].data != []
    ensures BeforeEmpty(queue) < |queue| ==> queue[BeforeEmpty(queue)].data == []
    ensures forall i :: 0 <= i < BeforeEmpty(queue) ==> queue[i].data != []
  {
    if queue != [] {
      DrainsUnlessEmpty(queue[1..]);
      if forall i :: 0 <= i < |queue[1..]| ==> queue[1..][i].data != [] {
        assert forall i :: 1 <= i < |queue| ==> queue[i] == queue[1..][i - 1];
      } else {
        var k :| 0 <= k < |queue[1..]| && queue[1..][k].data == [];
        assert queue[k + 1].data == [];
      }
    }
  }
}
