/** The loopback transport and the receive loop's body, `poll_receive`, of src/UniTransmit.cpp. */
module Polling {
  import opened Bytes
  import opened Streams

  /** LoopbackTransport: what was written is what was read followed by what waits. */
  class Loopback {
    var buffer: seq<byte>
    ghost var written: seq<byte>
    ghost var taken: seq<byte>

    ghost predicate Valid()
      reads this
    {
      written == taken + buffer
    }

    ghost function Books(): Account
      reads this
    {
      Account(written, taken)
    }

    constructor ()
      ensures Valid() && written == [] && taken == [] && buffer == []
    {
      buffer, written, taken := [], [], [];
    }

    method InWaiting() returns (n: nat)
      ensures n == |buffer|
    {
      n := |buffer|;
    }

    method ReadOne() returns (out: seq<byte>)
      requires Valid()
      modifies this
      ensures Valid() && written == old(written) && taken == old(taken) + out
      ensures |out| == Min(1, |old(buffer)|)
      ensures TakesFront(old(Books()), Some(1), out, Books())
    {
      if buffer == [] {
        return [];
      }
      out := [buffer[0]];
      assert buffer == out + buffer[1..];
      Reassociate(taken, out, buffer[1..]);
      buffer := buffer[1..];
      taken := taken + out;
    }

    method Read(maxBytes: nat) returns (out: seq<byte>)
      requires Valid()
      modifies this
      ensures Valid() && written == old(written) && taken == old(taken) + out
      ensures out == old(buffer)[..Min(maxBytes, |old(buffer)|)] && buffer == old(buffer)[|out|..]
      ensures TakesFront(old(Books()), Some(maxBytes), out, Books())
    {
      var count := Min(maxBytes, |buffer|);
      out := buffer[..count];
      assert buffer == out + buffer[count..];
      Reassociate(taken, out, buffer[count..]);
      buffer := buffer[count..];
      taken := taken + out;
    }

    method ReadAll() returns (out: seq<byte>)
      requires Valid()
      modifies this
      ensures Valid() && written == old(written) && taken == old(taken) + out
      ensures out == old(buffer) && buffer == []
      ensures TakesFront(old(Books()), None, out, Books())
    {
      out := Read(|buffer|);
    }

    method Write(data: seq<byte>) returns (size: nat)
      requires Valid()
      modifies this
      ensures Valid() && taken == old(taken) && written == old(written) + data && size == |data|
    {
      if data == [] {
        assert written + data == written;
        return 0;
      }
      Reassociate(taken, buffer, data);
      buffer := buffer + data;
      written := written + data;
      size := |data|;
    }
  }

  /** Other threads' reads, and arrivals. */
  predicate Later(before: Account, after: Account) {
    before.arrived <= after.arrived && before.taken <= after.taken <= after.arrived
  }

  /** What poll_receive relies on: the bytes it gets are the next ones once others have had their turn. */
  ghost predicate ReadAllowed(before: Account, limit: Option<nat>, out: seq<byte>, after: Account) {
    exists mid: Account :: Later(before, mid) && TakesFront(mid, limit, out, after)
  }

  /** Where in the stream a read among others' reads found its bytes. */
  datatype Piece = Piece(start: nat, end: nat)

  /** The pieces of a stream that a poller's reads returned, in the order of the reads: each read returned
      the bytes of its piece, and the pieces follow one another without overlapping. */
  ghost predicate Pieces(stream: seq<byte>, outs: seq<seq<byte>>, pieces: seq<Piece>) {
    && |pieces| == |outs|
    && (forall i :: 0 <= i < |outs| ==>
         pieces[i].start <= pieces[i].end <= |stream| && stream[pieces[i].start..pieces[i].end] == outs[i])
    && forall i, j :: 0 <= i < j < |outs| ==> pieces[i].end <= pieces[j].start
  }

  /** Whatever others read and whatever arrives between them, a poller's reads return successive pieces of
      one stream, none of its bytes twice and none out of order. */
  lemma {:induction false} PolledInOrder(books: seq<Account>, limits: seq<Option<nat>>, outs: seq<seq<byte>>)
    returns (pieces: seq<Piece>)
    requires |books| == |outs| + 1 && |limits| == |outs|
    requires books[0].taken <= books[0].arrived
    requires forall i :: 0 <= i < |outs| ==> ReadAllowed(books[i], limits[i], outs[i], books[i + 1])
    ensures books[|outs|].taken <= books[|outs|].arrived
    ensures Pieces(books[|outs|].arrived, outs, pieces)
    ensures forall i :: 0 <= i < |outs| ==> pieces[i].end <= |books[|outs|].taken|
  {
    if outs == [] {
      pieces := [];
    } else {
      var n := |outs| - 1;
      var before := PolledInOrder(books[..|outs|], limits[..n], outs[..n]);
      assert ReadAllowed(books[n], limits[n], outs[n], books[n + 1]);
      var mid: Account :| Later(books[n], mid) && TakesFront(mid, limits[n], outs[n], books[n + 1]);
      pieces := before + [Piece(|mid.taken|, |mid.taken| + |outs[n]|)];
      NextPiece(books[n].arrived, outs[..n], before, books[n], mid, limits[n], outs[n], books[n + 1]);
      assert outs == outs[..n] + [outs[n]];
    }
  }

  lemma NextPiece(stream: seq<byte>, outs: seq<seq<byte>>, pieces: seq<Piece>,
                  before: Account, mid: Account, limit: Option<nat>, out: seq<byte>, after: Account)
    requires Pieces(stream, outs, pieces) && stream == before.arrived && before.taken <= before.arrived
    requires forall i :: 0 <= i < |outs| ==> pieces[i].end <= |before.taken|
    requires Later(before, mid) && TakesFront(mid, limit, out, after)
    ensures var pieces' := pieces + [Piece(|mid.taken|, |mid.taken| + |out|)];
            && Pieces(after.arrived, outs + [out], pieces')
            && forall i :: 0 <= i <= |outs| ==> pieces'[i].end <= |after.taken|
  {
    var last := after.arrived[|mid.taken|..|mid.taken| + |out|];
    assert after.taken[|mid.taken|..] == out;
    assert last == after.taken[|mid.taken|..];
    forall i | 0 <= i < |outs|
      ensures after.arrived[pieces[i].start..pieces[i].end] == outs[i]
    {
      assert stream <= after.arrived;
      assert stream[pieces[i].start..pieces[i].end] == after.arrived[pieces[i].start..pieces[i].end];
    }
  }

  // ---- Any transport -------------------------------------------------------------------------

  /** A removal of bytes from a transport, by the receiver thread or by somebody else. */
  datatype Removal = Removal(polled: bool, bytes: seq<byte>)

  function Removed(removals: seq<Removal>): seq<byte> {
    if removals == [] then [] else removals[0].bytes + Removed(removals[1..])
  }

  function Polled(removals: seq<Removal>): seq<byte> {
    if removals == [] then []
    else (if removals[0].polled then removals[0].bytes else []) + Polled(removals[1..])
  }

  lemma {:induction false} RemovalsSnoc(removals: seq<Removal>, r: Removal)
    ensures Removed(removals + [r]) == Removed(removals) + r.bytes
    ensures Polled(removals + [r]) == Polled(removals) + if r.polled then r.bytes else []
  {
    if removals == [] {
      assert removals + [r] == [r];
      assert [r][1..] == [];
    } else {
      RemovalsSnoc(removals[1..], r);
      assert (removals + [r])[1..] == removals[1..] + [r];
    }
  }

  /** A read by the poller, with its limit and what it returned. */
  datatype PolledRead = PolledRead(limit: Option<nat>, out: seq<byte>)

  /** A poll's reads: there is one at least; the last has no limit or returned nothing; and all of them
      returned nothing exactly if the poll delivered nothing. */
  ghost predicate AskedEnough(before: seq<PolledRead>, after: seq<PolledRead>, nothing: bool) {
    && |after| > |before|
    && (after[|after| - 1].limit == None || after[|after| - 1].out == [])
    && (nothing <==> forall k :: |before| <= k < |after| ==> after[k].out == [])
  }

  /** What poll_receive may rely on: reads hand out the front of a first-in-first-out byte stream. At
      every call other threads may have read from it, and bytes may have arrived, before it acts. */
  class Stream {
    var unread: seq<byte>
    ghost var arrived: seq<byte>
    ghost var removals: seq<Removal>
    /** The poller's reads. */
    ghost var asked: seq<PolledRead>
    /** Nobody else reads, nothing arrives meanwhile, and a read takes all it may. */
    const quiet: bool

    ghost predicate Valid()
      reads this
    {
      arrived == Removed(removals) + unread
    }

    ghost function Books(): Account
      reads this
    {
      Account(arrived, Removed(removals))
    }

    constructor (initial: seq<byte>, quiet: bool)
      ensures Valid() && arrived == unread == initial && removals == [] && asked == [] && this.quiet == quiet
    {
      unread, arrived, removals, asked, this.quiet := initial, initial, [], [], quiet;
    }

    method Take(n: nat, polled: bool) returns (out: seq<byte>)
      requires Valid() && n <= |unread|
      modifies this`unread, this`removals
      ensures Valid()
      ensures out == old(unread)[..n] && unread == old(unread)[n..]
      ensures removals == old(removals) + [Removal(polled, out)]
      ensures Polled(removals) == Polled(old(removals)) + if polled then out else []
      ensures TakesFront(old(Books()), Some(n), out, Books())
    {
      out := unread[..n];
      assert unread == out + unread[n..];
      Reassociate(Removed(removals), out, unread[n..]);
      RemovalsSnoc(removals, Removal(polled, out));
      unread := unread[n..];
      removals := removals + [Removal(polled, out)];
    }

    /** Arrivals and foreign reads. */
    method Interfere()
      requires Valid()
      modifies this`unread, this`arrived, this`removals
      ensures Valid() && old(arrived) <= arrived && old(removals) <= removals
      ensures Polled(removals) == Polled(old(removals))
      ensures Later(old(Books()), Books())
      ensures quiet ==> unread == old(unread)
    {
      var turns: nat :| true;
      if quiet {
        return;
      }
      while turns > 0
        invariant Valid() && old(arrived) <= arrived && old(removals) <= removals
        invariant Later(old(Books()), Books())
        invariant Polled(removals) == Polled(old(removals))
      {
        var data: seq<byte> :| true;
        Reassociate(Removed(removals), unread, data);
        arrived := arrived + data;
        unread := unread + data;
        var n: nat :| n <= |unread|;
        var _ := Take(n, false);
        assert Polled(removals) == Polled(old(removals)) + [];
        turns := turns - 1;
      }
    }

    /** `in_waiting`: a transport may report anything; the poller only tests it for zero. */
    method InWaiting() returns (n: nat)
      requires Valid()
      modifies this`unread, this`arrived, this`removals
      ensures Valid() && old(arrived) <= arrived && old(removals) <= removals
      ensures Polled(removals) == Polled(old(removals))
      ensures quiet ==> unread == old(unread)
    {
      Interfere();
      n :| true;
    }

    /** `read()` with limit 1 and `read_all()` without: any prefix of what is there by then. */
    method Read(limit: Option<nat>) returns (out: seq<byte>)
      requires Valid()
      modifies this
      ensures Valid() && old(arrived) <= arrived && old(removals) <= removals
      ensures limit.Some? ==> |out| <= limit.value
      ensures Polled(removals) == Polled(old(removals)) + out
      ensures ReadAllowed(old(Books()), limit, out, Books())
      ensures asked == old(asked) + [PolledRead(limit, out)]
      ensures quiet ==> old(unread) == out + unread
      ensures quiet ==> if limit.Some? then |out| == Min(limit.value, |old(unread)|) else unread == []
    {
      Interfere();
      assert Later(old(Books()), Books());
      var most := if limit.Some? then Min(limit.value, |unread|) else |unread|;
      var n: nat :| n <= most && (quiet ==> n == most);
      assert unread == unread[..n] + unread[n..];
      out := Take(n, true);
      asked := asked + [PolledRead(limit, out)];
    }
  }

  class Receiver {
    const stream: Stream
    var callback: bool
    /** The data of every callback invocation so far. */
    ghost var delivered: seq<seq<byte>>

    /** Callback conservation: what the callbacks got, joined, is what polling removed from the
        transport, in order, and no callback got an empty chunk. */
    ghost predicate Valid()
      reads this, stream
    {
      && stream.Valid()
      && Flatten(delivered) == Polled(stream.removals)
      && (forall i :: 0 <= i < |delivered| ==> delivered[i] != [])
    }

    constructor (stream: Stream)
      requires stream.Valid() && Polled(stream.removals) == []
      ensures Valid() && delivered == [] && this.stream == stream
    {
      this.stream, callback, delivered := stream, false, [];
    }

    method Call(data: seq<byte>)
      requires data != []
      modifies this`delivered
      ensures delivered == old(delivered) + [data]
      ensures Flatten(delivered) == Flatten(old(delivered)) + data
    {
      FlattenSnoc(delivered, data);
      delivered := delivered + [data];
    }

    /** `poll_receive`, with any foreign reads and arrivals between its calls: at most one callback,
        holding everything this poll removed; none at all without a callback. A poll with a callback reads:
        it ends with a read without a limit, or with one that returned nothing, and it calls nobody only
        if nothing was returned at all. With nobody interfering it hands over all that is unread, at once. */
    method PollReceive()
      requires Valid()
      modifies this`delivered, stream
      ensures Valid()
      ensures old(delivered) <= delivered && |delivered| <= |old(delivered)| + 1
      ensures !callback ==> delivered == old(delivered) && stream.removals == old(stream.removals)
      ensures old(stream.arrived) <= stream.arrived
      ensures old(stream.asked) <= stream.asked
      ensures callback ==> AskedEnough(old(stream.asked), stream.asked, delivered == old(delivered))
      ensures callback && stream.quiet ==>
                && stream.unread == []
                && delivered == old(delivered) + if old(stream.unread) == [] then [] else [old(stream.unread)]
    {
      if !callback {
        return;
      }
      var data := Poll();
      if data != [] {
        Call(data);
      } else {
        assert delivered == old(delivered) + [] && Polled(stream.removals) == Polled(old(stream.removals)) + [];
      }
    }

    /** The reads of a poll. */
    method Poll() returns (data: seq<byte>)
      requires stream.Valid()
      modifies stream
      ensures stream.Valid() && old(stream.arrived) <= stream.arrived && old(stream.asked) <= stream.asked
      ensures Polled(stream.removals) == Polled(old(stream.removals)) + data
      ensures AskedEnough(old(stream.asked), stream.asked, data == [])
      ensures stream.quiet ==> data == old(stream.unread) && stream.unread == []
    {
      var waiting := stream.InWaiting();
      if waiting == 0 {
        data := FirstAndRest();
      } else {
        data := Everything();
      }
    }

    /** What a poll reads from a transport that reports nothing: one byte, and what is behind it. */
    method FirstAndRest() returns (data: seq<byte>)
      requires stream.Valid()
      modifies stream
      ensures stream.Valid() && old(stream.arrived) <= stream.arrived && old(stream.asked) <= stream.asked
      ensures Polled(stream.removals) == Polled(old(stream.removals)) + data
      ensures AskedEnough(old(stream.asked), stream.asked, data == [])
      ensures stream.quiet ==> data == old(stream.unread) && stream.unread == []
    {
      data := stream.Read(Some(1));
      if data == [] {
        return;
      }
      ghost var first, left, asked := data, stream.unread, stream.asked;
      var rest := stream.Read(None);
      assert stream.asked[|old(stream.asked)|] == asked[|asked| - 1];
      assert rest + [] == rest && first + [] == first;
      Reassociate(Polled(old(stream.removals)), first, rest);
      if rest != [] {
        data := data + rest;
      }
      assert data == first + rest;
    }

    /** And from one that reports data. */
    method Everything() returns (data: seq<byte>)
      requires stream.Valid()
      modifies stream
      ensures stream.Valid() && old(stream.arrived) <= stream.arrived && old(stream.asked) <= stream.asked
      ensures Polled(stream.removals) == Polled(old(stream.removals)) + data
      ensures AskedEnough(old(stream.asked), stream.asked, data == [])
      ensures stream.quiet ==> data == old(stream.unread) && stream.unread == []
    {
      data := stream.Read(None);
      assert stream.asked[|old(stream.asked)|].out == data && data + [] == data;
    }
  }
}
