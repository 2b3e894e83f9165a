/** The byte stream behind every transport's reads, as callers see it. */
module Streams {
  import opened Bytes

  /** All bytes a transport has had to hand out so far, and those it has handed out. */
  datatype Account = Account(arrived: seq<byte>, taken: seq<byte>)

  /** A read: whatever arrived meanwhile came behind what was there, and the bytes returned, no more than
      asked for, are the next ones. `read_all` has no limit. */
  predicate TakesFront(before: Account, limit: Option<nat>, out: seq<byte>, after: Account) {
    && before.taken <= before.arrived <= after.arrived
    && after.taken == before.taken + out && after.taken <= after.arrived
    && (limit.Some? ==> |out| <= limit.value)
  }

  /** So the bytes returned are the front of the unread ones, and the rest stay unread, in order. */
  lemma FrontOfUnread(before: Account, limit: Option<nat>, out: seq<byte>, after: Account)
    requires TakesFront(before, limit, out, after)
    ensures after.arrived[|before.taken|..] == out + after.arrived[|after.taken|..]
  {
    var n, m := |before.taken|, |after.taken|;
    assert after.arrived[n..m] == after.taken[n..];
    assert after.arrived[n..] == after.arrived[n..m] + after.arrived[m..];
  }

  /** Two reads in a row are one. */
  lemma TakesTwice(before: Account, a: seq<byte>, mid: Account, b: seq<byte>, after: Account)
    requires TakesFront(before, None, a, mid) && TakesFront(mid, None, b, after)
    ensures TakesFront(before, None, a + b, after)
  {
  }

  /** Reads one after the other, with any limits; `books` are the accounts between them. */
  ghost predicate ReadsInARow(books: seq<Account>, limits: seq<Option<nat>>, outs: seq<seq<byte>>) {
    && |books| == |outs| + 1 && |limits| == |outs|
    && forall i :: 0 <= i < |outs| ==> TakesFront(books[i], limits[i], outs[i], books[i + 1])
  }

  /** Any sequence of reads is one read: what they return, joined, is the front of what was unread before
      the first of them or arrived since. */
  lemma {:induction false} ReadsAreOneRead(books: seq<Account>, limits: seq<Option<nat>>, outs: seq<seq<byte>>)
    requires ReadsInARow(books, limits, outs) && books[0].taken <= books[0].arrived
    ensures TakesFront(books[0], None, Flatten(outs), books[|outs|])
  {
    if outs == [] {
      assert books[0].taken + [] == books[0].taken;
    } else {
      var n := |outs| - 1;
      ReadsAreOneRead(books[..|outs|], limits[..n], outs[..n]);
      assert TakesFront(books[n], limits[n], outs[n], books[n + 1]);
      TakesTwice(books[0], Flatten(outs[..n]), books[n], outs[n], books[n + 1]);
      FlattenSnoc(outs[..n], outs[n]);
      assert outs == outs[..n] + [outs[n]];
    }
  }
}
