/** A fan-out: one send after the other, and what each returned. */
module Sends {

  datatype Send<T> = Send(to: T, rc: int)

  /** Whom the sends went to, in order. */
  function Targets<T>(sends: seq<Send<T>>): seq<T> {
    seq(|sends|, i requires 0 <= i < |sends| => sends[i].to)
  }

  /** What the last send that went through returned, or nothing. */
  function LastSuccess<T>(sends: seq<Send<T>>): nat {
    if sends == [] then 0
    else if sends[|sends| - 1].rc > 0 then sends[|sends| - 1].rc
    else LastSuccess(sends[..|sends| - 1])
  }

  /** No send behind this place went through. */
  predicate NoneAfter<T>(sends: seq<Send<T>>, i: nat) {
    forall j :: i < j < |sends| ==> sends[j].rc <= 0
  }

  /** It is what the send at some place returned, with none behind it going through; nothing only if none
      went through at all. */
  lemma {:induction false} LastSuccessIs<T>(sends: seq<Send<T>>)
    ensures LastSuccess(sends) == 0 <==> forall i :: 0 <= i < |sends| ==> sends[i].rc <= 0
    ensures LastSuccess(sends) > 0 ==>
              exists i: nat :: i < |sends| && sends[i].rc == LastSuccess(sends) && NoneAfter(sends, i)
  {
    if sends != [] {
      var n := |sends| - 1;
      var before := sends[..n];
      if sends[n].rc > 0 {
        assert NoneAfter(sends, n);
      } else {
        LastSuccessIs(before);
        assert forall i :: 0 <= i < n ==> before[i] == sends[i];
        if LastSuccess(sends) > 0 {
          var i: nat :| i < n && before[i].rc == LastSuccess(sends) && NoneAfter(before, i);
          assert sends[i].rc == LastSuccess(sends) && NoneAfter(sends, i);
        }
      }
    }
  }

  /** The places of the sends that went through. */
  function Through<T>(sends: seq<Send<T>>): set<nat> {
    set i: nat | i < |sends| && sends[i].rc > 0
  }

  lemma {:induction false} SuccessesCount<T>(sends: seq<Send<T>>)
    ensures Successes(sends) == |Through(sends)|
  {
    if sends != [] {
      var n := |sends| - 1;
      SuccessesCount(sends[..n]);
      assert Through(sends) == Through(sends[..n]) + if sends[n].rc > 0 then {n} else {};
    }
  }

  /** How many sends went through. */
  function Successes<T>(sends: seq<Send<T>>): (n: nat)
    ensures n <= |sends|
  {
    if sends == [] then 0
    else Successes(sends[..|sends| - 1]) + if sends[|sends| - 1].rc > 0 then 1 else 0
  }
}
