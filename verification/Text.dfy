/** The character and string operations src/Protocol.cpp is written with. */
module Text {
  import opened Bytes

  /** `std::isspace` in the C locale. */
  predicate IsSpace(c: char) {
    c == ' ' || c == '\t' || c == '\n' || c == '\r' || c == '\U{0B}' || c == '\U{0C}'
  }

  function TrimLeft(s: string): string {
    if s != "" && IsSpace(s[0]) then TrimLeft(s[1..]) else s
  }

  function TrimRight(s: string): string {
    if s != "" && IsSpace(s[|s| - 1]) then TrimRight(s[..|s| - 1]) else s
  }

  function Trim(s: string): string {
    TrimRight(TrimLeft(s))
  }

  /** No white space at either end. */
  predicate Trimmed(s: string) {
    s == "" || (!IsSpace(s[0]) && !IsSpace(s[|s| - 1]))
  }

  /** `trim_copy`: erase up to the first character that is no space, then behind the last. */
  method TrimCopy(s: string) returns (r: string)
    ensures r == Trim(s)
  {
    r := s;
    while r != "" && IsSpace(r[0])
      invariant TrimLeft(r) == TrimLeft(s)
      decreases |r|
    {
      r := r[1..];
    }
    ghost var left := r;
    while r != "" && IsSpace(r[|r| - 1])
      invariant TrimRight(r) == TrimRight(left)
      decreases |r|
    {
      r := r[..|r| - 1];
    }
  }

  /** Trimming yields a trimmed string, drops only white space, and leaves trimmed strings alone. */
  lemma {:induction false} TrimSpec(s: string)
    ensures Trimmed(Trim(s))
    ensures Trimmed(s) ==> Trim(s) == s
    ensures exists i, j :: 0 <= i <= j <= |s| && Trim(s) == s[i..j]
                           && (forall k :: 0 <= k < i || j <= k < |s| ==> IsSpace(s[k]))
  {
    var i := LeftPart(s);
    var left := TrimLeft(s);
    var j := RightPart(left);
    assert Trim(s) == s[i..i + j];
    forall k | i + j <= k < |s|
      ensures IsSpace(s[k])
    {
      assert left[k - i] == s[k];
    }
    if Trim(s) != "" {
      assert Trim(s)[0] == left[0];
    }
  }

  lemma {:induction false} LeftPart(s: string) returns (i: nat)
    ensures i <= |s| && TrimLeft(s) == s[i..] && (forall k :: 0 <= k < i ==> IsSpace(s[k]))
    ensures TrimLeft(s) != "" ==> !IsSpace(TrimLeft(s)[0])
  {
    if s != "" && IsSpace(s[0]) {
      var n := LeftPart(s[1..]);
      i := n + 1;
      forall k | 0 <= k < i
        ensures IsSpace(s[k])
      {
        if k > 0 {
          assert s[1..][k - 1] == s[k];
        }
      }
    } else {
      i := 0;
    }
  }

  lemma {:induction false} RightPart(s: string) returns (j: nat)
    ensures j <= |s| && TrimRight(s) == s[..j] && (forall k :: j <= k < |s| ==> IsSpace(s[k]))
    ensures TrimRight(s) != "" ==> !IsSpace(TrimRight(s)[|TrimRight(s)| - 1])
  {
    if s != "" && IsSpace(s[|s| - 1]) {
      var n := RightPart(s[..|s| - 1]);
      j := n;
      assert s[..|s| - 1][..j] == s[..j];
      forall k | j <= k < |s|
        ensures IsSpace(s[k])
      {
        if k < |s| - 1 {
          assert s[..|s| - 1][k] == s[k];
        }
      }
    } else {
      j := |s|;
    }
  }

  lemma TrimTrimmed(s: string)
    requires Trimmed(s)
    ensures Trim(s) == s
  {
  }

  /** `std::tolower` in the C locale. */
  function LowerChar(c: char): char {
    if 'A' <= c <= 'Z' then (c as int + 32) as char else c
  }

  function Lower(s: string): string {
    seq(|s|, i requires 0 <= i < |s| => LowerChar(s[i]))
  }

  const UPPER: string := "ABCDEFGHIJKLMNOPQRSTUVWXYZ"
  const LOWER: string := "abcdefghijklmnopqrstuvwxyz"

  /** Each capital letter becomes its small one; everything else, and every position, stays. */
  lemma LowerSpec(s: string, i: nat, k: nat)
    requires i < |s| && k < 26
    ensures |Lower(s)| == |s|
    ensures s[i] == UPPER[k] ==> Lower(s)[i] == LOWER[k]
    ensures s[i] < 'A' || s[i] > 'Z' ==> Lower(s)[i] == s[i]
    ensures IsLower(Lower(s)) && Lower(Lower(s)) == Lower(s)
  {
    assert UPPER[k] as int == 'A' as int + k && LOWER[k] as int == 'a' as int + k;
  }

  predicate IsLower(s: string) {
    forall i :: 0 <= i < |s| ==> !('A' <= s[i] <= 'Z')
  }

  method ToLowerCopy(s: string) returns (r: string)
    ensures r == Lower(s)
  {
    r := s;
    for i := 0 to |s|
      invariant |r| == |s|
      invariant forall k :: 0 <= k < i ==> r[k] == LowerChar(s[k])
      invariant forall k :: i <= k < |s| ==> r[k] == s[k]
    {
      r := r[i := LowerChar(s[i])];
    }
  }

  /** `find(c)`: the first position of `c`, or the length. */
  function Find(s: string, c: char): (i: nat)
    ensures i <= |s|
    ensures i < |s| ==> s[i] == c
    ensures forall k :: 0 <= k < i ==> s[k] != c
  {
    if s == "" || s[0] == c then 0
    else
      var i := Find(s[1..], c);
      assert forall k :: 1 <= k < i + 1 ==> s[k] == s[1..][k - 1];
      i + 1
  }

  lemma FindFirst(before: string, c: char, after: string)
    requires c !in before
    ensures Find(before + [c] + after, c) == |before|
  {
    var s := before + [c] + after;
    assert s[|before|] == c;
    assert forall k :: 0 <= k < |before| ==> s[k] == before[k];
  }

  lemma FindNone(s: string, c: char)
    requires c !in s
    ensures Find(s, c) == |s|
  {
  }

  /** `rfind(c)`: the last position of `c`. */
  function RFind(s: string, c: char): (i: Option<nat>)
    ensures i.Some? ==> i.value < |s| && s[i.value] == c && forall k :: i.value < k < |s| ==> s[k] != c
    ensures i.None? ==> c !in s
  {
    if s == "" then None
    else if s[|s| - 1] == c then Some(|s| - 1)
    else RFind(s[..|s| - 1], c)
  }

  lemma {:induction false} RFindLast(before: string, c: char, after: string)
    requires c !in after
    ensures RFind(before + [c] + after, c) == Some(|before|)
  {
    var s := before + [c] + after;
    if after == "" {
      assert s[|s| - 1] == c;
    } else {
      var shorter := after[..|after| - 1];
      assert s[|s| - 1] == after[|after| - 1];
      assert s[..|s| - 1] == before + [c] + shorter;
      RFindLast(before, c, shorter);
    }
  }

  // ---- Decimal numbers -----------------------------------------------------------------------

  predicate IsDigit(c: char) {
    '0' <= c <= '9'
  }

  function Digits(s: string, value: nat): nat {
    if s == "" || !IsDigit(s[0]) then value
    else Digits(s[1..], 10 * value + (s[0] as int - '0' as int))
  }

  /** `std::atoi`: white space, a sign, digits, and nothing after the first other character. */
  function Atoi(s: string): int {
    var t := TrimLeft(s);
    if t != "" && t[0] == '-' then 0 - Digits(t[1..], 0)
    else if t != "" && t[0] == '+' then Digits(t[1..], 0)
    else Digits(t, 0)
  }

  function DigitChar(d: nat): char
    requires d < 10
  {
    ('0' as int + d) as char
  }

  function Decimal(n: nat): (s: string)
    ensures s != "" && forall i :: 0 <= i < |s| ==> IsDigit(s[i])
  {
    if n < 10 then [DigitChar(n)] else Decimal(n / 10) + [DigitChar(n % 10)]
  }

  lemma {:induction false} DigitsConcat(a: string, b: string, value: nat)
    requires forall i :: 0 <= i < |a| ==> IsDigit(a[i])
    ensures Digits(a + b, value) == Digits(b, Digits(a, value))
  {
    if a == "" {
      assert a + b == b;
    } else {
      assert (a + b)[1..] == a[1..] + b;
      DigitsConcat(a[1..], b, 10 * value + (a[0] as int - '0' as int));
    }
  }

  lemma {:induction false} DigitsDecimal(n: nat)
    ensures Digits(Decimal(n), 0) == n
  {
    var last := [DigitChar(n % 10)];
    if n < 10 {
      assert Decimal(n)[1..] == "";
    } else {
      DigitsDecimal(n / 10);
      DigitsConcat(Decimal(n / 10), last, 0);
      assert last[1..] == "";
    }
  }

  /** Decimal text reads back as the number it shows. */
  lemma AtoiDecimal(n: nat)
    ensures Atoi(Decimal(n)) == n
  {
    DigitsDecimal(n);
    assert IsDigit(Decimal(n)[0]);
  }

  lemma {:induction false} LeadingSpace(space: string, s: string)
    requires forall i :: 0 <= i < |space| ==> IsSpace(space[i])
    requires s == "" || !IsSpace(s[0])
    ensures TrimLeft(space + s) == s
  {
    if space == "" {
      assert space + s == s;
    } else {
      assert (space + s)[1..] == space[1..] + s;
      LeadingSpace(space[1..], s);
    }
  }

  lemma DigitsStop(n: nat, rest: string)
    requires rest == "" || !IsDigit(rest[0])
    ensures Digits(Decimal(n) + rest, 0) == n
  {
    DigitsConcat(Decimal(n), rest, 0);
    DigitsDecimal(n);
  }

  /** White space in front, a sign and whatever follows the digits do not matter to the number; text that
      does not begin with one is zero. */
  lemma AtoiSpec(space: string, n: nat, rest: string)
    requires forall i :: 0 <= i < |space| ==> IsSpace(space[i])
    requires rest == "" || !IsDigit(rest[0])
    ensures Atoi(space + (Decimal(n) + rest)) == n
    ensures Atoi(space + ("+" + (Decimal(n) + rest))) == n
    ensures Atoi(space + ("-" + (Decimal(n) + rest))) == 0 - n as int
    ensures rest == "" || (!IsSpace(rest[0]) && rest[0] != '-' && rest[0] != '+') ==> Atoi(space + rest) == 0
  {
    var number := Decimal(n) + rest;
    DigitsStop(n, rest);
    assert number[0] == Decimal(n)[0] && IsDigit(number[0]);
    LeadingSpace(space, number);
    LeadingSpace(space, "+" + number);
    LeadingSpace(space, "-" + number);
    assert ("+" + number)[1..] == number && ("-" + number)[1..] == number;
    if rest == "" || !IsSpace(rest[0]) {
      LeadingSpace(space, rest);
    }
  }

  // ---- Maps ----------------------------------------------------------------------------------

  /** Overriding is associative, and assigning one key is overriding by a singleton. */
  lemma OverrideAssociative<K, V>(a: map<K, V>, b: map<K, V>, c: map<K, V>)
    ensures a + b + c == a + (b + c)
  {
  }

  lemma AssignIsOverride<K, V>(m: map<K, V>, k: K, v: V)
    ensures m[k := v] == m + map[k := v]
    ensures m + map[] == m && map[] + m == m
  {
  }

  /** When a singleton in the middle of an override makes no difference. */
  lemma MiddleVanishes<K, V>(a: map<K, V>, k: K, v: V, b: map<K, V>)
    ensures a + map[k := v] + b == a + b <==> k in b || (k in a && a[k] == v)
  {
    if k !in b {
      assert k in a + map[k := v] + b;
      assert (a + map[k := v] + b)[k] == v;
    }
  }
}
