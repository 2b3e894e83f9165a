/** The URI parser of src/Protocol.cpp and the documented form it reads (doc/usage.md:40-46). */
module Uri {
  import opened Bytes
  import opened Text

  datatype UrlParts = UrlParts(scheme: string, host: string, port: int, path: string, query: map<string, string>)

  // ---- The query -----------------------------------------------------------------------------

  /** Key and value of one `&`-separated piece. */
  function EntryKey(piece: string): string {
    Lower(Trim(piece[..Find(piece, '=')]))
  }

  function EntryValue(piece: string): string {
    var eq := Find(piece, '=');
    if eq < |piece| then Trim(piece[eq + 1..]) else ""
  }

  function FirstPiece(query: string): string {
    query[..Find(query, '&')]
  }

  function AfterFirst(query: string): string {
    if Find(query, '&') < |query| then query[Find(query, '&') + 1..] else ""
  }

  /** The specification of the query parser: piece by piece, later keys overriding earlier ones. */
  function ParseQuery(query: string): map<string, string>
    decreases |query|
  {
    if query == "" then map[]
    else map[EntryKey(FirstPiece(query)) := EntryValue(FirstPiece(query))] + ParseQuery(AfterFirst(query))
  }

  /** `parse_query`: the loop over positions in the whole string. */
  method ParseQueryLoop(query: string) returns (result: map<string, string>)
    ensures result == ParseQuery(query)
  {
    result := map[];
    var start := 0;
    LoopEnds(query, map[]);
    while start < |query|
      invariant start <= |query| + 1
      invariant ParsedSoFar(query, start, result)
      decreases |query| + 1 - start
    {
      var key, value, end := NextEntry(query, start);
      OneEntryMore(query, start, result, key, value, end);
      result := result[key := value];
      start := end + 1;
    }
    LoopEnds(query, result);
  }

  /** The entries before a position are in the result, those behind it still to be parsed. */
  ghost predicate ParsedSoFar(query: string, start: nat, result: map<string, string>) {
    result + ParseQuery(From(query, start)) == ParseQuery(query)
  }

  lemma LoopEnds(query: string, result: map<string, string>)
    ensures ParsedSoFar(query, 0, map[])
    ensures forall start: nat :: start >= |query| && ParsedSoFar(query, start, result) ==> result == ParseQuery(query)
  {
    assert query[0..] == query;
    AssignIsOverride(ParseQuery(query), "", "");
    AssignIsOverride(result, "", "");
  }

  lemma OneEntryMore(query: string, start: nat, result: map<string, string>, key: string, value: string, end: nat)
    requires ParsedSoFar(query, start, result)
    requires ParseQuery(From(query, start)) == map[key := value] + ParseQuery(From(query, end + 1))
    ensures ParsedSoFar(query, end + 1, result[key := value])
  {
    Fold(result, key, value, ParseQuery(From(query, start)), ParseQuery(From(query, end + 1)), ParseQuery(query));
  }

  /** The body of the loop: the entry at a position, and where it ends. */
  method NextEntry(query: string, start: nat) returns (key: string, value: string, end: nat)
    requires start < |query|
    ensures start <= end <= |query|
    ensures ParseQuery(From(query, start)) == map[key := value] + ParseQuery(From(query, end + 1))
  {
    end := start + Find(query[start..], '&');
    var eq := start + Find(query[start..], '=');
    LoopStep(query, start, end, eq);
    if eq != |query| && eq < end {
      key := TrimCopy(query[start..eq]);
      value := TrimCopy(query[eq + 1..end]);
    } else {
      key := TrimCopy(query[start..end]);
      value := "";
    }
    key := ToLowerCopy(key);
    FirstEntry(From(query, start), key, value, From(query, end + 1));
  }

  lemma FirstEntry(query: string, key: string, value: string, rest: string)
    requires query != "" && rest == AfterFirst(query)
    requires key == EntryKey(FirstPiece(query)) && value == EntryValue(FirstPiece(query))
    ensures ParseQuery(query) == map[key := value] + ParseQuery(rest)
  {
  }

  lemma Fold(m: map<string, string>, key: string, value: string, here: map<string, string>, rest: map<string, string>,
             all: map<string, string>)
    requires m + here == all && here == map[key := value] + rest
    ensures m[key := value] + rest == all
  {
    AssignIsOverride(m, key, value);
    OverrideAssociative(m, map[key := value], rest);
  }

  function From(query: string, start: nat): string {
    if start <= |query| then query[start..] else ""
  }

  /** One turn of the loop: the positions it computes in the whole string delimit the first piece of the
      rest, its key and its value. */
  lemma LoopStep(query: string, start: nat, end: nat, eq: nat)
    requires start < |query|
    requires end == start + Find(query[start..], '&') && eq == start + Find(query[start..], '=')
    ensures FirstPiece(From(query, start)) == query[start..end]
    ensures AfterFirst(From(query, start)) == From(query, end + 1)
    ensures eq != |query| && eq < end ==>
              && EntryKey(query[start..end]) == Lower(Trim(query[start..eq]))
              && EntryValue(query[start..end]) == Trim(query[eq + 1..end])
    ensures !(eq != |query| && eq < end) ==>
              EntryKey(query[start..end]) == Lower(Trim(query[start..end])) && EntryValue(query[start..end]) == ""
  {
    var rest := query[start..];
    assert rest[..end - start] == query[start..end];
    if end < |query| {
      assert rest[end - start + 1..] == query[end + 1..];
    }
    LoopEntry(query, start, end, eq);
  }

  lemma LoopEntry(query: string, start: nat, end: nat, eq: nat)
    requires start < |query| && start <= end <= |query|
    requires eq == start + Find(query[start..], '=')
    ensures eq != |query| && eq < end ==>
              && EntryKey(query[start..end]) == Lower(Trim(query[start..eq]))
              && EntryValue(query[start..end]) == Trim(query[eq + 1..end])
    ensures !(eq != |query| && eq < end) ==>
              EntryKey(query[start..end]) == Lower(Trim(query[start..end])) && EntryValue(query[start..end]) == ""
  {
    var rest, piece := query[start..], query[start..end];
    assert rest[..end - start] == piece;
    FindWithin(rest, end - start);
    if eq < end {
      assert piece[..eq - start] == query[start..eq];
      assert piece[eq - start + 1..] == query[eq + 1..end];
    } else {
      assert piece[..|piece|] == piece;
    }
  }

  /** Looking for '=' in the whole rest and comparing with the piece's end is looking in the piece. */
  lemma FindWithin(rest: string, end: nat)
    requires end <= |rest|
    ensures Find(rest, '=') < end ==> Find(rest[..end], '=') == Find(rest, '=')
    ensures Find(rest, '=') >= end ==> Find(rest[..end], '=') == end
  {
    var piece := rest[..end];
    assert forall k :: 0 <= k < end ==> piece[k] == rest[k];
  }

  /** The missing piece between two separators, or in front of the first, is an empty key. */
  predicate LeavesGap(q: string) {
    q == "" || q[|q| - 1] == '&'
  }

  function Gap(q: string): map<string, string> {
    if LeavesGap(q) then map["" := ""] else map[]
  }

  /** How the parse of a joined query comes from its parts, for all strings: the second overrides the
      first, and an empty piece, if the join leaves one, adds an empty key between them. */
  lemma {:induction false} ParseJoined(q1: string, q2: string)
    ensures ParseQuery(q1 + "&" + q2) == ParseQuery(q1) + (Gap(q1) + ParseQuery(q2))
  {
    var q := q1 + "&" + q2;
    JoinedPieces(q1, q2);
    if '&' in q1 {
      ParseJoined(AfterFirst(q1), q2);
      OverrideAssociative(map[EntryKey(FirstPiece(q1)) := EntryValue(FirstPiece(q1))],
                          ParseQuery(AfterFirst(q1)), Gap(q1) + ParseQuery(q2));
    } else {
      AssignIsOverride(map[EntryKey(q1) := EntryValue(q1)], "", "");
      AssignIsOverride(ParseQuery(q2), "", "");
      AssignIsOverride(map["" := ""] + ParseQuery(q2), "", "");
      if q1 == "" {
        EmptyPiece();
      }
    }
  }

  lemma JoinedPieces(q1: string, q2: string)
    ensures '&' in q1 ==>
              && q1 != "" && FirstPiece(q1 + "&" + q2) == FirstPiece(q1)
              && AfterFirst(q1 + "&" + q2) == AfterFirst(q1) + "&" + q2
              && |AfterFirst(q1)| < |q1| && LeavesGap(AfterFirst(q1)) == LeavesGap(q1)
    ensures '&' !in q1 ==>
              && FirstPiece(q1 + "&" + q2) == q1 && AfterFirst(q1 + "&" + q2) == q2
              && FirstPiece(q1) == q1 && AfterFirst(q1) == ""
              && (LeavesGap(q1) <==> q1 == "")
  {
    var q := q1 + "&" + q2;
    var end := Find(q1, '&');
    assert q[|q1|] == '&';
    assert forall k :: 0 <= k < |q1| ==> q[k] == q1[k];
    assert Find(q, '&') == end;
    if '&' in q1 {
      assert end < |q1|;
      assert q[..end] == q1[..end];
      assert q[end + 1..] == q1[end + 1..] + "&" + q2;
    } else {
      assert q[..end] == q1 && q1[..end] == q1;
      assert q[end + 1..] == q2;
    }
  }

  lemma EmptyPiece()
    ensures EntryKey("") == "" && EntryValue("") == ""
  {
    assert Lower("") == "";
  }

  /** Joining with '&' is overriding exactly when the join leaves no empty piece behind, or an empty key
      with an empty value makes no difference. */
  lemma JoinIsOverride(q1: string, q2: string)
    ensures ParseQuery(q1 + "&" + q2) == ParseQuery(q1) + ParseQuery(q2)
            <==> !LeavesGap(q1) || "" in ParseQuery(q2) || ("" in ParseQuery(q1) && ParseQuery(q1)[""] == "")
  {
    ParseJoined(q1, q2);
    OverrideAssociative(ParseQuery(q1), Gap(q1), ParseQuery(q2));
    AssignIsOverride(ParseQuery(q1), "", "");
    MiddleVanishes(ParseQuery(q1), "", "", ParseQuery(q2));
  }

  /** A pair that does leave a gap: two empty queries, whose join is the entry of an empty key. */
  lemma EmptyJoinHasAKey()
    ensures ParseQuery("") == map[]
    ensures ParseQuery("" + "&" + "") == map["" := ""] != ParseQuery("") + ParseQuery("")
  {
    ParseJoined("", "");
    JoinIsOverride("", "");
    assert map[] + (map["" := ""] + map[]) == map["" := ""];
  }

  // ---- The URI -------------------------------------------------------------------------------

  /** `find("://")`. */
  function FindScheme(s: string): (i: Option<nat>)
    ensures i.Some? ==> i.value + 3 <= |s| && s[i.value..i.value + 3] == "://"
  {
    if |s| < 3 then None
    else if s[..3] == "://" then Some(0)
    else
      match FindScheme(s[1..])
      case None => None
      case Some(i) => assert s[1..][i..i + 3] == s[i + 1..i + 4]; Some(i + 1)
  }

  datatype Split = Split(scheme: string, rest: string)

  /** The three ways `parse_ifname` finds the scheme. */
  function SplitScheme(s: string): Split {
    match FindScheme(s)
    case Some(i) => Split(s[..i], s[i + 3..])
    case None =>
      var colon, slash := Find(s, ':'), Find(s, '/');
      if colon < |s| && (slash == |s| || colon < slash) then Split(s[..colon], s[colon + 1..])
      else if slash < |s| then Split(s[..slash], s[slash + 1..])
      else Split(s, "")
  }

  datatype Location = Location(host: string, port: int, path: string)

  /** Host, port and path of everything but a serial port. */
  function ParseLocation(rest: string): Location {
    var slash := Find(rest, '/');
    var path := if slash < |rest| then rest[slash + 1..] else "";
    var authority := rest[..slash];
    match RFind(authority, ':')
    case None => Location(authority, -1, path)
    case Some(colon) =>
      var portText := authority[colon + 1..];
      Location(authority[..colon], if portText == "" then -1 else Atoi(portText), path)
  }

  function Lookup(query: map<string, string>, key: string, default_: string): string {
    if key in query then query[key] else default_
  }

  /** `parse_ifname`. */
  function ParseIfname(ifname: string): UrlParts {
    PartsOf(SplitScheme(Trim(ifname)))
  }

  /** What `parse_ifname` does once the scheme is split off. */
  function PartsOf(split: Split): UrlParts {
    PartsUnder(Lower(Trim(split.scheme)), split.rest)
  }

  function PartsUnder(scheme: string, rest: string): UrlParts {
    var mark := Find(rest, '?');
    var query := if mark < |rest| then ParseQuery(rest[mark + 1..]) else map[];
    var body := rest[..mark];
    var at := if scheme == "serial" then Location("", -1, if body == "" then Lookup(query, "path", "") else body)
              else ParseLocation(body);
    UrlParts(scheme,
             if at.host == "" then Lookup(query, "host", "") else at.host,
             if at.port <= 0 && "port" in query then Atoi(query["port"]) else at.port,
             at.path,
             query)
  }

  // ---- The documented form -------------------------------------------------------------------

  datatype Pair = Pair(key: string, value: string)

  function RenderPair(p: Pair): string {
    p.key + "=" + p.value
  }

  function RenderQuery(pairs: seq<Pair>): string {
    if pairs == [] then ""
    else if |pairs| == 1 then RenderPair(pairs[0])
    else RenderPair(pairs[0]) + "&" + RenderQuery(pairs[1..])
  }

  function RenderAuthority(host: string, port: Option<nat>): string {
    if port.Some? then host + [':'] + Decimal(port.value) else host
  }

  function RenderLocation(host: string, port: Option<nat>, path: string): string {
    if path != "" then RenderAuthority(host, port) + ['/'] + path else RenderAuthority(host, port)
  }

  function RenderRest(host: string, port: Option<nat>, path: string, pairs: seq<Pair>): string {
    if pairs != [] then RenderLocation(host, port, path) + ['?'] + RenderQuery(pairs)
    else RenderLocation(host, port, path)
  }

  /** `<scheme>://<host>[:<port>][/<path>][?<query>]`. */
  function Render(scheme: string, host: string, port: Option<nat>, path: string, pairs: seq<Pair>): string {
    scheme + "://" + RenderRest(host, port, path, pairs)
  }

  /** The query as a map: keys in lower case, a repeated one keeps its last value. */
  function MapOf(pairs: seq<Pair>): map<string, string> {
    if pairs == [] then map[] else map[Lower(pairs[0].key) := pairs[0].value] + MapOf(pairs[1..])
  }

  predicate PairOk(p: Pair) {
    && Trimmed(p.key) && '=' !in p.key && '&' !in p.key
    && Trimmed(p.value) && '&' !in p.value
  }

  predicate PairsOk(pairs: seq<Pair>) {
    forall i :: 0 <= i < |pairs| ==> PairOk(pairs[i])
  }

  lemma LowerStays(s: string)
    requires IsLower(s)
    ensures Lower(s) == s
  {
  }

  lemma PairParses(p: Pair)
    requires PairOk(p)
    ensures ParseQuery(RenderPair(p)) == map[Lower(p.key) := p.value]
    ensures RenderPair(p) != "" && !LeavesGap(RenderPair(p))
  {
    var s := RenderPair(p);
    assert s == p.key + ['='] + p.value;
    FindFirst(p.key, '=', p.value);
    assert '&' !in s;
    assert FirstPiece(s) == s && AfterFirst(s) == "";
    assert s[..|p.key|] == p.key && s[|p.key| + 1..] == p.value;
    TrimTrimmed(p.key);
    TrimTrimmed(p.value);
    AssignIsOverride(map[Lower(p.key) := p.value], "", "");
  }

  lemma {:induction false} QueryRoundTrip(pairs: seq<Pair>)
    requires PairsOk(pairs)
    ensures ParseQuery(RenderQuery(pairs)) == MapOf(pairs)
  {
    if pairs != [] {
      assert PairOk(pairs[0]);
      PairParses(pairs[0]);
      if |pairs| == 1 {
        assert MapOf(pairs[1..]) == map[];
        AssignIsOverride(map[Lower(pairs[0].key) := pairs[0].value], "", "");
      } else {
        QueryRoundTrip(pairs[1..]);
        ParseJoined(RenderPair(pairs[0]), RenderQuery(pairs[1..]));
        AssignIsOverride(MapOf(pairs[1..]), "", "");
      }
    }
  }

  predicate SchemeOk(scheme: string) {
    scheme != "" && Trimmed(scheme) && ':' !in scheme
  }

  /** What it takes to find the scheme, the query and what stands between them again. */
  predicate Legible(scheme: string, host: string, port: Option<nat>, path: string, pairs: seq<Pair>) {
    && SchemeOk(scheme) && '?' !in host && '?' !in path && PairsOk(pairs)
    && (pairs == [] ==>
          if path != "" then !IsSpace(path[|path| - 1])
          else port.None? ==> host != "" && !IsSpace(host[|host| - 1]))
  }

  /** What the documented form needs for all its parts to be told apart again. */
  predicate WellFormed(scheme: string, host: string, port: Option<nat>, path: string, pairs: seq<Pair>) {
    && Legible(scheme, host, port, path, pairs) && Lower(scheme) != "serial"
    && '/' !in host && (port.None? ==> ':' !in host)
  }

  lemma {:induction false} SchemeFirst(scheme: string, rest: string)
    requires ':' !in scheme
    ensures FindScheme(scheme + "://" + rest) == Some(|scheme|)
  {
    var s := scheme + "://" + rest;
    if scheme == "" {
      assert s[..3] == "://";
    } else {
      assert s[0] == scheme[0] && s[..3][0] == scheme[0];
      assert s[1..] == scheme[1..] + "://" + rest;
      SchemeFirst(scheme[1..], rest);
    }
  }

  lemma DecimalPlain(n: nat, c: char)
    requires !IsDigit(c)
    ensures c !in Decimal(n)
  {
  }

  lemma LocationRoundTrip(host: string, port: Option<nat>, path: string)
    requires '/' !in host
    requires port.None? ==> ':' !in host
    ensures ParseLocation(RenderLocation(host, port, path))
            == Location(host, if port.Some? then port.value else -1, path)
  {
    var authority := RenderAuthority(host, port);
    if port.Some? {
      DecimalPlain(port.value, '/');
      DecimalPlain(port.value, ':');
      RFindLast(host, ':', Decimal(port.value));
      AtoiDecimal(port.value);
      assert authority[..|host|] == host && authority[|host| + 1..] == Decimal(port.value);
    }
    assert '/' !in authority;
    var s := RenderLocation(host, port, path);
    if path != "" {
      FindFirst(authority, '/', path);
      assert s[..|authority|] == authority && s[|authority| + 1..] == path;
    } else {
      FindNone(authority, '/');
      assert s[..|s|] == s;
    }
  }

  lemma NoQuestionMark(host: string, port: Option<nat>, path: string)
    requires '?' !in host && '?' !in path
    ensures '?' !in RenderLocation(host, port, path)
  {
    if port.Some? {
      DecimalPlain(port.value, '?');
    }
  }

  /** The rendered text has no white space at its ends. */
  lemma RenderTrimmed(scheme: string, host: string, port: Option<nat>, path: string, pairs: seq<Pair>)
    requires Legible(scheme, host, port, path, pairs)
    ensures Trimmed(Render(scheme, host, port, path, pairs))
  {
    var s := Render(scheme, host, port, path, pairs);
    var rest := RenderRest(host, port, path, pairs);
    assert s[0] == scheme[0];
    assert rest != "" && s[|s| - 1] == rest[|rest| - 1];
    if pairs != [] {
      QueryEnd(pairs);
    } else if path == "" && port.Some? {
      assert IsDigit(Decimal(port.value)[|Decimal(port.value)| - 1]);
    }
  }

  lemma {:induction false} QueryEnd(pairs: seq<Pair>)
    requires PairsOk(pairs) && pairs != []
    ensures RenderQuery(pairs) != "" && !IsSpace(RenderQuery(pairs)[|RenderQuery(pairs)| - 1])
  {
    assert PairOk(pairs[0]);
    if |pairs| > 1 {
      QueryEnd(pairs[1..]);
    }
  }

  /** Round trip: parsing the documented form gives its parts back, for every choice of them that can be
      told apart: the scheme and the query keys in lower case, the last value of a repeated key; a host
      left out, and a port left out or zero, are taken from the query if they are there. */
  lemma RoundTrip(scheme: string, host: string, port: Option<nat>, path: string, pairs: seq<Pair>)
    requires WellFormed(scheme, host, port, path, pairs)
    ensures var q := MapOf(pairs);
            var u := ParseIfname(Render(scheme, host, port, path, pairs));
            && u.scheme == Lower(scheme) && u.path == path && u.query == q
            && u.host == (if host != "" then host else if "host" in q then q["host"] else "")
            && u.port == (if port.Some? && port.value > 0 then port.value
                          else if "port" in q then Atoi(q["port"])
                          else if port.Some? then 0 else -1)
  {
    SchemeSplits(scheme, host, port, path, pairs);
    TrimTrimmed(scheme);
    QuerySplits(host, port, path, pairs);
    LocationRoundTrip(host, port, path);
  }

  /** For the form with host and port written out, that is the parts themselves. */
  lemma PlainRoundTrip(scheme: string, host: string, port: nat, path: string, pairs: seq<Pair>)
    requires WellFormed(scheme, host, Some(port), path, pairs) && IsLower(scheme) && host != "" && port > 0
    ensures ParseIfname(Render(scheme, host, Some(port), path, pairs))
            == UrlParts(scheme, host, port, path, MapOf(pairs))
  {
    RoundTrip(scheme, host, Some(port), path, pairs);
    LowerStays(scheme);
  }

  /** Schemes that differ in case only are the same scheme. */
  lemma SchemeIgnoresCase(a: string, b: string, rest: string)
    requires SchemeOk(a) && SchemeOk(b) && Lower(a) == Lower(b)
    requires Trimmed(a + "://" + rest) && Trimmed(b + "://" + rest)
    ensures ParseIfname(a + "://" + rest) == ParseIfname(b + "://" + rest)
  {
    TrimTrimmed(a + "://" + rest);
    TrimTrimmed(b + "://" + rest);
    TrimTrimmed(a);
    TrimTrimmed(b);
    LongSplits(a, rest);
    LongSplits(b, rest);
  }

  /** The other way to name a host and a port: as query parameters, which fill in what the part before
      the query leaves out. */
  lemma QueryFormRoundTrip(scheme: string, host: string, port: nat, path: string)
    requires SchemeOk(scheme) && Lower(scheme) != "serial" && '?' !in path
    requires Trimmed(host) && '&' !in host
    ensures var pairs := [Pair("host", host), Pair("port", Decimal(port))];
            ParseIfname(Render(scheme, "", None, path, pairs))
                == UrlParts(Lower(scheme), host, port, path, MapOf(pairs))
  {
    var p, q := Pair("host", host), Pair("port", Decimal(port));
    var pairs := [p, q];
    assert PairOk(p) && PairOk(q);
    RoundTrip(scheme, "", None, path, pairs);
    HostAndPort(host, Decimal(port));
    AtoiDecimal(port);
  }

  /** A colon with nothing behind it names no port. */
  lemma EmptyPort(host: string)
    requires '/' !in host
    ensures ParseLocation(host + [':']) == Location(host, -1, "")
  {
    var s := host + [':'];
    FindNone(s, '/');
    RFindLast(host, ':', "");
    assert host + [':'] + "" == s && s[..|s|] == s && s[..|host|] == host && s[|host| + 1..] == "";
  }

  lemma HostAndPort(host: string, port: string)
    ensures var query := MapOf([Pair("host", host), Pair("port", port)]);
            && Lookup(query, "host", "") == host && "port" in query && query["port"] == port
  {
    var pairs := [Pair("host", host), Pair("port", port)];
    assert pairs[1..] == [pairs[1]] && pairs[1..][1..] == [];
    LowerStays("host");
    LowerStays("port");
    assert MapOf(pairs[1..]) == map["port" := port];
    assert "host"[0] != "port"[0];
  }

  /** A serial port's path is everything up to the query, slashes and colons included, or, if that is
      nothing, the query's path; host and port can only come from the query. */
  lemma SerialRoundTrip(scheme: string, path: string, pairs: seq<Pair>)
    requires Legible(scheme, path, None, "", pairs) && Lower(scheme) == "serial"
    ensures var q := MapOf(pairs);
            var u := ParseIfname(Render(scheme, path, None, "", pairs));
            && u.scheme == "serial" && u.query == q
            && u.path == (if path != "" then path else if "path" in q then q["path"] else "")
            && u.host == (if "host" in q then q["host"] else "")
            && u.port == (if "port" in q then Atoi(q["port"]) else -1)
  {
    SchemeSplits(scheme, path, None, "", pairs);
    TrimTrimmed(scheme);
    QuerySplits(path, None, "", pairs);
  }

  /** "scheme:rest" and "scheme/rest" are read as "scheme://rest" as long as nothing in them looks like
      "://"; and a bare scheme as a scheme with nothing behind it. */
  lemma ShortForm(scheme: string, separator: char, rest: string)
    requires SchemeOk(scheme) && '/' !in scheme && (separator == ':' || separator == '/')
    requires Trimmed(scheme + [separator] + rest) && Trimmed(scheme + "://" + rest)
    requires FindScheme(scheme + [separator] + rest) == None
    ensures ParseIfname(scheme + [separator] + rest) == ParseIfname(scheme + "://" + rest)
    ensures ParseIfname(scheme) == ParseIfname(scheme + "://")
  {
    TrimTrimmed(scheme + [separator] + rest);
    TrimTrimmed(scheme + "://" + rest);
    LongSplits(scheme, rest);
    ShortSplits(scheme, separator, rest);
    TrimTrimmed(scheme);
    TrimTrimmed(scheme + "://");
    assert scheme + "://" + "" == scheme + "://";
    LongSplits(scheme, "");
    BareSplits(scheme);
  }

  lemma LongSplits(scheme: string, rest: string)
    requires ':' !in scheme
    ensures SplitScheme(scheme + "://" + rest) == Split(scheme, rest)
  {
    var s := scheme + "://" + rest;
    SchemeFirst(scheme, rest);
    assert s[..|scheme|] == scheme && s[|scheme| + 3..] == rest;
  }

  lemma ShortSplits(scheme: string, separator: char, rest: string)
    requires ':' !in scheme && '/' !in scheme && (separator == ':' || separator == '/')
    requires FindScheme(scheme + [separator] + rest) == None
    ensures SplitScheme(scheme + [separator] + rest) == Split(scheme, rest)
  {
    var s := scheme + [separator] + rest;
    FindFirst(scheme, separator, rest);
    assert s[|scheme|] == separator;
    assert forall k :: 0 <= k < |scheme| ==> s[k] != '/' && s[k] != ':';
    assert s[..|scheme|] == scheme && s[|scheme| + 1..] == rest;
  }

  lemma BareSplits(scheme: string)
    requires ':' !in scheme && '/' !in scheme
    ensures SplitScheme(scheme) == Split(scheme, "")
  {
    FindNone(scheme, ':');
    FindNone(scheme, '/');
    NoScheme(scheme);
  }

  lemma {:induction false} NoScheme(s: string)
    requires ':' !in s
    ensures FindScheme(s) == None
  {
    if |s| >= 3 {
      assert s[..3][0] == s[0];
      NoScheme(s[1..]);
    }
  }

  lemma SchemeSplits(scheme: string, host: string, port: Option<nat>, path: string, pairs: seq<Pair>)
    requires Legible(scheme, host, port, path, pairs)
    ensures SplitScheme(Trim(Render(scheme, host, port, path, pairs)))
            == Split(scheme, RenderRest(host, port, path, pairs))
  {
    var s, rest := Render(scheme, host, port, path, pairs), RenderRest(host, port, path, pairs);
    RenderTrimmed(scheme, host, port, path, pairs);
    TrimTrimmed(s);
    LongSplits(scheme, rest);
  }

  lemma QuerySplits(host: string, port: Option<nat>, path: string, pairs: seq<Pair>)
    requires '?' !in host && '?' !in path && PairsOk(pairs)
    ensures var rest := RenderRest(host, port, path, pairs);
            var mark := Find(rest, '?');
            && rest[..mark] == RenderLocation(host, port, path)
            && (if mark < |rest| then ParseQuery(rest[mark + 1..]) else map[]) == MapOf(pairs)
  {
    var rest, body := RenderRest(host, port, path, pairs), RenderLocation(host, port, path);
    NoQuestionMark(host, port, path);
    if pairs != [] {
      FindFirst(body, '?', RenderQuery(pairs));
      assert rest[..|body|] == body && rest[|body| + 1..] == RenderQuery(pairs);
      QueryRoundTrip(pairs);
    } else {
      FindNone(body, '?');
      assert rest[..|body|] == body;
    }
  }

  // ---- One option ----------------------------------------------------------------------------

  /** The `max_connect` of `parse_options`; its default is 1. */
  function MaxConnect(query: map<string, string>): int {
    if "max_connect" in query && Atoi(query["max_connect"]) > 0 then Atoi(query["max_connect"]) else 1
  }

  /** In any well-formed text a bound is taken over exactly when it is positive. Zero, documented as
      "unlimited", leaves the default of one, and so does a query without a bound. */
  lemma MaxConnectFromUri(scheme: string, host: string, port: Option<nat>, path: string, pairs: seq<Pair>, bound: nat)
    requires WellFormed(scheme, host, port, path, pairs)
    ensures var query, given := ParseIfname(Render(scheme, host, port, path, pairs)).query, MapOf(pairs);
            && ("max_connect" in given && given["max_connect"] == Decimal(bound)
                ==> MaxConnect(query) == if bound > 0 then bound else 1)
            && ("max_connect" !in given ==> MaxConnect(query) == 1)
  {
    RoundTrip(scheme, host, port, path, pairs);
    AtoiDecimal(bound);
  }

  /** One pair alone is such a query. */
  lemma OnePair(key: string, value: string)
    requires IsLower(key)
    ensures MapOf([Pair(key, value)]) == map[key := value]
  {
    LowerStays(key);
    assert [Pair(key, value)][1..] == [];
  }

  // ---- Endpoints -----------------------------------------------------------------------------

  datatype Endpoint = Endpoint(host: string, port: int)

  /** `parse_endpoint`. */
  function ParseEndpoint(value: string): Option<Endpoint> {
    match RFind(value, ':')
    case None => None
    case Some(colon) =>
      var portText := value[colon + 1..];
      if portText == "" || Atoi(portText) <= 0 then None
      else Some(Endpoint(value[..colon], Atoi(portText)))
  }

  /** A rendered endpoint reads back exactly when its port is positive, whatever the host; and without
      a port it is refused. */
  lemma EndpointRoundTrip(host: string, port: nat)
    ensures ParseEndpoint(host + [':'] + Decimal(port)) == (if port > 0 then Some(Endpoint(host, port)) else None)
    ensures ParseEndpoint(host + [':'] + "") == None
    ensures ':' !in host ==> ParseEndpoint(host) == None
  {
    var s := host + [':'] + Decimal(port);
    DecimalPlain(port, ':');
    RFindLast(host, ':', Decimal(port));
    RFindLast(host, ':', "");
    AtoiDecimal(port);
    assert s[..|host|] == host && s[|host| + 1..] == Decimal(port);
    assert (host + [':'] + "")[|host| + 1..] == "";
  }
}
