/**
 * The DNS scorer (services/dns.go): the team number read off the resolver's
 * address, the "<t>" template of the query file, reverse-lookup names, and
 * the four check variants, which accept a team only when every non-blank
 * line of the query file is answered as expected.
 */
module Dns {
  import opened Wrappers
  import opened Text
  import Enum

  /** Index of the last c in s, or -1. */
  function LastIndexOf(s: string, c: char): (i: int)
    ensures -1 <= i < |s|
    ensures i >= 0 ==> s[i] == c
    ensures forall j :: i < j < |s| ==> s[j] != c
    ensures i == -1 <==> c !in s
  {
    if s == [] then -1
    else if s[|s| - 1] == c then |s| - 1
    else LastIndexOf(s[..|s| - 1], c)
  }

  datatype AddrError = MissingPort | MissingBracket | TooManyColons | UnexpectedOpen | UnexpectedClose

  /**
   * net.SplitHostPort: the port follows the last colon; a host with colons
   * must be bracketed; stray brackets are refused.
   */
  function SplitHostPort(hostport: string): Result<(string, string), AddrError>
  {
    var i := LastIndexOf(hostport, ':');
    if i < 0 then Err(MissingPort)
    else
      var bracketed := hostport[0] == '[';
      var end := IndexOf(hostport, ']');
      if bracketed && end == |hostport| then Err(MissingBracket)
      else if bracketed && end + 1 == |hostport| then Err(MissingPort)
      else if bracketed && end + 1 != i then
        (if hostport[end + 1] == ':' then Err(TooManyColons) else Err(MissingPort))
      else if !bracketed && ':' in hostport[..i] then Err(TooManyColons)
      else
        var host := if bracketed then hostport[1..end] else hostport[..i];
        var j, k := if bracketed then 1 else 0, if bracketed then end + 1 else 0;
        if '[' in hostport[j..] then Err(UnexpectedOpen)
        else if ']' in hostport[k..] then Err(UnexpectedClose)
        else Ok((host, hostport[i + 1..]))
  }

  /** A character missing from a suffix is missing from every shorter suffix. */
  lemma SuffixLacks(s: string, j: nat, m: nat, c: char)
    requires j <= m <= |s| && c !in s[j..]
    ensures c !in s[m..]
  {
    forall t | 0 <= t < |s[m..]| ensures s[m..][t] != c {
      assert s[m..][t] == s[j..][m - j + t];
    }
  }

  /** What SplitHostPort accepts is a host and a plain port joined by a colon, the host bracketed or not. */
  lemma SplitHostPortSound(hostport: string)
    requires SplitHostPort(hostport).Ok?
    ensures var (host, port) := SplitHostPort(hostport).value;
            PlainName(port)
            && (hostport == host + ":" + port || hostport == "[" + host + "]:" + port)
  {
    var i := LastIndexOf(hostport, ':');
    var end := IndexOf(hostport, ']');
    var bracketed := hostport[0] == '[';
    var j, k := if bracketed then 1 else 0, if bracketed then end + 1 else 0;
    assert ':' !in hostport[i + 1..] by {
      forall t | i + 1 <= t < |hostport| ensures hostport[t] != ':' {
      }
    }
    SuffixLacks(hostport, j, i + 1, '[');
    SuffixLacks(hostport, k, i + 1, ']');
    var port := hostport[i + 1..];
    if bracketed {
      BracketedShape(hostport, end, i);
    } else {
      PlainShape(hostport, i);
    }
  }

  lemma PlainShape(hp: string, i: nat)
    requires i < |hp| && hp[i] == ':'
    ensures hp == hp[..i] + ":" + hp[i + 1..]
  {
    var r := hp[..i] + ":" + hp[i + 1..];
    assert |r| == |hp|;
    forall t | 0 <= t < |hp| ensures r[t] == hp[t] {
      if t < i {
        assert r[t] == hp[..i][t];
      } else if t > i {
        assert r[t] == hp[i + 1..][t - i - 1];
      }
    }
  }

  lemma BracketedShape(hp: string, end: nat, i: nat)
    requires 0 < end && end + 1 == i < |hp| && hp[0] == '[' && hp[end] == ']' && hp[i] == ':'
    ensures hp == "[" + hp[1..end] + "]:" + hp[i + 1..]
  {
    var r := "[" + hp[1..end] + "]:" + hp[i + 1..];
    assert |r| == |hp|;
    forall t | 0 <= t < |hp| ensures r[t] == hp[t] {
      if 0 < t < end {
        assert r[t] == hp[1..end][t - 1];
      } else if t > i {
        assert r[t] == hp[i + 1..][t - i - 1];
      }
    }
  }

  /** No colon and no bracket. */
  predicate PlainName(s: string)
  {
    ':' !in s && '[' !in s && ']' !in s
  }

  /** "host:port" splits back into its host and port. */
  lemma PlainHostPort(host: string, port: string)
    requires PlainName(host) && PlainName(port)
    ensures SplitHostPort(host + ":" + port) == Ok((host, port))
  {
    var hp := host + ":" + port;
    assert hp[|host|] == ':';
    assert LastIndexOf(hp, ':') == |host| by {
      forall j | |host| < j < |hp| ensures hp[j] != ':' {
        assert hp[j] == port[j - |host| - 1];
      }
    }
    assert hp[..|host|] == host;
    assert hp[|host| + 1..] == port;
    if |host| > 0 {
      assert hp[0] == host[0];
    }
    forall j | 0 <= j < |hp| ensures hp[j] != '[' && hp[j] != ']' {
      if j < |host| {
        assert hp[j] == host[j];
      } else if j > |host| {
        assert hp[j] == port[j - |host| - 1];
      }
    }
  }

  /** In "[host]:port" the closing bracket is the first one and the colon after it the last one. */
  lemma BracketedSeparators(host: string, port: string)
    requires '[' !in host && ']' !in host && PlainName(port)
    ensures var hp := "[" + host + "]:" + port;
      IndexOf(hp, ']') == |host| + 1 && LastIndexOf(hp, ':') == |host| + 2
  {
    var hp := "[" + host + "]:" + port;
    var end := |host| + 1;
    assert hp[end] == ']' && hp[end + 1] == ':';
    assert LastIndexOf(hp, ':') == end + 1 by {
      forall j | end + 1 < j < |hp| ensures hp[j] != ':' {
        assert hp[j] == port[j - end - 2];
      }
    }
    forall j | 0 <= j < end ensures hp[j] != ']' {
      if j > 0 {
        assert hp[j] == host[j - 1];
      }
    }
  }

  /** "[host]:port" has no opening bracket after the first and no closing one after the host. */
  lemma BracketedNoStray(host: string, port: string)
    requires '[' !in host && ']' !in host && PlainName(port)
    ensures var hp := "[" + host + "]:" + port;
      '[' !in hp[1..] && ']' !in hp[|host| + 2..]
  {
    var hp := "[" + host + "]:" + port;
    var end := |host| + 1;
    assert hp[1..] == host + "]:" + port;
    assert hp[end + 1..] == ":" + port;
  }

  /** "[host]:port", the form used for hosts with colons, splits back into its host and port. */
  lemma BracketedHostPort(host: string, port: string)
    requires '[' !in host && ']' !in host && PlainName(port)
    ensures SplitHostPort("[" + host + "]:" + port) == Ok((host, port))
  {
    var hp := "[" + host + "]:" + port;
    var end := |host| + 1;
    BracketedSeparators(host, port);
    BracketedNoStray(host, port);
    assert hp[1..end] == host;
    assert hp[end + 2..] == port;
  }

  /** The host part of the resolver address; a malformed host:port is taken whole. */
  function HostOf(address: string): (host: string)
    ensures ':' !in address ==> host == address
    ensures host == address ||
            exists port :: PlainName(port) && (address == host + ":" + port || address == "[" + host + "]:" + port)
  {
    if ':' !in address then address
    else
      match SplitHostPort(address)
      case Ok(hp) => SplitHostPortSound(address); hp.0
      case Err(_) => address
  }

  datatype DnsError =
    | InvalidAddress(host: string)
    | UnknownMode(mode: string)
    | OpenFailed
    | InvalidLine(line: string)
    | QueryFailed(domain: string)
    | PtrFailed(ip: string)
    | Mismatch(name: string, got: seq<string>, expected: string)
    | ReadFailed

  /**
   * getTeamNumberFromAddress: the last octet of the resolver's host in
   * "external" mode, the third in "internal" mode.
   */
  function TeamNumberFromAddress(address: string, mode: string): (r: Result<string, DnsError>)
    ensures r.Ok? <==> |Split(HostOf(address), '.')| == 4 && (mode == "external" || mode == "internal")
    ensures r.Ok? && mode == "external" ==> r.value == Split(HostOf(address), '.')[3]
    ensures r.Ok? && mode == "internal" ==> r.value == Split(HostOf(address), '.')[2]
  {
    var host := HostOf(address);
    var parts := Split(host, '.');
    if |parts| != 4 then Err(InvalidAddress(host))
    else if mode == "external" then Ok(parts[3])
    else if mode == "internal" then Ok(parts[2])
    else Err(UnknownMode(mode))
  }

  /** An address is its four octets joined by dots. */
  function Dotted(a: string, b: string, c: string, d: string): string
  {
    a + "." + b + "." + c + "." + d
  }

  /** Octets without dots. */
  predicate Octets(a: string, b: string, c: string, d: string)
  {
    '.' !in a && '.' !in b && '.' !in c && '.' !in d
  }

  lemma DottedIsJoin(a: string, b: string, c: string, d: string)
    ensures Dotted(a, b, c, d) == Join([a, b, c, d], ".")
  {
    JoinFour(a, b, c, d, ".");
  }

  lemma DottedSplits(a: string, b: string, c: string, d: string)
    requires Octets(a, b, c, d)
    ensures Split(Dotted(a, b, c, d), '.') == [a, b, c, d]
  {
    DottedIsJoin(a, b, c, d);
    JoinSplit([a, b, c, d], '.');
  }

  /** A plain-named address with or without a port yields the octet its mode names. */
  lemma TeamOfResolver(a: string, b: string, c: string, d: string, port: Option<string>)
    requires Octets(a, b, c, d) && PlainName(Dotted(a, b, c, d))
    requires port.Some? ==> PlainName(port.value)
    ensures var address := if port.Some? then Dotted(a, b, c, d) + ":" + port.value else Dotted(a, b, c, d);
            TeamNumberFromAddress(address, "external") == Ok(d)
            && TeamNumberFromAddress(address, "internal") == Ok(c)
  {
    DottedSplits(a, b, c, d);
    if port.Some? {
      var address := Dotted(a, b, c, d) + ":" + port.value;
      PlainHostPort(Dotted(a, b, c, d), port.value);
      assert address[|Dotted(a, b, c, d)|] == ':';
      assert HostOf(address) == Dotted(a, b, c, d);
    }
  }

  /** The template token of a query file. */
  const Token := "<t>"

  /** The token starts at index i. */
  predicate TokenAt(s: string, i: nat)
    requires i + 3 <= |s|
  {
    s[i] == '<' && s[i + 1] == 't' && s[i + 2] == '>'
  }

  /** No occurrence of the token. */
  predicate NoToken(s: string)
  {
    forall i: nat :: i + 3 <= |s| ==> !TokenAt(s, i)
  }

  /** replaceTeamToken: strings.ReplaceAll(s, "<t>", team), leftmost occurrences first. */
  function ReplaceTeamToken(s: string, team: string): string
  {
    if |s| < 3 then s
    else if TokenAt(s, 0) then team + ReplaceTeamToken(s[3..], team)
    else [s[0]] + ReplaceTeamToken(s[1..], team)
  }

  /** Dropping the first character keeps a string token-free. */
  lemma NoTokenTail(s: string)
    requires s != [] && NoToken(s)
    ensures NoToken(s[1..])
  {
    forall i: nat | i + 3 <= |s[1..]| ensures !TokenAt(s[1..], i) {
      assert !TokenAt(s, i + 1);
    }
  }

  /** A line without the token is left alone. */
  lemma {:induction false} NoTokenUnchanged(s: string, team: string)
    requires NoToken(s)
    ensures ReplaceTeamToken(s, team) == s
  {
    if |s| >= 3 {
      assert !TokenAt(s, 0);
      NoTokenTail(s);
      NoTokenUnchanged(s[1..], team);
      assert [s[0]] + s[1..] == s;
    }
  }

  /** A token right after a token-free prefix is replaced, and the rest continues from after it. */
  lemma {:induction false} ReplaceAfterPrefix(p: string, rest: string, team: string)
    requires NoToken(p)
    ensures ReplaceTeamToken(p + Token + rest, team) == p + team + ReplaceTeamToken(rest, team)
  {
    var s := p + Token + rest;
    if p == [] {
      assert s == Token + rest;
      assert TokenAt(s, 0);
      assert s[3..] == rest;
    } else {
      assert !TokenAt(s, 0) by {
        if |p| >= 3 {
          assert !TokenAt(p, 0);
        } else if |p| == 2 {
          assert s[2] == '<';
        } else {
          assert s[1] == '<';
        }
      }
      NoTokenTail(p);
      assert s[1..] == p[1..] + Token + rest;
      ReplaceAfterPrefix(p[1..], rest, team);
      assert [p[0]] + p[1..] == p;
    }
  }

  /** A team without '<' cannot start a token, so it keeps a token-free rest token-free. */
  lemma NoTokenAfterTeam(team: string, y: string)
    requires '<' !in team && NoToken(y)
    ensures NoToken(team + y)
  {
    var s := team + y;
    forall i: nat | i + 3 <= |s| ensures !TokenAt(s, i) {
      if i < |team| {
        assert s[i] == team[i];
      } else {
        assert !TokenAt(y, i - |team|);
        assert s[i] == y[i - |team|] && s[i + 1] == y[i + 1 - |team|] && s[i + 2] == y[i + 2 - |team|];
      }
    }
  }

  /** The replacement starts with the team where the input starts with the token, else with the input's first character. */
  lemma ReplaceHead(x: string, team: string)
    requires team != []
    ensures ReplaceTeamToken(x, team) == [] <==> x == []
    ensures x != [] ==> ReplaceTeamToken(x, team)[0] == (if |x| >= 3 && TokenAt(x, 0) then team[0] else x[0])
  {
  }

  /**
   * With a non-empty team that contains none of '<', 't' and '>', no token
   * is left after the replacement. (An empty team can rebuild one:
   * "<<t>t>" becomes "<t>".)
   */
  lemma {:induction false} NoTokenRemains(s: string, team: string)
    requires team != [] && '<' !in team && 't' !in team && '>' !in team
    ensures NoToken(ReplaceTeamToken(s, team))
    decreases |s|
  {
    if |s| < 3 {
    } else if TokenAt(s, 0) {
      NoTokenRemains(s[3..], team);
      NoTokenAfterTeam(team, ReplaceTeamToken(s[3..], team));
    } else {
      var y := ReplaceTeamToken(s[1..], team);
      var r := [s[0]] + y;
      NoTokenRemains(s[1..], team);
      ReplaceHead(s[1..], team);
      forall i: nat | i + 3 <= |r| ensures !TokenAt(r, i) {
        if i > 0 {
          assert !TokenAt(y, i - 1);
          assert r[i] == y[i - 1] && r[i + 1] == y[i] && r[i + 2] == y[i + 1];
        } else if s[0] == '<' && y[0] == 't' {
          assert team[0] in team;
          assert s[1] == 't';
          if |s[1..]| < 3 {
            assert y == s[1..];
            assert y[1] == s[2];
          } else {
            assert y == [s[1]] + ReplaceTeamToken(s[2..], team);
            ReplaceHead(s[2..], team);
            assert y[1] == ReplaceTeamToken(s[2..], team)[0];
          }
        }
      }
    }
  }

  /**
   * A query-file template is token-free pieces joined by the token; filling
   * it in puts the team where each token was.
   */
  lemma {:induction false} FillTemplate(pieces: seq<string>, team: string)
    requires |pieces| >= 1
    requires forall k :: 0 <= k < |pieces| ==> NoToken(pieces[k])
    ensures ReplaceTeamToken(Join(pieces, Token), team) == Join(pieces, team)
  {
    if |pieces| == 1 {
      NoTokenUnchanged(pieces[0], team);
    } else {
      FillTemplate(pieces[1..], team);
      ReplaceAfterPrefix(pieces[0], Join(pieces[1..], Token), team);
    }
  }

  /** The suffix of reverse-lookup names under in-addr.arpa, section 3.5 of RFC 1035. */
  const ReverseSuffix := "in-addr.arpa."

  /** reverseIP: the octets in reverse order under in-addr.arpa. */
  function ReverseIP(ip: string): (r: Result<string, DnsError>)
    ensures r.Err? <==> |Split(ip, '.')| != 4
  {
    var parts := Split(ip, '.');
    if |parts| != 4 then Err(InvalidAddress(ip))
    else Ok(parts[3] + "." + parts[2] + "." + parts[1] + "." + parts[0] + "." + ReverseSuffix)
  }

  /** Reads the address back from a reverse-lookup name. */
  function AddressOfPtr(name: string): Option<string>
  {
    var labels := Split(name, '.');
    if |labels| == 7 && labels[4..] == ["in-addr", "arpa", ""] then
      Some(Dotted(labels[3], labels[2], labels[1], labels[0]))
    else None
  }

  /** The labels of the reverse-lookup name of the octets p. */
  function ReverseLabels(p: seq<string>): (l: seq<string>)
    requires |p| == 4
    ensures |l| == 7 && l[4..] == ["in-addr", "arpa", ""]
    ensures l[3] == p[0] && l[2] == p[1] && l[1] == p[2] && l[0] == p[3]
  {
    [p[3], p[2], p[1], p[0], "in-addr", "arpa", ""]
  }

  /** The reverse-lookup name is its labels joined by dots. */
  lemma ReverseIsJoin(ip: string)
    requires ReverseIP(ip).Ok?
    ensures ReverseIP(ip).value == Join(ReverseLabels(Split(ip, '.')), ".")
  {
    var p := Split(ip, '.');
    var octets := [p[3], p[2], p[1], p[0]];
    var suffix := ["in-addr", "arpa", ""];
    assert ReverseLabels(p) == octets + suffix;
    JoinFour(p[3], p[2], p[1], p[0], ".");
    assert Join(suffix, ".") == ReverseSuffix;
    JoinAppend(octets, suffix, ".");
  }

  /** The reverse-lookup name of an address leads back to that address. */
  lemma ReverseRoundTrip(ip: string)
    requires ReverseIP(ip).Ok?
    ensures AddressOfPtr(ReverseIP(ip).value) == Some(ip)
  {
    var p := Split(ip, '.');
    var labels := ReverseLabels(p);
    ReverseIsJoin(ip);
    assert forall k :: 0 <= k < 4 ==> '.' !in p[k];
    JoinSplit(labels, '.');
    SplitJoin(ip, '.');
    DottedIsJoin(p[0], p[1], p[2], p[3]);
    assert p == [p[0], p[1], p[2], p[3]];
  }

  /** The number of backslashes that end s. */
  function TrailingBackslashes(s: string): (n: nat)
    ensures n <= |s|
    ensures forall j :: |s| - n <= j < |s| ==> s[j] == '\\'
    ensures n < |s| ==> s[|s| - n - 1] != '\\'
  {
    if s == [] || s[|s| - 1] != '\\' then 0 else 1 + TrailingBackslashes(s[..|s| - 1])
  }

  /** dns.IsFqdn: ends with a dot that an even run of backslashes leaves unescaped. */
  predicate IsFqdn(s: string)
  {
    |s| > 0 && s[|s| - 1] == '.' && TrailingBackslashes(s[..|s| - 1]) % 2 == 0
  }

  /** dns.Fqdn: a name that is not fully qualified gets a trailing dot. */
  function Fqdn(s: string): (r: string)
    ensures |r| > 0 && r[|r| - 1] == '.'
    ensures IsFqdn(s) ==> r == s
    ensures !IsFqdn(s) ==> r == s + "."
  {
    if IsFqdn(s) then s else s + "."
  }

  /** Without a run of backslashes before the end, qualifying a name twice is qualifying it once. */
  lemma FqdnIdempotent(s: string)
    requires TrailingBackslashes(s) % 2 == 0
    ensures IsFqdn(Fqdn(s)) && Fqdn(Fqdn(s)) == Fqdn(s)
  {
    if !IsFqdn(s) {
      assert (s + ".")[..|s|] == s;
    }
  }

  datatype QType = A | PTR

  /** The four DNS checks. */
  datatype DnsCheck = ExternalFwd | ExternalRev | InternalFwd | InternalRev
  {
    predicate External() { this == ExternalFwd || this == ExternalRev }
    predicate Reverse() { this == ExternalRev || this == InternalRev }
    function Mode(): string { if External() then "external" else "internal" }
    /** The query-file columns of the address and the name. */
    function IpField(): nat { if External() then 0 else 2 }
    function NameField(): nat { if External() then 1 else 3 }
  }

  /**
   * The resolver under test: the answers to a query for a fully qualified
   * name, or None when the query fails or the answer code is not success.
   */
  type Resolver = (string, QType) -> Option<seq<string>>

  /** The query file as the line scanner sees it: its lines and whether reading ended in an error. */
  datatype QueryFile = QueryFile(lines: seq<string>, readError: bool)

  /** The expected address is among the A answers for the name. */
  predicate ForwardAnswered(name: string, ip: string, resolve: Resolver)
  {
    var answers := resolve(Fqdn(name), A);
    answers.Some? && ip in answers.value
  }

  /** The name, fully qualified, is among the PTR answers for the address's reverse-lookup name. */
  predicate ReverseAnswered(ip: string, name: string, resolve: Resolver)
  {
    var ptr := ReverseIP(ip);
    ptr.Ok? && var answers := resolve(Fqdn(ptr.value), PTR);
    answers.Some? && Fqdn(name) in answers.value
  }

  /** An A query for the name; the error when the answers lack the address. */
  function ForwardCheck(name: string, ip: string, resolve: Resolver): (r: Option<DnsError>)
    ensures r.None? <==> ForwardAnswered(name, ip, resolve)
  {
    var results := resolve(Fqdn(name), A);
    if results.None? then Some(QueryFailed(name))
    else if ip !in results.value then Some(Mismatch(name, results.value, ip))
    else None
  }

  /** A PTR query for the address; the error when the answers lack the name. */
  function ReverseCheck(ip: string, name: string, resolve: Resolver): (r: Option<DnsError>)
    ensures r.None? <==> ReverseAnswered(ip, name, resolve)
  {
    var ptr := ReverseIP(ip);
    if ptr.Err? then Some(PtrFailed(ip))
    else
      var results := resolve(Fqdn(ptr.value), PTR);
      if results.None? then Some(QueryFailed(ptr.value))
      else if Fqdn(name) !in results.value then Some(Mismatch(ip, results.value, Fqdn(name)))
      else None
  }

  /** What a line asks of the resolver, in the columns its check reads, with the team put in. */
  predicate Answered(check: DnsCheck, team: string, fields: seq<string>, resolve: Resolver)
    requires |fields| >= 4
  {
    var ip := ReplaceTeamToken(fields[check.IpField()], team);
    var name := ReplaceTeamToken(fields[check.NameField()], team);
    if check.Reverse() then ReverseAnswered(ip, name, resolve) else ForwardAnswered(name, ip, resolve)
  }

  /** The verdict on a well-formed line: the query its check makes, with the team put in. */
  function FieldsResult(check: DnsCheck, team: string, fields: seq<string>, resolve: Resolver): (r: Option<DnsError>)
    requires |fields| >= 4
    ensures r.None? <==> Answered(check, team, fields, resolve)
  {
    var ip := ReplaceTeamToken(fields[check.IpField()], team);
    var name := ReplaceTeamToken(fields[check.NameField()], team);
    if check.Reverse() then ReverseCheck(ip, name, resolve) else ForwardCheck(name, ip, resolve)
  }

  /**
   * The verdict on one line of the query file: a blank line is skipped, one
   * of fewer than four fields is malformed, any other must be answered.
   */
  function LineResult(check: DnsCheck, team: string, line: string, resolve: Resolver): (r: Option<DnsError>)
    ensures r.None? <==> AllSpace(line) || (|Fields(line)| >= 4 && Answered(check, team, Fields(line), resolve))
  {
    if TrimSpace(line) == "" then None
    else
      var fields := Fields(line);
      if |fields| < 4 then Some(InvalidLine(line))
      else FieldsResult(check, team, fields, resolve)
  }

  /** The verdicts on the lines, in order. */
  function LineResults(check: DnsCheck, team: string, lines: seq<string>, resolve: Resolver): (rs: seq<Option<DnsError>>)
    ensures |rs| == |lines|
    ensures forall k :: 0 <= k < |lines| ==> rs[k] == LineResult(check, team, lines[k], resolve)
  {
    seq(|lines|, k requires 0 <= k < |lines| => LineResult(check, team, lines[k], resolve))
  }

  /** The first error in a sequence of verdicts. */
  function FirstError(rs: seq<Option<DnsError>>): (r: Option<DnsError>)
    ensures r.Some? ==> r in rs
  {
    if rs == [] then None else if rs[0].Some? then rs[0] else FirstError(rs[1..])
  }

  /** No error at all exactly when every verdict is a pass. */
  lemma {:induction false} FirstErrorNone(rs: seq<Option<DnsError>>)
    ensures FirstError(rs).None? <==> forall k :: 0 <= k < |rs| ==> rs[k].None?
  {
    if rs != [] {
      FirstErrorNone(rs[1..]);
      assert forall k :: 1 <= k < |rs| ==> rs[k] == rs[1..][k - 1];
    }
  }

  datatype Outcome = Outcome(points: int, up: bool, err: Option<DnsError>)

  /** What a DNS check returns: the award and up, or no points, down and the first error. */
  function DnsOutcome(check: DnsCheck, service: Enum.Service, address: string, file: Option<QueryFile>,
                      resolve: Resolver): Outcome
  {
    var team := TeamNumberFromAddress(address, check.Mode());
    if team.Err? then Outcome(0, false, Some(team.error))
    else if file.None? then Outcome(0, false, Some(OpenFailed))
    else
      var failure := FirstError(LineResults(check, team.value, file.value.lines, resolve));
      if failure.Some? then Outcome(0, false, failure)
      else if file.value.readError then Outcome(0, false, Some(ReadFailed))
      else Outcome(service.award, true, None)
  }

  /**
   * A team's DNS is up exactly when its resolver address is well formed, the
   * query file reads cleanly, and every non-blank line has at least four
   * fields and is answered with the expected address or name.
   */
  lemma DnsUpIff(check: DnsCheck, service: Enum.Service, address: string, file: Option<QueryFile>,
                 resolve: Resolver)
    ensures var o := DnsOutcome(check, service, address, file, resolve);
            o.up <==>
              TeamNumberFromAddress(address, check.Mode()).Ok? && file.Some? && !file.value.readError
              && forall k :: 0 <= k < |file.value.lines| ==>
                   LineResult(check, TeamNumberFromAddress(address, check.Mode()).value,
                              file.value.lines[k], resolve).None?
    ensures var o := DnsOutcome(check, service, address, file, resolve);
            (o.up ==> o.points == service.award && o.err.None?) && (!o.up ==> o.points == 0 && o.err.Some?)
  {
    var team := TeamNumberFromAddress(address, check.Mode());
    if team.Ok? && file.Some? {
      FirstErrorNone(LineResults(check, team.value, file.value.lines, resolve));
    }
  }

  /** The found loop over the answers. */
  method Contains(results: seq<string>, expected: string) returns (found: bool)
    ensures found <==> expected in results
  {
    found := false;
    for i := 0 to |results|
      invariant !found && expected !in results[..i]
    {
      if results[i] == expected {
        found := true;
        return;
      }
    }
    assert results[..|results|] == results;
  }

  /** The body of the scan for one line: parse it, put the team in, query, look for the expected answer. */
  method CheckLine(check: DnsCheck, team: string, line: string, resolve: Resolver) returns (err: Option<DnsError>)
    ensures err == LineResult(check, team, line, resolve)
  {
    if TrimSpace(line) == "" {
      return None;
    }
    var fields := Fields(line);
    if |fields| < 4 {
      return Some(InvalidLine(line));
    }
    err := QueryFields(check, team, fields, resolve);
  }

  /** The query of a well-formed line, forward or reverse as its check says. */
  method QueryFields(check: DnsCheck, team: string, fields: seq<string>, resolve: Resolver)
    returns (err: Option<DnsError>)
    requires |fields| >= 4
    ensures err == FieldsResult(check, team, fields, resolve)
  {
    var ip := ReplaceTeamToken(fields[check.IpField()], team);
    var name := ReplaceTeamToken(fields[check.NameField()], team);
    if !check.Reverse() {
      err := QueryForward(name, ip, resolve);
    } else {
      err := QueryReverse(ip, name, resolve);
    }
  }

  /** The A query of a forward check and the search of its answers. */
  method QueryForward(name: string, ip: string, resolve: Resolver) returns (err: Option<DnsError>)
    ensures err == ForwardCheck(name, ip, resolve)
  {
    var results := resolve(Fqdn(name), A);
    if results.None? {
      return Some(QueryFailed(name));
    }
    var found := Contains(results.value, ip);
    if !found {
      return Some(Mismatch(name, results.value, ip));
    }
    return None;
  }

  /** The PTR query of a reverse check and the search of its answers. */
  method QueryReverse(ip: string, name: string, resolve: Resolver) returns (err: Option<DnsError>)
    ensures err == ReverseCheck(ip, name, resolve)
  {
    var ptr := ReverseIP(ip);
    if ptr.Err? {
      return Some(PtrFailed(ip));
    }
    var results := resolve(Fqdn(ptr.value), PTR);
    if results.None? {
      return Some(QueryFailed(ptr.value));
    }
    var expected := Fqdn(name);
    var found := Contains(results.value, expected);
    if !found {
      return Some(Mismatch(ip, results.value, expected));
    }
    return None;
  }

  /**
   * ScoreDNSExternalFwd, ScoreDNSExternalRev, ScoreDNSInternalFwd and
   * ScoreDNSInternalRev: one scan of the query file, stopping at the first
   * line that fails.
   */
  method ScoreDns(check: DnsCheck, service: Enum.Service, address: string, file: Option<QueryFile>,
                  resolve: Resolver) returns (points: int, up: bool, err: Option<DnsError>)
    ensures Outcome(points, up, err) == DnsOutcome(check, service, address, file, resolve)
  {
    var team := TeamNumberFromAddress(address, check.Mode());
    if team.Err? {
      return 0, false, Some(team.error);
    }
    if file.None? {
      return 0, false, Some(OpenFailed);
    }
    var lines := file.value.lines;
    ghost var rs := LineResults(check, team.value, lines, resolve);
    for i := 0 to |lines|
      invariant FirstError(rs) == FirstError(rs[i..])
    {
      var lineErr := CheckLine(check, team.value, lines[i], resolve);
      assert rs[i..][0] == lineErr;
      assert rs[i..][1..] == rs[i + 1..];
      if lineErr.Some? {
        return 0, false, lineErr;
      }
    }
    assert rs[|lines|..] == [];
    if file.value.readError {
      return 0, false, Some(ReadFailed);
    }
    return service.award, true, None;
  }
}
