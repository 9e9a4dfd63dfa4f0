/**
 * validateIPSchema, which parser/yamlParsing.go and config/yamlParsing.go
 * both carry with the same text: four dot-separated octets, the first two
 * numbers, the last two each a number or the team letter T (either case),
 * at most one of them T.
 */
module IpSchema {
  import opened Wrappers
  import opened Text

  datatype SchemaError =
    | WrongOctetCount(count: nat)
    | NotANumber(octet: nat, text: string)
    | NotANumberOrT(octet: nat, text: string)
    | TooManyT

  /** An octet of the last two: a number or the team letter. */
  predicate NumberOrT(part: string)
  {
    IsTeamLetter(part) || IsAtoi(part)
  }

  /** The schema's verdict, checking octets in order. */
  function SchemaCheck(ip: string): (r: Option<SchemaError>)
    ensures r.None? <==> var parts := Split(ip, '.');
              |parts| == 4 && IsAtoi(parts[0]) && IsAtoi(parts[1]) && NumberOrT(parts[2]) && NumberOrT(parts[3])
              && !(IsTeamLetter(parts[2]) && IsTeamLetter(parts[3]))
    ensures r.Some? && r.value.WrongOctetCount? <==> |Split(ip, '.')| != 4
    ensures r.Some? && r.value.NotANumber? ==> r.value.octet in {1, 2} && !IsAtoi(r.value.text)
    ensures r.Some? && r.value.NotANumberOrT? ==> r.value.octet in {3, 4} && !NumberOrT(r.value.text)
  {
    var parts := Split(ip, '.');
    if |parts| != 4 then Some(WrongOctetCount(|parts|))
    else if !IsAtoi(parts[0]) then Some(NotANumber(1, parts[0]))
    else if !IsAtoi(parts[1]) then Some(NotANumber(2, parts[1]))
    else if !NumberOrT(parts[2]) then Some(NotANumberOrT(3, parts[2]))
    else if !NumberOrT(parts[3]) then Some(NotANumberOrT(4, parts[3]))
    else if IsTeamLetter(parts[2]) && IsTeamLetter(parts[3]) then Some(TooManyT)
    else None
  }

  /** The schemas validateIPSchema accepts. */
  predicate ValidSchema(ip: string)
  {
    SchemaCheck(ip).None?
  }

  /** validateIPSchema: the number loop over octets 1-2, then the tCount loop over octets 3-4. */
  method ValidateIPSchema(ip: string) returns (err: Option<SchemaError>)
    ensures err == SchemaCheck(ip)
  {
    var parts := Split(ip, '.');
    if |parts| != 4 {
      return Some(WrongOctetCount(|parts|));
    }
    for i := 0 to 2
      invariant forall k :: 0 <= k < i ==> IsAtoi(parts[k])
    {
      if !IsAtoi(parts[i]) {
        return Some(NotANumber(i + 1, parts[i]));
      }
    }
    var tCount := 0;
    for i := 2 to 4
      invariant forall k :: 2 <= k < i ==> NumberOrT(parts[k])
      invariant tCount == (if i > 2 && IsTeamLetter(parts[2]) then 1 else 0)
                          + (if i > 3 && IsTeamLetter(parts[3]) then 1 else 0)
    {
      if IsTeamLetter(parts[i]) {
        tCount := tCount + 1;
      } else if !IsAtoi(parts[i]) {
        return Some(NotANumberOrT(i + 1, parts[i]));
      }
    }
    if tCount > 1 {
      return Some(TooManyT);
    }
    return None;
  }

  /** A number in strconv.Atoi's sense has no letter t or T. */
  lemma AtoiHasNoTeamLetter(s: string)
    requires IsAtoi(s)
    ensures 't' !in s && 'T' !in s
  {
    var body := if |s| > 0 && (s[0] == '+' || s[0] == '-') then s[1..] else s;
    forall i | 0 <= i < |s| ensures s[i] != 't' && s[i] != 'T' {
      if body != s && i > 0 {
        assert s[i] == body[i - 1];
      }
    }
  }
}
