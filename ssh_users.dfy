/**
 * ChooseRandomUser (scoring/ssh.go): the non-blank, trimmed lines of the
 * users file, one of them picked by an index, split at its first colon
 * into user name and password.
 */
module SshUsers {
  import opened Wrappers
  import opened Text

  datatype UserError = Unreadable | NoValidLines | InvalidFormat(line: string)

  /** Non-empty, with no white space at either end. */
  predicate Stripped(s: string)
  {
    s != [] && !IsSpace(s[0]) && !IsSpace(s[|s| - 1])
  }

  /** Lines with the white space at their ends removed and the blank ones dropped, in order. */
  function Trimmed(lines: seq<string>): (valid: seq<string>)
    ensures |valid| <= |lines|
    ensures forall k :: 0 <= k < |valid| ==> Stripped(valid[k])
  {
    if lines == [] then []
    else
      var prev := Trimmed(lines[..|lines| - 1]);
      var line := TrimSpace(lines[|lines| - 1]);
      if line == "" then prev
      else
        assert Stripped(line);
        prev + [line]
  }

  /** One unfolding of Trimmed: the last line is trimmed and kept after the others. */
  lemma TrimmedLast(lines: seq<string>)
    requires lines != []
    ensures Trimmed(lines) ==
              Trimmed(lines[..|lines| - 1])
              + (if TrimSpace(lines[|lines| - 1]) == "" then [] else [TrimSpace(lines[|lines| - 1])])
  {
  }

  /** Trimming two runs of lines is trimming each in turn: the order of the lines is kept. */
  lemma {:induction false} TrimmedAppend(a: seq<string>, b: seq<string>)
    ensures Trimmed(a + b) == Trimmed(a) + Trimmed(b)
    decreases |b|
  {
    if b == [] {
      assert a + b == a;
    } else {
      var ab := a + b;
      var init := b[..|b| - 1];
      var last := TrimSpace(b[|b| - 1]);
      var tail := if last == "" then [] else [last];
      assert ab[|ab| - 1] == b[|b| - 1];
      assert ab[..|ab| - 1] == a + init;
      calc {
        Trimmed(ab);
        { TrimmedLast(ab); }
        Trimmed(a + init) + tail;
        { TrimmedAppend(a, init); }
        Trimmed(a) + Trimmed(init) + tail;
        { TrimmedLast(b); }
        Trimmed(a) + Trimmed(b);
      }
    }
  }

  /** Every line trimmed, in order. */
  function TrimmedAll(lines: seq<string>): (r: seq<string>)
    ensures |r| == |lines|
    ensures forall i :: 0 <= i < |lines| ==> r[i] == TrimSpace(lines[i])
  {
    seq(|lines|, i requires 0 <= i < |lines| => TrimSpace(lines[i]))
  }

  /** Some line of lines trims to x. */
  predicate TrimsTo(lines: seq<string>, x: string)
  {
    x in TrimmedAll(lines)
  }

  /** A line trims to x among all the lines exactly when it does among the earlier ones or is the last. */
  lemma TrimsToLast(lines: seq<string>, x: string)
    requires lines != []
    ensures TrimsTo(lines, x) <==> TrimsTo(lines[..|lines| - 1], x) || TrimSpace(lines[|lines| - 1]) == x
  {
    var all := TrimmedAll(lines);
    var n := |lines| - 1;
    assert all[..n] == TrimmedAll(lines[..n]);
    assert all == all[..n] + [all[n]];
  }

  /** The kept lines are exactly the non-blank trimmed input lines: none is lost and none added. */
  lemma {:induction false} TrimmedMembers(lines: seq<string>, x: string)
    ensures x in Trimmed(lines) <==> x != "" && TrimsTo(lines, x)
  {
    if lines != [] {
      TrimmedLast(lines);
      TrimmedMembers(lines[..|lines| - 1], x);
      TrimsToLast(lines, x);
    }
  }

  /** The candidate lines of a users file. */
  function CandidateLines(data: string): seq<string>
  {
    Trimmed(Split(data, '\n'))
  }

  /** The line loop that builds validLines. */
  method ValidLines(data: string) returns (valid: seq<string>)
    ensures valid == CandidateLines(data)
  {
    var lines := Split(data, '\n');
    valid := [];
    for i := 0 to |lines|
      invariant valid == Trimmed(lines[..i])
    {
      assert lines[..i + 1][..i] == lines[..i];
      var line := TrimSpace(lines[i]);
      if line != "" {
        valid := valid + [line];
      }
    }
    assert lines[..|lines|] == lines;
  }

  /** The user name before the first colon and the password after it, which may hold more colons. */
  function ParseUserLine(line: string): (r: Result<(string, string), UserError>)
    ensures r.Err? <==> ':' !in line
    ensures r.Err? ==> r.error == InvalidFormat(line)
    ensures r.Ok? ==> ':' !in r.value.0 && line == r.value.0 + ":" + r.value.1
  {
    var parts := SplitN2(line, ':');
    if |parts| != 2 then Err(InvalidFormat(line)) else Ok((parts[0], parts[1]))
  }

  /** A colon-free user name and any password read back from their line. */
  lemma UserLineRoundTrip(user: string, password: string)
    requires ':' !in user
    ensures ParseUserLine(user + ":" + password) == Ok((user, password))
  {
    var line := user + ":" + password;
    assert line[|user|] == ':';
    assert IndexOf(line, ':') == |user| by {
      forall j | 0 <= j < |user| ensures line[j] != ':' {
        assert line[j] == user[j];
      }
    }
    assert line[..|user|] == user;
    assert line[|user| + 1..] == password;
  }

  /** What ChooseRandomUser returns for the file contents (None: unreadable) and the drawn index. */
  function UserOf(data: Option<string>, index: nat): Result<(string, string), UserError>
    requires data.Some? && |CandidateLines(data.value)| > 0 ==> index < |CandidateLines(data.value)|
  {
    if data.None? then Err(Unreadable)
    else
      var valid := CandidateLines(data.value);
      if valid == [] then Err(NoValidLines)
      else ParseUserLine(valid[index])
  }

  /**
   * ChooseRandomUser with the random draw as a parameter: rand.Intn yields an
   * index below the number of candidate lines.
   */
  method ChooseUser(data: Option<string>, index: nat) returns (r: Result<(string, string), UserError>)
    requires data.Some? && |CandidateLines(data.value)| > 0 ==> index < |CandidateLines(data.value)|
    ensures r == UserOf(data, index)
  {
    if data.None? {
      return Err(Unreadable);
    }
    var valid := ValidLines(data.value);
    if |valid| == 0 {
      return Err(NoValidLines);
    }
    var userLine := valid[index];
    var parts := SplitN2(userLine, ':');
    if |parts| != 2 {
      return Err(InvalidFormat(userLine));
    }
    return Ok((parts[0], parts[1]));
  }

  /** A chosen user always comes from a line of the file, and its name has no colon. */
  lemma ChosenUserFromFile(data: string, index: nat)
    requires index < |CandidateLines(data)|
    requires UserOf(Some(data), index).Ok?
    ensures var (user, password) := UserOf(Some(data), index).value;
            ':' !in user && user + ":" + password in CandidateLines(data)
  {
  }

  /** The line u:p has no line break when neither part has one. */
  lemma NoBreakInLine(user: string, password: string)
    requires '\n' !in user && '\n' !in password
    ensures '\n' !in user + ":" + password
  {
    var line := user + ":" + password;
    forall j | 0 <= j < |line| ensures line[j] != '\n' {
      if j < |user| {
        assert line[j] == user[j];
      } else if j > |user| {
        assert line[j] == password[j - |user| - 1];
      }
    }
  }

  /** A one-line file whose line is non-blank and trimmed has that line as its only candidate. */
  lemma OneCandidate(line: string)
    requires '\n' !in line && line != [] && !IsSpace(line[0]) && !IsSpace(line[|line| - 1])
    ensures CandidateLines(line) == [line]
  {
    SplitWithout(line, '\n');
    TrimSpaceOfTrimmed(line);
    assert [line][..0] == [];
  }

  /**
   * A users file of one line u:p, u without colons and the line without
   * white space at its ends, yields u and p.
   */
  lemma SingleUserFile(user: string, password: string)
    requires ':' !in user && '\n' !in user && '\n' !in password
    requires user == [] || !IsSpace(user[0])
    requires password == [] || !IsSpace(password[|password| - 1])
    ensures UserOf(Some(user + ":" + password), 0) == Ok((user, password))
  {
    var line := user + ":" + password;
    NoBreakInLine(user, password);
    assert line[0] == (if user == [] then ':' else user[0]);
    assert line[|line| - 1] == (if password == [] then ':' else password[|password| - 1]);
    OneCandidate(line);
    UserLineRoundTrip(user, password);
  }
}
