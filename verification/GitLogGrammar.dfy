/** Which text the `git log` parser takes for what, said without the parser. */
module GitLogGrammar {
  import opened Options
  import opened Decimal
  import opened GitLog
  import opened GitLogProperties
  import opened Sequences

  // ---------- White space ----------

  ghost predicate AllSpace(s: string) {
    forall i :: 0 <= i < |s| ==> IsSpace(s[i])
  }

  /** `t` is all of `s` but white space around it. */
  ghost predicate Trimmed(s: string, t: string) {
    exists i: nat, j: nat :: i <= j <= |s| && CutAt(s, t, i, j)
  }

  ghost predicate CutAt(s: string, t: string, i: nat, j: nat)
    requires i <= j <= |s|
  {
    && t == s[i..j] && AllSpace(s[..i]) && AllSpace(s[j..])
    && (t != "" ==> !IsSpace(t[0]) && !IsSpace(t[|t| - 1]))
  }

  lemma {:induction false} TrimStartAt(s: string, i: nat)
    requires i <= |s| && AllSpace(s[..i]) && (i < |s| ==> !IsSpace(s[i]))
    ensures TrimStart(s) == s[i..]
  {
    if i > 0 {
      assert s[0] == s[..i][0];
      var fewer := s[1..][..i - 1];
      assert forall k :: 0 <= k < |fewer| ==> fewer[k] == s[..i][k + 1];
      TrimStartAt(s[1..], i - 1);
    }
  }

  lemma {:induction false} TrimEndAt(s: string, j: nat)
    requires j <= |s| && AllSpace(s[j..]) && (j > 0 ==> !IsSpace(s[j - 1]))
    ensures TrimEnd(s) == s[..j]
    decreases |s|
  {
    if j < |s| {
      var front := s[..|s| - 1];
      assert s[|s| - 1] == s[j..][|s| - 1 - j];
      assert forall k :: 0 <= k < |front| - j ==> front[j..][k] == s[j..][k];
      TrimEndAt(front, j);
    }
  }

  lemma {:induction false} SpaceBefore(s: string) returns (i: nat)
    ensures i <= |s| && AllSpace(s[..i]) && (i < |s| ==> !IsSpace(s[i]))
  {
    i := 0;
    if s != "" && IsSpace(s[0]) {
      var k := SpaceBefore(s[1..]);
      i := k + 1;
      assert forall m :: 0 < m < i ==> s[..i][m] == s[1..][..k][m - 1];
    }
  }

  lemma {:induction false} SpaceAfter(s: string) returns (j: nat)
    ensures j <= |s| && AllSpace(s[j..]) && (j > 0 ==> !IsSpace(s[j - 1]))
    decreases |s|
  {
    j := |s|;
    if s != "" && IsSpace(s[|s| - 1]) {
      j := SpaceAfter(s[..|s| - 1]);
      assert forall m :: 0 <= m < |s| - 1 - j ==> s[j..][m] == s[..|s| - 1][j..][m];
    }
  }

  /** Trimming takes away just the white space around a text. */
  lemma TrimExactly(s: string, t: string)
    ensures Trim(s) == t <==> Trimmed(s, t)
  {
    var i := SpaceBefore(s);
    var j := SpaceAfter(s[i..]);
    TrimStartAt(s, i);
    TrimEndAt(s[i..], j);
    assert s[i..][..j] == s[i..i + j] && s[i..][j..] == s[i + j..];
    assert CutAt(s, Trim(s), i, i + j);
    if a: nat, b: nat :| a <= b <= |s| && CutAt(s, t, a, b) {
      TrimmedOnce(s, t, a, b);
    }
  }

  lemma TrimmedOnce(s: string, t: string, a: nat, b: nat)
    requires a <= b <= |s| && CutAt(s, t, a, b)
    ensures Trim(s) == t
  {
    if a < b {
      assert s[a] == t[0] && s[b - 1] == t[|t| - 1];
      TrimStartAt(s, a);
      assert s[a..][b - a..] == s[b..] && s[a..][..b - a] == t && s[a..][b - a - 1] == s[b - 1];
      TrimEndAt(s[a..], b - a);
    } else {
      assert forall k :: 0 <= k < |s| ==> s[k] == if k < a then s[..a][k] else s[b..][k - b];
      assert s[..|s|] == s;
      TrimStartAt(s, |s|);
    }
  }

  // ---------- Letter case ----------

  predicate IsCapital(c: char) {
    'A' <= c <= 'Z'
  }

  /** `small` is the ASCII letter `capital` in lower case. */
  predicate CasePair(capital: char, small: char) {
    IsCapital(capital) && small as int - 'a' as int == capital as int - 'A' as int
  }

  ghost predicate SameButCase(s: string, t: string) {
    |s| == |t| && forall i :: 0 <= i < |s| ==> s[i] == t[i] || CasePair(s[i], t[i]) || CasePair(t[i], s[i])
  }

  ghost predicate NoCapitals(s: string) {
    forall i :: 0 <= i < |s| ==> !IsCapital(s[i])
  }

  /** Lower case equates just the texts that differ only in the case of ASCII letters. */
  lemma LowerExactly(s: string, t: string)
    ensures Lower(s) == Lower(t) <==> SameButCase(s, t)
    ensures Lower(s) == t <==> SameButCase(s, t) && NoCapitals(t)
  {
    if Lower(s) == Lower(t) {
      forall i | 0 <= i < |s|
        ensures s[i] == t[i] || CasePair(s[i], t[i]) || CasePair(t[i], s[i])
      {
        assert Lower(s)[i] == Lower(t)[i];
      }
    }
    if Lower(s) == t {
      assert forall i :: 0 <= i < |s| ==> t[i] == Lower(s)[i];
    }
  }

  /** The author is one of the allowed ones, in any letter case. */
  ghost predicate IsAllowed(email: string, allowed: set<string>) {
    exists a :: a in allowed && NoCapitals(a) && SameButCase(email, a)
  }

  lemma AllowedExactly(email: string, allowed: set<string>)
    ensures Lower(email) in allowed <==> IsAllowed(email, allowed)
  {
    LowerExactly(email, Lower(email));
    if a :| a in allowed && NoCapitals(a) && SameButCase(email, a) {
      LowerExactly(email, a);
    }
  }

  // ---------- Lines ----------

  /** A line ends at a newline, along with a carriage return before it, or at the end of the text. */
  lemma LinesExactly(line: string, rest: string)
    requires '\n' !in line
    ensures Lines(line + ['\r'] + ['\n'] + rest) == [line] + Lines(rest)
    ensures (|line| == 0 || line[|line| - 1] != '\r') ==> Lines(line + ['\n'] + rest) == [line] + Lines(rest)
    ensures |line| > 0 ==> Lines(line) == [line]
  {
    LineFirst(line, rest);
    LineFirst(line + ['\r'], rest);
    CarriageReturnGoes(line);
    if |line| > 0 {
      LastLine(line);
    }
  }

  lemma CarriageReturnGoes(line: string)
    ensures StripCr(line + ['\r']) == line
    ensures (|line| == 0 || line[|line| - 1] != '\r') ==> StripCr(line) == line
  {
  }

  lemma LastLine(line: string)
    requires '\n' !in line && |line| > 0
    ensures Lines(line) == [line]
  {
    FindNone(line, '\n');
  }

  // ---------- Headers ----------

  /** The header's first four fields are `f`; there may be more. */
  ghost predicate HasFields(header: string, f: seq<string>, rest: string) {
    && |f| == 4 && NUL !in f[0] && NUL !in f[1] && NUL !in f[2] && NUL !in f[3]
    && header == f[0] + [NUL] + (f[1] + [NUL] + (f[2] + [NUL] + (f[3] + rest)))
    && (|rest| == 0 || rest[0] == NUL)
  }

  lemma FieldFirst(s: string) returns (rest: string)
    requires |Split(s, NUL)| >= 2
    ensures s == Split(s, NUL)[0] + [NUL] + rest && NUL !in Split(s, NUL)[0]
    ensures Split(s, NUL) == [Split(s, NUL)[0]] + Split(rest, NUL)
  {
    var i := Find(s, NUL);
    rest := s[i + 1..];
  }

  lemma LastField(s: string) returns (rest: string)
    ensures s == Split(s, NUL)[0] + rest && NUL !in Split(s, NUL)[0] && (|rest| == 0 || rest[0] == NUL)
  {
    var i := Find(s, NUL);
    rest := s[i..];
    assert s[..i] + s[i..] == s;
  }

  lemma FieldsAreSplit(header: string) returns (rest: string)
    requires |Split(header, NUL)| >= 4
    ensures HasFields(header, Split(header, NUL)[..4], rest)
  {
    var all := Split(header, NUL);
    var one := FieldFirst(header);
    var f1 := Split(one, NUL);
    var two := FieldFirst(one);
    var f2 := Split(two, NUL);
    var three := FieldFirst(two);
    var f3 := Split(three, NUL);
    rest := LastField(three);
    FourOf(all[0], f1[0], f2[0], f3);
    assert all == [all[0]] + ([f1[0]] + ([f2[0]] + f3));
  }

  lemma FourOf(a: string, b: string, c: string, more: seq<string>)
    requires |more| > 0
    ensures ([a] + ([b] + ([c] + more)))[..4] == [a, b, c, more[0]]
  {
  }

  lemma SplitOfFields(header: string, f: seq<string>, rest: string)
    requires HasFields(header, f, rest)
    ensures |Split(header, NUL)| >= 4 && Split(header, NUL)[..4] == f
  {
    var three := f[3] + rest;
    var two := f[2] + [NUL] + three;
    var one := f[1] + [NUL] + two;
    SplitLast(f[3], rest);
    SplitThrice(f[0], f[1], f[2], three, two, one, header);
    FourOf(f[0], f[1], f[2], Split(three, NUL));
    assert [f[0], f[1], f[2], f[3]] == f;
  }

  lemma SplitThrice(a: string, b: string, c: string, three: string, two: string, one: string, all: string)
    requires NUL !in a && NUL !in b && NUL !in c
    requires two == c + [NUL] + three && one == b + [NUL] + two && all == a + [NUL] + one
    ensures Split(all, NUL) == [a] + ([b] + ([c] + Split(three, NUL)))
  {
    SplitFirst(a, NUL, one);
    SplitFirst(b, NUL, two);
    SplitFirst(c, NUL, three);
  }

  lemma SplitLast(field: string, rest: string)
    requires NUL !in field && (|rest| == 0 || rest[0] == NUL)
    ensures Split(field + rest, NUL)[0] == field
  {
    if |rest| == 0 {
      assert field + rest == field;
      SplitAlone(field);
    } else {
      var more := rest[1..];
      JoinHead(field, NUL, rest, more);
      SplitFirst(field, NUL, more);
    }
  }

  lemma SplitAlone(field: string)
    requires NUL !in field
    ensures Split(field, NUL) == [field]
  {
    FindNone(field, NUL);
  }

  lemma JoinHead(front: string, c: char, rest: string, more: string)
    requires |rest| > 0 && rest[0] == c && more == rest[1..]
    ensures front + rest == front + [c] + more
  {
    assert rest == [c] + more;
  }

  lemma CutAtTab(s: string, i: nat)
    requires i < |s| && s[i] == '\t'
    ensures s == s[..i] + ['\t'] + s[i + 1..]
  {
  }

  /** What the four fields say of a commit that has no rows yet. */
  ghost predicate FieldsSay(f: seq<string>, allowed: set<string>, c: Commit) {
    && |f| == 4
    && Trimmed(f[0], c.sha) && Trimmed(f[1], c.email) && Trimmed(f[2], c.authorAt) && Trimmed(f[3], c.committedAt)
    && c.sha != "" && c.email != "" && c.committedAt != "" && IsAllowed(c.email, allowed)
    && c.added == c.removed == c.files == 0
  }

  ghost predicate IsHeaderOf(header: string, allowed: set<string>, c: Commit) {
    exists f, rest :: HasFields(header, f, rest) && FieldsSay(f, allowed, c)
  }

  /** Of any text: it is taken for the header of a commit if and only if it has four fields that, without the
      white space around them, are the commit's, the first two and the last not empty, its author allowed. */
  lemma HeaderExactly(header: string, allowed: set<string>, c: Commit)
    ensures ParseHeader(header, allowed) == Some(c) <==> IsHeaderOf(header, allowed, c)
  {
    var fields := Split(header, NUL);
    if |fields| >= 4 {
      var rest := FieldsAreSplit(header);
      FieldsParse(header, fields[..4], rest, allowed, c);
    }
    if f, rest :| HasFields(header, f, rest) && FieldsSay(f, allowed, c) {
      FieldsParse(header, f, rest, allowed, c);
    }
  }

  lemma FieldsParse(header: string, f: seq<string>, rest: string, allowed: set<string>, c: Commit)
    requires HasFields(header, f, rest)
    ensures ParseHeader(header, allowed) == Some(c) <==> FieldsSay(f, allowed, c)
  {
    SplitOfFields(header, f, rest);
    var fields := Split(header, NUL);
    assert forall k :: 0 <= k < 4 ==> fields[k] == fields[..4][k] == f[k];
    TrimExactly(f[0], c.sha);
    TrimExactly(f[1], c.email);
    TrimExactly(f[2], c.authorAt);
    TrimExactly(f[3], c.committedAt);
    AllowedExactly(c.email, allowed);
  }

  // ---------- Rows ----------

  /** `s` is `n` in decimal, with or without a sign and leading zeros, and `n` fits 64 bits. */
  ghost predicate IsI64(s: string, n: int) {
    && -0x8000_0000_0000_0000 <= n < 0x8000_0000_0000_0000
    && (IsNumber(s, n)
        || (s != "" && s[0] == '+' && IsNumber(s[1..], n))
        || (s != "" && s[0] == '-' && IsNumber(s[1..], -n)))
  }

  ghost predicate IsNumber(s: string, n: int) {
    s != "" && n >= 0 && exists k :: Padded(s, n, k)
  }

  lemma I64Exactly(s: string, n: int)
    ensures ParseI64(s) == Some(n) <==> IsI64(s, n)
  {
    if s != "" && (s[0] == '+' || s[0] == '-') {
      assert !IsDigit(s[0]);
      NumberExactly(s[1..], n);
      NumberExactly(s[1..], -n);
    }
    NumberExactly(s, n);
  }

  lemma NumberExactly(s: string, n: int)
    ensures IsNumber(s, n) <==> s != "" && AllDigits(s) && ValueOf(s) == n
  {
    if s != "" && n >= 0 {
      ValueExactly(s, n);
    }
  }

  ghost predicate IsCount(s: string, n: int) {
    (s == "-" && n == 0) || IsI64(s, n)
  }

  lemma CountExactly(s: string, n: int)
    ensures ParseCount(s) == Some(n) <==> IsCount(s, n)
  {
    I64Exactly(s, n);
    assert s == "-" ==> s[1..] == "";
  }

  ghost predicate IsRowOf(line: string, added: int, removed: int) {
    exists a, b, path :: SplitsInto(line, a, b, path) && IsCount(a, added) && IsCount(b, removed)
  }

  ghost predicate SplitsInto(line: string, a: string, b: string, path: string) {
    line == a + ['\t'] + (b + ['\t'] + path) && '\t' !in a && '\t' !in b
  }

  /** Of any line: it is taken for a row if and only if it is two counts and a path, however odd, with a tab
      after each count. */
  lemma NumstatExactly(line: string, added: int, removed: int)
    ensures ParseNumstat(line) == Some((added, removed)) <==> IsRowOf(line, added, removed)
  {
    if ParseNumstat(line) == Some((added, removed)) {
      ParsedIsRow(line, added, removed);
    }
    if a, b, path :| SplitsInto(line, a, b, path) && IsCount(a, added) && IsCount(b, removed) {
      RowParses(line, a, b, path, added, removed);
    }
  }

  lemma ParsedIsRow(line: string, added: int, removed: int)
    requires ParseNumstat(line) == Some((added, removed))
    ensures IsRowOf(line, added, removed)
  {
    var a, b, path := PartsOf(line);
    CountExactly(a, added);
    CountExactly(b, removed);
  }

  lemma PartsOf(line: string) returns (a: string, b: string, path: string)
    requires ParseNumstat(line).Some?
    ensures SplitsInto(line, a, b, path)
    ensures ParseCount(a) == Some(ParseNumstat(line).value.0) && ParseCount(b) == Some(ParseNumstat(line).value.1)
  {
    var i := Find(line, '\t');
    var tail := line[i + 1..];
    var j := Find(tail, '\t');
    a, b, path := line[..i], tail[..j], tail[j + 1..];
    CutInThree(line, i, tail, j);
  }

  lemma CutInThree(line: string, i: nat, tail: string, j: nat)
    requires i < |line| && line[i] == '\t' && '\t' !in line[..i] && tail == line[i + 1..]
    requires j < |tail| && tail[j] == '\t' && '\t' !in tail[..j]
    ensures SplitsInto(line, line[..i], tail[..j], tail[j + 1..])
  {
    CutAtTab(line, i);
    CutAtTab(tail, j);
  }

  lemma RowParses(line: string, a: string, b: string, path: string, added: int, removed: int)
    requires SplitsInto(line, a, b, path) && IsCount(a, added) && IsCount(b, removed)
    ensures ParseNumstat(line) == Some((added, removed))
  {
    FindFirst(a, '\t', b + ['\t'] + path);
    FindFirst(b, '\t', path);
    CountExactly(a, added);
    CountExactly(b, removed);
    CountIsVisible(a, added);
    VisibleIsNotBlank(line);
  }

  lemma VisibleIsNotBlank(line: string)
    requires |line| > 0 && !IsSpace(line[0])
    ensures |Trim(line)| > 0
  {
    TrimEndKeepsHead(line);
  }

  lemma CountIsVisible(s: string, n: int)
    requires IsCount(s, n)
    ensures s != "" && !IsSpace(s[0])
  {
    NumberExactly(s, n);
    if AllDigits(s) && s != "" {
      assert IsDigit(s[0]);
    }
  }

  // ---------- Any output ----------

  /** A line that is no header and no row changes nothing. */
  lemma NoiseIsSkipped(scan: Scan, line: string, allowed: set<string>)
    requires line == "" || line[0] != '\U{1E}'
    requires forall added, removed :: !IsRowOf(line, added, removed)
    ensures ScanLine(scan, line, allowed) == scan
  {
    var row := ParseNumstat(line);
    if row.Some? {
      NumstatExactly(line, row.value.0, row.value.1);
    }
  }

  ghost predicate Genuine(c: Commit, allowed: set<string>) {
    c.sha != "" && c.email != "" && c.committedAt != "" && IsAllowed(c.email, allowed)
  }

  lemma {:induction false} ScannedAreGenuine(scan: Scan, lines: seq<string>, allowed: set<string>)
    requires forall c :: c in Finished(scan) ==> Genuine(c, allowed)
    ensures forall c :: c in Finished(ScanLines(scan, lines, allowed)) ==> Genuine(c, allowed)
    decreases |lines|
  {
    if |lines| > 0 {
      GenuineStep(scan, lines[0], allowed);
      ScannedAreGenuine(ScanLine(scan, lines[0], allowed), lines[1..], allowed);
    }
  }

  lemma GenuineStep(scan: Scan, line: string, allowed: set<string>)
    requires forall c :: c in Finished(scan) ==> Genuine(c, allowed)
    ensures forall c :: c in Finished(ScanLine(scan, line, allowed)) ==> Genuine(c, allowed)
  {
    if IsHeader(line) {
      var next := ParseHeader(line[1..], allowed);
      if next.Some? {
        HeaderExactly(line[1..], allowed, next.value);
      }
    } else if scan.current.Some? {
      GenuineRow(scan, line, allowed);
    }
  }

  lemma GenuineRow(scan: Scan, line: string, allowed: set<string>)
    requires scan.current.Some? && !IsHeader(line) && forall c :: c in Finished(scan) ==> Genuine(c, allowed)
    ensures forall c :: c in Finished(ScanLine(scan, line, allowed)) ==> Genuine(c, allowed)
  {
    var done, last := scan.finished, scan.current.value;
    assert (done + [last])[|done|] == last && Genuine(last, allowed);
    match ParseNumstat(line)
    case None =>
    case Some((added, removed)) =>
      forall c | c in done + [AddRow(last, added, removed)]
        ensures Genuine(c, allowed)
      {
        assert c in done ==> c in done + [last];
      }
  }

  /** Whatever the output: every commit parsed has a SHA, a date and an allowed author, and no two have the
      same SHA. */
  lemma OnlyAllowedCommits(stdout: string, allowed: set<string>)
    ensures forall c :: c in Parsed(stdout, allowed) ==> Genuine(c, allowed)
    ensures var kept := Parsed(stdout, allowed); forall j, k :: 0 <= j < k < |kept| ==> kept[j].sha != kept[k].sha
  {
    var all := Finished(ScanLines(START, Lines(stdout), allowed));
    ScannedAreGenuine(START, Lines(stdout), allowed);
    EveryShaOnce(all);
    forall c | c in Parsed(stdout, allowed)
      ensures Genuine(c, allowed)
    {
      assert KeptFirst(all, c);
    }
  }
}
