/** What the `git log` parser promises: it composes over output, and it reads back what git wrote. */
module GitLogProperties {
  import opened Options
  import opened Decimal
  import opened GitLog
  import opened Sequences

  // ---------- Composition ----------

  lemma {:induction false} FindSkips(a: string, b: string, c: char)
    ensures c !in a ==> Find(a + b, c) == |a| + Find(b, c)
    ensures c in a ==> Find(a + b, c) == Find(a, c)
  {
    if a == [] {
      assert a + b == b;
    } else {
      assert (a + b)[1..] == a[1..] + b;
      FindSkips(a[1..], b, c);
      assert c in a <==> a[0] == c || c in a[1..];
    }
  }

  /** Lines of output that ends in a newline, followed by more output. */
  lemma {:induction false} LinesConcat(a: string, b: string)
    requires a == [] || a[|a| - 1] == '\n'
    ensures Lines(a + b) == Lines(a) + Lines(b)
    decreases |a|
  {
    if |a| == 0 {
      assert a + b == b;
    } else {
      assert a[|a| - 1] == '\n' && '\n' in a;
      FindSkips(a, b, '\n');
      var i := Find(a, '\n');
      var rest := a[i + 1..];
      assert (a + b)[..i] == a[..i] && (a + b)[i + 1..] == rest + b;
      LinesConcat(rest, b);
      JoinLeft([StripCr(a[..i])], Lines(rest), Lines(b));
    }
  }

  lemma {:induction false} ScanLinesConcat(scan: Scan, a: seq<string>, b: seq<string>, allowed: set<string>)
    ensures ScanLines(scan, a + b, allowed) == ScanLines(ScanLines(scan, a, allowed), b, allowed)
    decreases |a|
  {
    if a == [] {
      assert a + b == b;
    } else {
      assert (a + b)[1..] == a[1..] + b;
      ScanLinesConcat(ScanLine(scan, a[0], allowed), a[1..], b, allowed);
    }
  }

  function Before(done: seq<Commit>, scan: Scan): Scan {
    scan.(finished := done + scan.finished)
  }

  /** What was finished earlier just stays in front. */
  lemma {:induction false} ScanKeepsFront(done: seq<Commit>, scan: Scan, lines: seq<string>, allowed: set<string>)
    ensures ScanLines(Before(done, scan), lines, allowed) == Before(done, ScanLines(scan, lines, allowed))
    decreases |lines|
  {
    if lines != [] {
      var next := ScanLine(scan, lines[0], allowed);
      assert Finished(Before(done, scan)) == done + Finished(scan);
      assert ScanLine(Before(done, scan), lines[0], allowed) == Before(done, next);
      ScanKeepsFront(done, next, lines[1..], allowed);
    }
  }

  /** A header cuts the scan: nothing after it depends on what came before. */
  lemma HeaderCuts(scan: Scan, lines: seq<string>, allowed: set<string>)
    requires lines == [] || IsHeader(lines[0])
    ensures Finished(ScanLines(scan, lines, allowed)) == Finished(scan) + Finished(ScanLines(START, lines, allowed))
  {
    if lines != [] {
      var fromHeader := ScanLine(START, lines[0], allowed);
      assert ScanLine(scan, lines[0], allowed) == Before(Finished(scan), fromHeader);
      ScanKeepsFront(Finished(scan), fromHeader, lines[1..], allowed);
    }
  }

  lemma FirstLineIsHeader(b: string)
    requires b != [] && b[0] == RECORD
    ensures Lines(b) != [] && IsHeader(Lines(b)[0])
  {
  }

  /** The commits whose SHA is not among `shas`. */
  function Unseen(commits: seq<Commit>, shas: set<string>): seq<Commit> {
    if |commits| == 0 then []
    else
      var last := commits[|commits| - 1];
      Unseen(commits[..|commits| - 1], shas) + (if last.sha in shas then [] else [last])
  }

  lemma {:induction false} UnseenShas(commits: seq<Commit>, shas: set<string>)
    ensures Shas(Unseen(commits, shas)) == Shas(commits) - shas
  {
    if commits != [] {
      var front, last := commits[..|commits| - 1], commits[|commits| - 1];
      UnseenShas(front, shas);
      assert commits == front + [last];
      ShasAppend(front, last);
      ShasAppend(Unseen(front, shas), last);
      assert Unseen(front, shas) + [] == Unseen(front, shas);
    }
  }

  lemma ShasConcat(a: seq<Commit>, b: seq<Commit>)
    ensures Shas(a + b) == Shas(a) + Shas(b)
  {
    assert forall x :: x in a + b <==> x in a || x in b;
  }

  lemma UnseenAppend(commits: seq<Commit>, last: Commit, shas: set<string>)
    ensures Unseen(commits + [last], shas) == Unseen(commits, shas) + (if last.sha in shas then [] else [last])
  {
    assert (commits + [last])[..|commits|] == commits;
  }

  lemma FirstPerShaAppend(commits: seq<Commit>, last: Commit)
    ensures FirstPerSha(commits + [last])
            == if last.sha in Shas(FirstPerSha(commits)) then FirstPerSha(commits) else FirstPerSha(commits) + [last]
  {
    assert (commits + [last])[..|commits|] == commits;
  }

  lemma {:induction false} FirstPerShaConcat(a: seq<Commit>, b: seq<Commit>)
    ensures FirstPerSha(a + b) == FirstPerSha(a) + Unseen(FirstPerSha(b), Shas(FirstPerSha(a)))
  {
    if b == [] {
      assert a + b == a;
    } else {
      var front, last := b[..|b| - 1], b[|b| - 1];
      FirstPerShaConcat(a, front);
      var seen, kept := FirstPerSha(a), FirstPerSha(front);
      assert b == front + [last] && a + b == (a + front) + [last];
      FirstPerShaAppend(a + front, last);
      FirstPerShaAppend(front, last);
      OneMore(seen, kept, last);
    }
  }

  /** Where a SHA first appears, or past the end. */
  function FirstAt(commits: seq<Commit>, sha: string): nat {
    if |commits| == 0 || commits[0].sha == sha then 0 else 1 + FirstAt(commits[1..], sha)
  }

  lemma {:induction false} FirstAtAppend(commits: seq<Commit>, last: Commit, sha: string)
    ensures FirstAt(commits + [last], sha)
            == if sha in Shas(commits) then FirstAt(commits, sha)
               else if last.sha == sha then |commits| else |commits| + 1
    ensures FirstAt(commits, sha) < |commits| <==> sha in Shas(commits)
  {
    if |commits| > 0 {
      assert (commits + [last])[1..] == commits[1..] + [last];
      assert commits == [commits[0]] + commits[1..];
      FirstAtAppend(commits[1..], last, sha);
    }
  }

  /** A kept commit is the first of its SHA. */
  ghost predicate KeptFirst(commits: seq<Commit>, c: Commit) {
    FirstAt(commits, c.sha) < |commits| && commits[FirstAt(commits, c.sha)] == c
  }

  lemma KeptFirstAppend(front: seq<Commit>, last: Commit, c: Commit)
    requires KeptFirst(front, c)
    ensures KeptFirst(front + [last], c) && FirstAt(front + [last], c.sha) == FirstAt(front, c.sha) < |front|
  {
    FirstAtAppend(front, last, c.sha);
  }

  /** `FirstPerSha` keeps every SHA once, by its first commit, in the order of those first commits. */
  lemma {:induction false} EveryShaOnce(commits: seq<Commit>)
    ensures var kept := FirstPerSha(commits);
            && Shas(kept) == Shas(commits)
            && (forall k :: 0 <= k < |kept| ==> KeptFirst(commits, kept[k]))
            && (forall j, k :: 0 <= j < k < |kept| ==> FirstAt(commits, kept[j].sha) < FirstAt(commits, kept[k].sha))
  {
    if |commits| > 0 {
      var front, last := commits[..|commits| - 1], commits[|commits| - 1];
      var before, kept := FirstPerSha(front), FirstPerSha(commits);
      EveryShaOnce(front);
      assert commits == front + [last];
      ShasAppend(front, last);
      ShasAppend(before, last);
      FirstAtAppend(front, last, last.sha);
      forall k | 0 <= k < |before|
        ensures KeptFirst(commits, before[k])
        ensures FirstAt(commits, before[k].sha) == FirstAt(front, before[k].sha) < |front|
      {
        KeptFirstAppend(front, last, before[k]);
      }
      assert kept == before || (kept == before + [last] && FirstAt(commits, last.sha) == |front|);
    }
  }

  lemma OneMore(seen: seq<Commit>, kept: seq<Commit>, last: Commit)
    ensures var both := seen + Unseen(kept, Shas(seen));
            (if last.sha in Shas(both) then both else both + [last])
            == seen + Unseen(if last.sha in Shas(kept) then kept else kept + [last], Shas(seen))
  {
    ShasConcat(seen, Unseen(kept, Shas(seen)));
    UnseenShas(kept, Shas(seen));
    UnseenAppend(kept, last, Shas(seen));
  }

  /** Parsing output in two pieces, cut before a commit header, gives the first piece's commits and then
      the second piece's, minus the SHAs already seen. */
  lemma ParsingComposes(a: string, b: string, allowed: set<string>)
    requires a == [] || a[|a| - 1] == '\n'
    requires b == [] || b[0] == RECORD
    ensures Parsed(a + b, allowed)
            == Parsed(a, allowed) + Unseen(Parsed(b, allowed), Shas(Parsed(a, allowed)))
  {
    LinesConcat(a, b);
    ScanLinesConcat(START, Lines(a), Lines(b), allowed);
    if b != [] {
      FirstLineIsHeader(b);
    }
    var scan := ScanLines(START, Lines(a), allowed);
    HeaderCuts(scan, Lines(b), allowed);
    FirstPerShaConcat(Finished(scan), Finished(ScanLines(START, Lines(b), allowed)));
  }

  // ---------- Round trip ----------

  /** One numstat row: a count, or `-` for a binary file. */
  datatype Row = Row(added: Option<nat>, removed: Option<nat>, path: string)

  /** What git knows of a commit. */
  datatype Record = Record(sha: string, email: string, authorAt: string, committedAt: string, rows: seq<Row>)

  predicate FieldText(s: string) {
    NUL !in s && '\n' !in s && Trim(s) == s
  }

  predicate CountInRange(count: Option<nat>) {
    count.Some? ==> count.value <= I64_MAX
  }

  /** Fields are trimmed and hold no separator; paths hold no newline, but tabs and anything else. */
  ghost predicate WellFormed(r: Record) {
    && FieldText(r.sha) && FieldText(r.email) && FieldText(r.authorAt) && FieldText(r.committedAt)
    && r.sha != [] && r.email != [] && r.committedAt != []
    && forall i :: 0 <= i < |r.rows| ==> RowOk(r.rows[i])
  }

  predicate RowOk(row: Row) {
    '\n' !in row.path && CountInRange(row.added) && CountInRange(row.removed)
  }

  function CountText(count: Option<nat>): string {
    if count.Some? then Numeral(count.value) else "-"
  }

  function RowLine(row: Row): string {
    CountText(row.added) + ['\t'] + CountText(row.removed) + ['\t'] + row.path
  }

  function HeaderFields(r: Record): string {
    r.sha + [NUL] + (r.email + [NUL] + (r.authorAt + [NUL] + r.committedAt))
  }

  function RowsText(rows: seq<Row>): string {
    if |rows| == 0 then [] else RowLine(rows[0]) + ['\n'] + RowsText(rows[1..])
  }

  /** A header line, a blank line, and the rows. */
  function RecordText(r: Record): string {
    [RECORD] + HeaderFields(r) + ['\n'] + (['\n'] + RowsText(r.rows))
  }

  function LogText(records: seq<Record>): string {
    if |records| == 0 then [] else RecordText(records[0]) + LogText(records[1..])
  }

  function Amount(count: Option<nat>): nat {
    if count.Some? then count.value else 0
  }

  function TotalAdded(rows: seq<Row>): nat {
    if |rows| == 0 then 0 else TotalAdded(rows[..|rows| - 1]) + Amount(rows[|rows| - 1].added)
  }

  function TotalRemoved(rows: seq<Row>): nat {
    if |rows| == 0 then 0 else TotalRemoved(rows[..|rows| - 1]) + Amount(rows[|rows| - 1].removed)
  }

  /** The commit a record stands for: exact totals, in 64 bits. */
  function CommitOf(r: Record): Commit {
    Commit(r.sha, r.email, r.authorAt, r.committedAt,
           Wrap(TotalAdded(r.rows)), Wrap(TotalRemoved(r.rows)), Wrap(|r.rows|))
  }

  /** The commits of allowed authors, in order. */
  function AllowedCommits(records: seq<Record>, allowed: set<string>): seq<Commit> {
    if |records| == 0 then []
    else (if Lower(records[0].email) in allowed then [CommitOf(records[0])] else [])
         + AllowedCommits(records[1..], allowed)
  }

  lemma FindFirst(x: string, c: char, rest: string)
    requires c !in x
    ensures Find(x + [c] + rest, c) == |x|
    ensures (x + [c] + rest)[..|x|] == x && (x + [c] + rest)[|x| + 1..] == rest
  {
    assert x + [c] + rest == x + ([c] + rest);
    FindSkips(x, [c] + rest, c);
  }

  lemma FindNone(x: string, c: char)
    requires c !in x
    ensures Find(x, c) == |x|
  {
  }

  lemma SplitFirst(x: string, c: char, rest: string)
    requires c !in x
    ensures Split(x + [c] + rest, c) == [x] + Split(rest, c)
  {
    FindFirst(x, c, rest);
  }

  lemma SplitTwo(a: string, b: string)
    requires NUL !in a && NUL !in b
    ensures Split(a + [NUL] + b, NUL) == [a, b]
  {
    SplitFirst(a, NUL, b);
    FindNone(b, NUL);
  }

  lemma SplitThree(a: string, b: string, c: string)
    requires NUL !in a && NUL !in b && NUL !in c
    ensures Split(a + [NUL] + (b + [NUL] + c), NUL) == [a, b, c]
  {
    SplitTwo(b, c);
    SplitFirst(a, NUL, b + [NUL] + c);
  }

  lemma HeaderSplits(r: Record)
    requires WellFormed(r)
    ensures Split(HeaderFields(r), NUL) == [r.sha, r.email, r.authorAt, r.committedAt]
  {
    SplitThree(r.email, r.authorAt, r.committedAt);
    SplitFirst(r.sha, NUL, r.email + [NUL] + (r.authorAt + [NUL] + r.committedAt));
  }

  lemma HeaderReadsBack(r: Record, allowed: set<string>)
    requires WellFormed(r)
    ensures ParseHeader(HeaderFields(r), allowed)
            == if Lower(r.email) !in allowed then None
               else Some(Commit(r.sha, r.email, r.authorAt, r.committedAt, 0, 0, 0))
  {
    HeaderSplits(r);
    var fields := Split(HeaderFields(r), NUL);
    assert |fields| == 4 && fields[0] == r.sha && fields[1] == r.email && fields[2] == r.authorAt
           && fields[3] == r.committedAt;
  }

  lemma CountReadsBack(count: Option<nat>)
    requires CountInRange(count)
    ensures ParseCount(CountText(count)) == Some(Amount(count))
    ensures '\t' !in CountText(count) && '\n' !in CountText(count) && CountText(count) != []
    ensures !IsSpace(CountText(count)[0]) && CountText(count)[0] != RECORD
  {
    if count.Some? {
      ValueOfNumeral(count.value);
      var s := Numeral(count.value);
      assert forall i :: 0 <= i < |s| ==> IsDigit(s[i]);
      assert s != "-" && s[0] != '+' && s[0] != '-';
    }
  }

  lemma {:induction false} TrimEndKeepsHead(s: string)
    requires s != [] && !IsSpace(s[0])
    ensures TrimEnd(s) != []
    decreases |s|
  {
    if IsSpace(s[|s| - 1]) {
      TrimEndKeepsHead(s[..|s| - 1]);
    }
  }

  /** A row reads back its counts, whatever its path holds and with or without a last carriage return. */
  lemma RowReadsBack(row: Row, path: string)
    requires RowOk(row)
    ensures ParseNumstat(RowLine(row.(path := path))) == Some((Amount(row.added), Amount(row.removed)))
    ensures !IsHeader(RowLine(row.(path := path)))
  {
    var a, b := CountText(row.added), CountText(row.removed);
    CountReadsBack(row.added);
    CountReadsBack(row.removed);
    var line := RowLine(row.(path := path));
    assert line == a + ['\t'] + (b + ['\t'] + path);
    FindFirst(a, '\t', b + ['\t'] + path);
    FindFirst(b, '\t', path);
    assert line[0] == a[0];
    TrimEndKeepsHead(line);
  }

  lemma LineFirst(line: string, rest: string)
    requires '\n' !in line
    ensures Lines(line + ['\n'] + rest) == [StripCr(line)] + Lines(rest)
  {
    FindFirst(line, '\n', rest);
  }

  lemma TotalsAppend(rows: seq<Row>, row: Row)
    ensures TotalAdded(rows + [row]) == TotalAdded(rows) + Amount(row.added)
    ensures TotalRemoved(rows + [row]) == TotalRemoved(rows) + Amount(row.removed)
  {
    assert (rows + [row])[..|rows|] == rows;
  }

  /** The lines that rows, a record and a log are read as. */
  function RowLines(rows: seq<Row>): seq<string> {
    if |rows| == 0 then [] else [StripCr(RowLine(rows[0]))] + RowLines(rows[1..])
  }

  function RecordLines(r: Record): seq<string> {
    [[RECORD] + HeaderFields(r)] + ([[]] + RowLines(r.rows))
  }

  function LogLines(records: seq<Record>): seq<string> {
    if |records| == 0 then [] else RecordLines(records[0]) + LogLines(records[1..])
  }

  lemma {:induction false} RowsAreLines(rows: seq<Row>, rest: string)
    requires forall i :: 0 <= i < |rows| ==> RowOk(rows[i])
    ensures Lines(RowsText(rows) + rest) == RowLines(rows) + Lines(rest)
    decreases |rows|
  {
    if rows == [] {
      assert RowsText(rows) + rest == rest;
    } else {
      var line, text := RowLine(rows[0]), RowsText(rows[1..]);
      RowLineIsOneLine(rows[0]);
      JoinLeft(line + ['\n'], text, rest);
      LineFirst(line, text + rest);
      RowsAreLines(rows[1..], rest);
      JoinLeft([StripCr(line)], RowLines(rows[1..]), Lines(rest));
    }
  }

  lemma RowLineIsOneLine(row: Row)
    requires RowOk(row)
    ensures '\n' !in RowLine(row)
  {
    CountReadsBack(row.added);
    CountReadsBack(row.removed);
  }

  lemma RecordIsLines(r: Record, rest: string)
    requires WellFormed(r)
    ensures Lines(RecordText(r) + rest) == RecordLines(r) + Lines(rest)
  {
    var header, text := [RECORD] + HeaderFields(r), RowsText(r.rows);
    HeaderLine(r);
    JoinLeft(header + ['\n'], ['\n'] + text, rest);
    JoinLeft(['\n'], text, rest);
    LineFirst(header, ['\n'] + (text + rest));
    BlankLineFirst(text + rest);
    RowsAreLines(r.rows, rest);
    JoinLeft([[]], RowLines(r.rows), Lines(rest));
    JoinLeft([header], [[]] + RowLines(r.rows), Lines(rest));
  }

  lemma BlankLineFirst(rest: string)
    ensures Lines(['\n'] + rest) == [[]] + Lines(rest)
  {
    assert ['\n'] + rest == [] + ['\n'] + rest;
    LineFirst([], rest);
  }

  lemma {:induction false} LogIsLines(records: seq<Record>)
    requires forall i :: 0 <= i < |records| ==> WellFormed(records[i])
    ensures Lines(LogText(records)) == LogLines(records)
  {
    if records != [] {
      RecordIsLines(records[0], LogText(records[1..]));
      LogIsLines(records[1..]);
    }
  }

  lemma ScanFirst(scan: Scan, line: string, lines: seq<string>, allowed: set<string>)
    ensures ScanLines(scan, [line] + lines, allowed) == ScanLines(ScanLine(scan, line, allowed), lines, allowed)
  {
    assert ([line] + lines)[1..] == lines;
  }

  /** Rows after a kept header add up; after a filtered one they vanish. */
  lemma {:induction false} RowsReadBack(r: Record, before: seq<Row>, rows: seq<Row>, scan: Scan, allowed: set<string>)
    requires forall i :: 0 <= i < |rows| ==> RowOk(rows[i])
    requires scan.current.Some? ==> scan.current == Some(CommitOf(r.(rows := before)))
    ensures ScanLines(scan, RowLines(rows), allowed)
            == scan.(current := if scan.current.None? then None else Some(CommitOf(r.(rows := before + rows))))
    decreases |rows|
  {
    if rows == [] {
      assert before + rows == before;
    } else {
      var row := rows[0];
      var line := StripCr(RowLine(row));
      ScanFirst(scan, line, RowLines(rows[1..]), allowed);
      RowStep(r, before, row, scan, allowed);
      assert (before + [row]) + rows[1..] == before + rows;
      RowsReadBack(r, before + [row], rows[1..], ScanLine(scan, line, allowed), allowed);
    }
  }

  lemma StrippedRow(row: Row)
    requires RowOk(row)
    ensures exists path :: StripCr(RowLine(row)) == RowLine(row.(path := path))
  {
    var line := RowLine(row);
    if row.path != [] && row.path[|row.path| - 1] == '\r' {
      var path := row.path[..|row.path| - 1];
      assert StripCr(line) == RowLine(row.(path := path));
    } else {
      assert line[|line| - 1] != '\r';
      assert StripCr(line) == RowLine(row.(path := row.path));
    }
  }

  lemma AddRowTotals(r: Record, before: seq<Row>, row: Row)
    ensures AddRow(CommitOf(r.(rows := before)), Amount(row.added), Amount(row.removed))
            == CommitOf(r.(rows := before + [row]))
  {
    TotalsAppend(before, row);
    WrapIsModular(TotalAdded(before), Amount(row.added));
    WrapIsModular(TotalRemoved(before), Amount(row.removed));
    WrapIsModular(|before|, 1);
  }

  lemma RowStep(r: Record, before: seq<Row>, row: Row, scan: Scan, allowed: set<string>)
    requires RowOk(row)
    requires scan.current.Some? ==> scan.current == Some(CommitOf(r.(rows := before)))
    ensures ScanLine(scan, StripCr(RowLine(row)), allowed)
            == scan.(current := if scan.current.None? then None else Some(CommitOf(r.(rows := before + [row]))))
  {
    StrippedRow(row);
    var path :| StripCr(RowLine(row)) == RowLine(row.(path := path));
    RowReadsBack(row, path);
    AddRowTotals(r, before, row);
  }

  lemma HeaderLine(r: Record)
    requires WellFormed(r)
    ensures '\n' !in [RECORD] + HeaderFields(r)
    ensures StripCr([RECORD] + HeaderFields(r)) == [RECORD] + HeaderFields(r)
  {
    var line := [RECORD] + HeaderFields(r);
    assert line[|line| - 1] == r.committedAt[|r.committedAt| - 1];
    TrimmedEnd(r.committedAt);
  }

  /** A trimmed text does not end in white space. */
  lemma TrimmedEnd(s: string)
    requires |s| > 0 && Trim(s) == s
    ensures !IsSpace(s[|s| - 1])
  {
    TrimEndShrinks(TrimStart(s));
    TrimStartShrinks(s);
    TrimEndShrinks(s[..|s| - 1]);
  }

  lemma {:induction false} TrimEndShrinks(s: string)
    ensures |TrimEnd(s)| <= |s|
    decreases |s|
  {
    if s != [] && IsSpace(s[|s| - 1]) {
      TrimEndShrinks(s[..|s| - 1]);
    }
  }

  lemma {:induction false} TrimStartShrinks(s: string)
    ensures |TrimStart(s)| <= |s| && (|TrimStart(s)| == |s| ==> TrimStart(s) == s)
  {
    if s != [] && IsSpace(s[0]) {
      TrimStartShrinks(s[1..]);
    }
  }

  function AfterRecord(scan: Scan, r: Record, allowed: set<string>): Scan {
    Scan(Finished(scan), if Lower(r.email) in allowed then Some(CommitOf(r)) else None)
  }

  lemma HeaderOpens(scan: Scan, r: Record, allowed: set<string>)
    requires WellFormed(r)
    ensures ScanLine(scan, [RECORD] + HeaderFields(r), allowed) == AfterRecord(scan, r.(rows := []), allowed)
  {
    HeaderReadsBack(r, allowed);
    assert ([RECORD] + HeaderFields(r))[1..] == HeaderFields(r);
  }

  lemma BlankLineIsSkipped(scan: Scan, allowed: set<string>)
    ensures ScanLine(scan, [], allowed) == scan
  {
  }

  /** One record, whatever was scanned before it. */
  lemma RecordReadsBack(scan: Scan, r: Record, allowed: set<string>)
    requires WellFormed(r)
    ensures ScanLines(scan, RecordLines(r), allowed) == AfterRecord(scan, r, allowed)
  {
    var atHeader := AfterRecord(scan, r.(rows := []), allowed);
    HeaderOpens(scan, r, allowed);
    ScanFirst(scan, [RECORD] + HeaderFields(r), [[]] + RowLines(r.rows), allowed);
    BlankLineIsSkipped(atHeader, allowed);
    ScanFirst(atHeader, [], RowLines(r.rows), allowed);
    assert [] + r.rows == r.rows;
    RowsReadBack(r, [], r.rows, atHeader, allowed);
  }

  lemma {:induction false} RecordsReadBack(scan: Scan, records: seq<Record>, allowed: set<string>)
    requires forall i :: 0 <= i < |records| ==> WellFormed(records[i])
    ensures Finished(ScanLines(scan, LogLines(records), allowed)) == Finished(scan) + AllowedCommits(records, allowed)
    decreases |records|
  {
    if records != [] {
      var r, tail := records[0], records[1..];
      ScanLinesConcat(scan, RecordLines(r), LogLines(tail), allowed);
      RecordReadsBack(scan, r, allowed);
      var next := AfterRecord(scan, r, allowed);
      RecordsReadBack(next, tail, allowed);
      var mine := if Lower(r.email) in allowed then [CommitOf(r)] else [];
      assert Finished(next) == Finished(scan) + mine;
      JoinLeft(Finished(scan), mine, AllowedCommits(tail, allowed));
    }
  }

  /** Parsing what git wrote gives back the allowed authors' commits, first per SHA, with their totals. */
  lemma ParsingReadsBackTheLog(records: seq<Record>, allowed: set<string>)
    requires forall i :: 0 <= i < |records| ==> WellFormed(records[i])
    ensures Parsed(LogText(records), allowed) == FirstPerSha(AllowedCommits(records, allowed))
  {
    LogIsLines(records);
    RecordsReadBack(START, records, allowed);
    assert Finished(START) + AllowedCommits(records, allowed) == AllowedCommits(records, allowed);
  }
}
