/** The parser for `git log --numstat` output. */
module GitLog {
  import opened Options
  import opened Decimal

  const RECORD: char := '\U{1E}'
  const NUL: char := '\0'

  // ---------- Text ----------

  /** Unicode white space, which `trim` removes. */
  predicate IsSpace(c: char) {
    var n := c as int;
    || 0x9 <= n <= 0xD || n == 0x20 || n == 0x85 || n == 0xA0 || n == 0x1680 || 0x2000 <= n <= 0x200A
    || n == 0x2028 || n == 0x2029 || n == 0x202F || n == 0x205F || n == 0x3000
  }

  function TrimStart(s: string): string {
    if s != [] && IsSpace(s[0]) then TrimStart(s[1..]) else s
  }

  function TrimEnd(s: string): string {
    if s != [] && IsSpace(s[|s| - 1]) then TrimEnd(s[..|s| - 1]) else s
  }

  function Trim(s: string): string {
    TrimEnd(TrimStart(s))
  }

  /** Where `c` first occurs, or the length. */
  function Find(s: string, c: char): (i: nat)
    ensures i <= |s| && c !in s[..i]
    ensures i < |s| ==> s[i] == c
  {
    if |s| == 0 then 0 else if s[0] == c then 0 else
      var i := 1 + Find(s[1..], c);
      assert s[..i] == [s[0]] + s[1..][..i - 1];
      i
  }

  function Split(s: string, c: char): (parts: seq<string>)
    ensures parts != []
    decreases |s|
  {
    var i := Find(s, c);
    if i == |s| then [s] else [s[..i]] + Split(s[i + 1..], c)
  }

  function StripCr(line: string): string {
    if line != [] && line[|line| - 1] == '\r' then line[..|line| - 1] else line
  }

  /** `str::lines`: a carriage return goes with its newline; an unterminated last line keeps it. */
  function Lines(s: string): seq<string>
    decreases |s|
  {
    if |s| == 0 then []
    else
      var i := Find(s, '\n');
      if i == |s| then [s] else [StripCr(s[..i])] + Lines(s[i + 1..])
  }

  function Lower(s: string): (t: string)
    ensures |t| == |s|
  {
    seq(|s|, i requires 0 <= i < |s| => if 'A' <= s[i] <= 'Z' then (s[i] as int + 32) as char else s[i])
  }

  // ---------- 64-bit counts ----------

  const I64_MAX: int := 0x7FFF_FFFF_FFFF_FFFF
  const TWO_64: int := 0x1_0000_0000_0000_0000

  /** What an `i64` sum is in a release build. */
  function Wrap(n: int): int {
    (n + I64_MAX + 1) % TWO_64 - I64_MAX - 1
  }

  lemma WrapIsModular(x: int, y: int)
    ensures Wrap(Wrap(x) + y) == Wrap(x + y)
    ensures -I64_MAX - 1 <= x <= I64_MAX ==> Wrap(x) == x
    ensures -0x8000_0000_0000_0000 <= Wrap(x) < 0x8000_0000_0000_0000
  {
    var q := (x + I64_MAX + 1) / TWO_64;
    assert Wrap(x) == x - q * TWO_64;
    ShiftedRemainder(x + y + I64_MAX + 1, q);
  }

  lemma ShiftedRemainder(a: int, q: int)
    ensures (a - q * TWO_64) % TWO_64 == a % TWO_64
  {
    var b := a - q * TWO_64;
    assert a == (b / TWO_64 + q) * TWO_64 + b % TWO_64;
  }

  /** `str::parse::<i64>`: an optional sign, digits, in range. */
  function ParseI64(s: string): Option<int> {
    var signed := s != [] && (s[0] == '+' || s[0] == '-');
    var digits := if signed then s[1..] else s;
    if digits == [] || !AllDigits(digits) then None
    else
      var magnitude: int := ValueOf(digits);
      var n := if signed && s[0] == '-' then -magnitude else magnitude;
      if -I64_MAX - 1 <= n <= I64_MAX then Some(n) else None
  }

  // ---------- The parser ----------

  datatype Commit = Commit(sha: string, email: string, authorAt: string, committedAt: string,
                           added: int, removed: int, files: int)

  function ParseCount(value: string): Option<int> {
    if value == "-" then Some(0) else ParseI64(value)
  }

  /** `<added>\t<removed>\t<path>`; the path may hold tabs. */
  function ParseNumstat(line: string): Option<(int, int)> {
    if Trim(line) == [] then None
    else
      var i := Find(line, '\t');
      if i == |line| then None
      else
        var rest := line[i + 1..];
        var j := Find(rest, '\t');
        if j == |rest| then None
        else
          match (ParseCount(line[..i]), ParseCount(rest[..j]))
          case (Some(added), Some(removed)) => Some((added, removed))
          case _ => None
  }

  function ParseHeader(header: string, allowed: set<string>): Option<Commit> {
    var fields := Split(header, NUL);
    if |fields| < 4 then None
    else
      var sha, email, at, committed := Trim(fields[0]), Trim(fields[1]), Trim(fields[2]), Trim(fields[3]);
      if sha == [] || email == [] || committed == [] || Lower(email) !in allowed then None
      else Some(Commit(sha, email, at, committed, 0, 0, 0))
  }

  function AddRow(c: Commit, added: int, removed: int): Commit {
    c.(added := Wrap(c.added + added), removed := Wrap(c.removed + removed), files := Wrap(c.files + 1))
  }

  /** The scan before deduplication: finished commits and the one still taking rows. */
  datatype Scan = Scan(finished: seq<Commit>, current: Option<Commit>)

  const START := Scan([], None)

  function Finished(scan: Scan): seq<Commit> {
    if scan.current.Some? then scan.finished + [scan.current.value] else scan.finished
  }

  predicate IsHeader(line: string) {
    line != [] && line[0] == RECORD
  }

  function ScanLine(scan: Scan, line: string, allowed: set<string>): Scan {
    if IsHeader(line) then Scan(Finished(scan), ParseHeader(line[1..], allowed))
    else if scan.current.None? then scan
    else
      match ParseNumstat(line)
      case Some((added, removed)) => scan.(current := Some(AddRow(scan.current.value, added, removed)))
      case None => scan
  }

  function ScanLines(scan: Scan, lines: seq<string>, allowed: set<string>): Scan
    decreases |lines|
  {
    if |lines| == 0 then scan else ScanLines(ScanLine(scan, lines[0], allowed), lines[1..], allowed)
  }

  function Shas(commits: seq<Commit>): set<string> {
    set c | c in commits :: c.sha
  }

  /** The first commit of each SHA. */
  function FirstPerSha(commits: seq<Commit>): seq<Commit> {
    if |commits| == 0 then []
    else
      var kept, last := FirstPerSha(commits[..|commits| - 1]), commits[|commits| - 1];
      if last.sha in Shas(kept) then kept else kept + [last]
  }

  function Parsed(stdout: string, allowed: set<string>): seq<Commit> {
    FirstPerSha(Finished(ScanLines(START, Lines(stdout), allowed)))
  }

  /** `parse_log`: one pass over the lines, keeping the SHAs already pushed. */
  method ParseLog(stdout: string, allowed: set<string>) returns (commits: seq<Commit>)
    ensures commits == Parsed(stdout, allowed)
  {
    commits := [];
    var seen: set<string> := {};
    var current: Option<Commit> := None;
    var lines := Lines(stdout);
    ghost var scan := START;
    for i := 0 to |lines|
      invariant ScanLines(START, lines, allowed) == ScanLines(scan, lines[i..], allowed)
      invariant commits == FirstPerSha(scan.finished) && current == scan.current && seen == Shas(commits)
    {
      var line := lines[i];
      ghost var before := scan;
      scan := ScanLine(before, line, allowed);
      assert ScanLines(before, lines[i..], allowed) == ScanLines(scan, lines[i + 1..], allowed);
      if IsHeader(line) {
        if current.Some? {
          commits, seen := Push(commits, seen, current.value, before.finished);
        }
        current := ParseHeader(line[1..], allowed);
      } else if current.Some? {
        var row := ParseNumstat(line);
        if row.Some? {
          current := Some(AddRow(current.value, row.value.0, row.value.1));
        }
      }
    }
    if current.Some? {
      commits, seen := Push(commits, seen, current.value, scan.finished);
    }
  }

  /** Keeps a commit unless its SHA was seen; `pushed` are all the commits pushed before it. */
  method Push(commits: seq<Commit>, seen: set<string>, commit: Commit, ghost pushed: seq<Commit>)
    returns (more: seq<Commit>, seenNow: set<string>)
    requires seen == Shas(commits) && commits == FirstPerSha(pushed)
    ensures seenNow == Shas(more) && more == FirstPerSha(pushed + [commit])
  {
    more, seenNow := commits, seen + {commit.sha};
    if commit.sha !in seen {
      more := commits + [commit];
    }
    ShasAppend(commits, commit);
    assert (pushed + [commit])[..|pushed|] == pushed;
  }

  lemma ShasAppend(commits: seq<Commit>, c: Commit)
    ensures Shas(commits + [c]) == Shas(commits) + {c.sha}
  {
    assert forall x :: x in commits + [c] <==> x in commits || x == c;
  }
}
