/** Maintenance of the line files: reports on valid and invalid lines, repair, and compaction with
    keep-last deduplication and retention. */
module Doctor {
  import opened Sequences
  import opened Ledger

  datatype Artifact = Semantic | Episodic | Approvals | Rules | Tasks | Executions

  /** A validated row; a field it lacks is "". */
  datatype Row = Row(id: string, taskId: string, ts: Option<int>, content: Content)

  datatype Content = Text(text: string) | Execution(record: Record)

  datatype Line = Blank | Undecodable | Mismatched | Valid(row: Row)

  predicate Invalid(l: Line) {
    l.Undecodable? || l.Mismatched?
  }

  // ---------------------------------------------------------------- reports

  function ValidRows(lines: seq<Line>): seq<Row> {
    if lines == [] then []
    else
      var before, last := ValidRows(lines[..|lines| - 1]), lines[|lines| - 1];
      if last.Valid? then before + [last.row] else before
  }

  /** The numbers, from 1, of the invalid lines. */
  function InvalidLines(lines: seq<Line>): (numbers: seq<nat>)
    ensures forall n :: n in numbers ==> 1 <= n <= |lines|
  {
    if lines == [] then []
    else InvalidLines(lines[..|lines| - 1]) + (if Invalid(lines[|lines| - 1]) then [|lines|] else [])
  }

  function Newest(rows: seq<Row>): Option<int> {
    if rows == [] then None
    else
      var before, ts := Newest(rows[..|rows| - 1]), rows[|rows| - 1].ts;
      if ts.Some? && (before.None? || ts.value > before.value) then ts else before
  }

  datatype Note = FileMissing | BadLine(number: nat) | Rewritten

  datatype Report = Report(present: bool, records: nat, valid: nat, invalid: nat, last: Option<int>, notes: seq<Note>)

  function Complaints(numbers: seq<nat>): seq<Note> {
    seq(if |numbers| <= 3 then |numbers| else 3, i requires 0 <= i < |numbers| => BadLine(numbers[i]))
  }

  function ReportOf(file: Option<seq<Line>>): Report {
    match file
    case None => Report(false, 0, 0, 0, None, [FileMissing])
    case Some(lines) =>
      var rows, bad := ValidRows(lines), InvalidLines(lines);
      Report(true, |rows| + |bad|, |rows|, |bad|, Newest(rows), Complaints(bad))
  }

  /** A line is invalid exactly when its number is listed; so no invalid line, no number. */
  lemma {:induction false} InvalidLinesAreListed(lines: seq<Line>, i: nat)
    requires i < |lines|
    ensures i + 1 in InvalidLines(lines) <==> Invalid(lines[i])
  {
    var front := lines[..|lines| - 1];
    if i < |front| {
      InvalidLinesAreListed(front, i);
    }
  }

  /** One more line, seen by each part of the report. */
  lemma OneMoreLine(lines: seq<Line>, i: nat)
    requires i < |lines|
    ensures ValidRows(lines[..i + 1]) == ValidRows(lines[..i]) + (if lines[i].Valid? then [lines[i].row] else [])
    ensures InvalidLines(lines[..i + 1]) == InvalidLines(lines[..i]) + (if Invalid(lines[i]) then [i + 1] else [])
  {
    assert lines[..i + 1][..i] == lines[..i];
  }

  lemma NewestOfMore(rows: seq<Row>, row: Row)
    ensures var before := Newest(rows);
      Newest(rows + [row]) == if row.ts.Some? && (before.None? || row.ts.value > before.value) then row.ts else before
  {
    assert (rows + [row])[..|rows|] == rows;
  }

  lemma OneMoreComplaint(numbers: seq<nat>, n: nat)
    ensures Complaints(numbers + [n]) == if |numbers| < 3 then Complaints(numbers) + [BadLine(n)] else Complaints(numbers)
  {
  }

  method JsonlReport(file: Option<seq<Line>>) returns (report: Report, rows: seq<Row>)
    ensures report == ReportOf(file)
    ensures rows == if file.None? then [] else ValidRows(file.value)
  {
    rows := [];
    if file.None? {
      return Report(false, 0, 0, 0, None, [FileMissing]), rows;
    }
    var lines := file.value;
    var records, valid, invalid := 0, 0, 0;
    var last: Option<int>, notes: seq<Note> := None, [];
    for i := 0 to |lines|
      invariant rows == ValidRows(lines[..i])
      invariant records == valid + invalid && valid == |rows| && invalid == |InvalidLines(lines[..i])|
      invariant last == Newest(rows)
      invariant notes == Complaints(InvalidLines(lines[..i]))
    {
      OneMoreLine(lines, i);
      if lines[i].Blank? { continue; }
      records := records + 1;
      if Invalid(lines[i]) {
        invalid := invalid + 1;
        OneMoreComplaint(InvalidLines(lines[..i]), i + 1);
        if |notes| < 3 { notes := notes + [BadLine(i + 1)]; }
        continue;
      }
      var row := lines[i].row;
      valid := valid + 1;
      NewestOfMore(rows, row);
      if row.ts.Some? && (last.None? || row.ts.value > last.value) { last := row.ts; }
      rows := rows + [row];
    }
    assert lines[..|lines|] == lines;
    report := Report(true, records, valid, invalid, last, notes);
  }

  // ---------------------------------------------------------------- retention

  /** The value of the retention variable. */
  datatype Setting = Unset | NotANumber | Number(value: int)

  function RetentionDefault(a: Artifact): Option<nat> {
    match a
    case Episodic => Some(5000)
    case Tasks => Some(500)
    case Executions => Some(5000)
    case _ => None
  }

  /** A positive number is a limit; zero or less lifts it; anything else is the default. */
  function RetentionMax(a: Artifact, s: Setting): (limit: Option<nat>)
    ensures limit.Some? ==> limit.value > 0
  {
    if RetentionDefault(a).None? then None
    else if s.Number? then (if s.value > 0 then Some(s.value) else None)
    else RetentionDefault(a)
  }

  // ---------------------------------------------------------------- compaction

  function RowId(row: Row): string {
    if row.id != "" then row.id else row.taskId
  }

  predicate Deduplicates(a: Artifact) {
    a.Episodic? || a.Tasks?
  }

  predicate Mentions(rows: seq<Row>, id: string) {
    exists i :: 0 <= i < |rows| && RowId(rows[i]) == id
  }

  /** The rows that no later row supersedes. */
  function KeepLast(rows: seq<Row>): seq<Row> {
    if rows == [] then []
    else if RowId(rows[0]) != "" && Mentions(rows[1..], RowId(rows[0])) then KeepLast(rows[1..])
    else [rows[0]] + KeepLast(rows[1..])
  }

  function Retain<T>(rows: seq<T>, limit: Option<nat>): seq<T> {
    if limit.Some? then LastN(rows, limit.value) else rows
  }

  function Compact(a: Artifact, s: Setting, rows: seq<Row>): seq<Row> {
    Retain(if Deduplicates(a) then KeepLast(rows) else rows, RetentionMax(a, s))
  }

  function Reversed<T>(s: seq<T>): (r: seq<T>)
    ensures |r| == |s|
  {
    if s == [] then [] else Reversed(s[1..]) + [s[0]]
  }

  lemma ReversedTwice<T>(s: seq<T>)
    ensures Reversed(Reversed(s)) == s
  {
    if s != [] {
      ReversedTwice(s[1..]);
      ReversedAppend(Reversed(s[1..]), s[0]);
    }
  }

  lemma {:induction false} ReversedAppend<T>(s: seq<T>, x: T)
    ensures Reversed(s + [x]) == [x] + Reversed(s)
  {
    if s == [] {
      assert s + [x] == [x];
    } else {
      ReversedAppend(s[1..], x);
      assert (s + [x])[1..] == s[1..] + [x];
    }
  }

  ghost predicate HoldsIds(seen: set<string>, rows: seq<Row>) {
    forall id :: id in seen <==> id != "" && Mentions(rows, id)
  }

  /** What one more row, further to the front, does to the ids seen and the rows kept. */
  lemma OneRowFurther(seen: set<string>, deduped: seq<Row>, row: Row, rest: seq<Row>)
    requires HoldsIds(seen, rest) && deduped == Reversed(KeepLast(rest))
    ensures RowId(row) != "" && RowId(row) in seen ==> HoldsIds(seen, [row] + rest)
    ensures RowId(row) != "" && RowId(row) !in seen ==> HoldsIds(seen + {RowId(row)}, [row] + rest)
    ensures RowId(row) == "" ==> HoldsIds(seen, [row] + rest)
    ensures Reversed(KeepLast([row] + rest)) == if RowId(row) != "" && RowId(row) in seen then deduped else deduped + [row]
  {
    MentionsMore(row, rest);
    var more := [row] + KeepLast(rest);
    assert more[1..] == KeepLast(rest);
  }

  /** Walks the rows backwards with the set of ids seen so far. */
  method KeepLastRows(rows: seq<Row>) returns (kept: seq<Row>)
    ensures kept == KeepLast(rows)
  {
    var seen: set<string> := {};
    var deduped: seq<Row> := [];
    for i := |rows| downto 0
      invariant HoldsIds(seen, rows[i..])
      invariant deduped == Reversed(KeepLast(rows[i..]))
    {
      var row := rows[i];
      OneRowFurther(seen, deduped, row, rows[i + 1..]);
      assert rows[i..] == [row] + rows[i + 1..];
      var id := RowId(row);
      if id != "" && id in seen { continue; }
      if id != "" { seen := seen + {id}; }
      deduped := deduped + [row];
    }
    assert rows[0..] == rows;
    ReversedTwice(KeepLast(rows));
    kept := Reversed(deduped);
  }

  method CompactRows(a: Artifact, s: Setting, rows: seq<Row>) returns (compacted: seq<Row>)
    ensures compacted == Compact(a, s, rows)
  {
    var retention := RetentionMax(a, s);
    compacted := rows;
    if a == Episodic || a == Tasks {
      compacted := KeepLastRows(rows);
    }
    if retention.Some? && |compacted| > retention.value {
      compacted := compacted[|compacted| - retention.value..];
    }
  }

  lemma MentionsMore(row: Row, rest: seq<Row>)
    ensures ([row] + rest)[1..] == rest
    ensures forall id :: Mentions([row] + rest, id) <==> RowId(row) == id || Mentions(rest, id)
  {
    var more := [row] + rest;
    assert more[0] == row;
    forall id | Mentions(rest, id) ensures Mentions(more, id) {
      var i :| 0 <= i < |rest| && RowId(rest[i]) == id;
      assert more[i + 1] == rest[i];
    }
    forall id | Mentions(more, id) && RowId(row) != id ensures Mentions(rest, id) {
      var i :| 0 <= i < |more| && RowId(more[i]) == id;
      assert more[i] == rest[i - 1];
    }
  }

  // ---------------------------------------------------------------- what compaction keeps

  lemma {:induction false} KeepLastIsSubsequence(rows: seq<Row>)
    ensures Subsequence(KeepLast(rows), rows)
  {
    if rows != [] { KeepLastIsSubsequence(rows[1..]); }
  }

  /** Main result: a compacted file is an order-preserving part of the original, within the limit. */
  lemma CompactIsSubsequenceWithinLimit(a: Artifact, s: Setting, rows: seq<Row>)
    ensures Subsequence(Compact(a, s, rows), rows)
    ensures RetentionMax(a, s).Some? ==> |Compact(a, s, rows)| <= RetentionMax(a, s).value
  {
    KeepLastIsSubsequence(rows);
    SubsequenceOfSelf(rows);
    var kept := if Deduplicates(a) then KeepLast(rows) else rows;
    SuffixOfSubsequence(kept, rows, |kept| - |Compact(a, s, rows)|);
  }

  /** The last row with this id. */
  function LastRow(rows: seq<Row>, id: string): Option<Row> {
    if rows == [] then None
    else if RowId(rows[|rows| - 1]) == id then Some(rows[|rows| - 1])
    else LastRow(rows[..|rows| - 1], id)
  }

  lemma {:induction false} LastRowFromFront(rows: seq<Row>, id: string)
    requires rows != []
    ensures LastRow(rows, id)
         == if LastRow(rows[1..], id).Some? then LastRow(rows[1..], id) else if RowId(rows[0]) == id then Some(rows[0]) else None
  {
    if |rows| > 1 {
      LastRowFromFront(rows[..|rows| - 1], id);
      assert rows[..|rows| - 1][1..] == rows[1..][..|rows| - 2];
    }
  }

  lemma {:induction false} MentionedHasLastRow(rows: seq<Row>, id: string)
    ensures LastRow(rows, id).Some? <==> Mentions(rows, id)
  {
    if rows != [] {
      MentionedHasLastRow(rows[..|rows| - 1], id);
      if Mentions(rows, id) && RowId(rows[|rows| - 1]) != id {
        var i :| 0 <= i < |rows| && RowId(rows[i]) == id;
        assert rows[..|rows| - 1][i] == rows[i];
      }
    }
  }

  /** Ids that a row carries are carried once only. */
  ghost predicate DistinctIds(rows: seq<Row>) {
    forall i, j :: 0 <= i < j < |rows| && RowId(rows[i]) != "" ==> RowId(rows[i]) != RowId(rows[j])
  }

  lemma {:induction false} KeepLastKeepsLastRows(rows: seq<Row>, id: string)
    requires id != ""
    ensures LastRow(KeepLast(rows), id) == LastRow(rows, id)
  {
    if rows != [] {
      KeepLastKeepsLastRows(rows[1..], id);
      LastRowFromFront(rows, id);
      MentionedHasLastRow(rows[1..], id);
      var kept := [rows[0]] + KeepLast(rows[1..]);
      LastRowFromFront(kept, id);
      assert kept[1..] == KeepLast(rows[1..]);
    }
  }

  lemma {:induction false} KeepLastMentionsNoMore(rows: seq<Row>, id: string)
    requires Mentions(KeepLast(rows), id)
    ensures Mentions(rows, id)
  {
    if rows != [] {
      var rest := rows[1..];
      assert rows == [rows[0]] + rest;
      MentionsMore(rows[0], rest);
      MentionsMore(rows[0], KeepLast(rest));
      if Mentions(KeepLast(rest), id) {
        KeepLastMentionsNoMore(rest, id);
      }
    }
  }

  lemma {:induction false} KeepLastHasDistinctIds(rows: seq<Row>)
    ensures DistinctIds(KeepLast(rows))
  {
    if rows != [] {
      KeepLastHasDistinctIds(rows[1..]);
      var kept := KeepLast(rows);
      if kept != KeepLast(rows[1..]) {
        forall j | 0 < j < |kept| && RowId(kept[0]) != "" ensures RowId(kept[j]) != RowId(kept[0]) {
          assert RowId(KeepLast(rows[1..])[j - 1]) == RowId(kept[j]);
          if RowId(kept[j]) == RowId(kept[0]) {
            KeepLastMentionsNoMore(rows[1..], RowId(kept[0]));
          }
        }
      }
    }
  }

  /** The rows without an id. */
  function Anonymous(rows: seq<Row>): seq<Row> {
    if rows == [] then []
    else (if RowId(rows[0]) == "" then [rows[0]] else []) + Anonymous(rows[1..])
  }

  lemma {:induction false} KeepLastKeepsAnonymous(rows: seq<Row>)
    ensures Anonymous(KeepLast(rows)) == Anonymous(rows)
  {
    if rows != [] {
      KeepLastKeepsAnonymous(rows[1..]);
      var kept := [rows[0]] + KeepLast(rows[1..]);
      assert kept[1..] == KeepLast(rows[1..]);
    }
  }

  lemma {:induction false} SuffixKeepsLastRow(rows: seq<Row>, id: string, k: nat)
    requires k <= |rows|
    ensures LastRow(rows[k..], id).Some? ==> LastRow(rows[k..], id) == LastRow(rows, id)
  {
    if k > 0 {
      LastRowFromFront(rows, id);
      SuffixKeepsLastRow(rows[1..], id, k - 1);
      assert rows[1..][k - 1..] == rows[k..];
    } else {
      assert rows[0..] == rows;
    }
  }

  /** Main result: in the episodic and task files every id that survives compaction has exactly one
      row left, and it is the last row the id had. */
  lemma CompactKeepsExactlyLastRows(a: Artifact, s: Setting, rows: seq<Row>, id: string)
    requires Deduplicates(a) && id != ""
    ensures DistinctIds(Compact(a, s, rows))
    ensures Mentions(Compact(a, s, rows), id) ==> LastRow(Compact(a, s, rows), id) == LastRow(rows, id)
  {
    var k := |KeepLast(rows)| - |Compact(a, s, rows)|;
    assert Compact(a, s, rows) == KeepLast(rows)[k..];
    SuffixOfKeptRows(rows, id, k);
  }

  lemma SuffixOfKeptRows(rows: seq<Row>, id: string, k: nat)
    requires id != "" && k <= |KeepLast(rows)|
    ensures var part := KeepLast(rows)[k..];
      DistinctIds(part) && (Mentions(part, id) ==> LastRow(part, id) == LastRow(rows, id))
  {
    KeepLastHasDistinctIds(rows);
    SuffixIsDistinct(KeepLast(rows), k);
    KeepLastKeepsLastRows(rows, id);
    SuffixKeepsLastRow(KeepLast(rows), id, k);
    MentionedHasLastRow(KeepLast(rows)[k..], id);
  }

  /** While the limit is not reached every id survives, and so does every row without an id. */
  lemma CompactLosesNoIdWithinLimit(a: Artifact, s: Setting, rows: seq<Row>, id: string)
    requires Deduplicates(a) && id != ""
    requires RetentionMax(a, s).None? || |KeepLast(rows)| <= RetentionMax(a, s).value
    ensures LastRow(Compact(a, s, rows), id) == LastRow(rows, id)
    ensures Anonymous(Compact(a, s, rows)) == Anonymous(rows)
  {
    KeepLastKeepsLastRows(rows, id);
    KeepLastKeepsAnonymous(rows);
  }

  lemma SuffixIsDistinct(rows: seq<Row>, k: nat)
    requires k <= |rows| && DistinctIds(rows)
    ensures DistinctIds(rows[k..])
  {
    assert forall i :: 0 <= i < |rows[k..]| ==> rows[k..][i] == rows[k + i];
  }

  // ---------------------------------------------------------------- fixpoint

  lemma {:induction false} DistinctIsKept(rows: seq<Row>)
    requires DistinctIds(rows)
    ensures KeepLast(rows) == rows
  {
    if rows != [] {
      SuffixIsDistinct(rows, 1);
      DistinctIsKept(rows[1..]);
      assert rows == [rows[0]] + rows[1..];
    }
  }

  lemma CompactIsIdempotent(a: Artifact, s: Setting, rows: seq<Row>)
    ensures Compact(a, s, Compact(a, s, rows)) == Compact(a, s, rows)
  {
    if Deduplicates(a) {
      var kept, compacted := KeepLast(rows), Compact(a, s, rows);
      KeepLastHasDistinctIds(rows);
      SuffixIsDistinct(kept, |kept| - |compacted|);
      assert compacted == kept[|kept| - |compacted|..];
      DistinctIsKept(compacted);
    }
  }

  function AsLines(rows: seq<Row>): (lines: seq<Line>)
    ensures |lines| == |rows| && forall i :: 0 <= i < |rows| ==> lines[i] == Valid(rows[i])
  {
    seq(|rows|, i requires 0 <= i < |rows| => Valid(rows[i]))
  }

  /** Writing rows and reading them back loses nothing. */
  lemma {:induction false} WrittenRowsReadBack(rows: seq<Row>)
    ensures ValidRows(AsLines(rows)) == rows && InvalidLines(AsLines(rows)) == []
  {
    if rows != [] {
      var front := rows[..|rows| - 1];
      WrittenRowsReadBack(front);
      assert AsLines(rows)[..|rows| - 1] == AsLines(front);
      assert rows == front + [rows[|rows| - 1]];
    }
  }

  datatype Treated = Treated(lines: seq<Line>, changed: bool)

  /** What one run leaves of a file. */
  function Treat(a: Artifact, s: Setting, repair: bool, compact: bool, lines: seq<Line>): Treated {
    var rows := ValidRows(lines);
    var repaired := repair && InvalidLines(lines) != [];
    var compacted := compact && Compact(a, s, rows) != rows;
    Treated(if compacted then AsLines(Compact(a, s, rows)) else if repaired then AsLines(rows) else lines,
            repaired || compacted)
  }

  /** The valid rows after a run: all of them, or the compacted ones. Repair alone loses none. */
  lemma TreatedRows(a: Artifact, s: Setting, repair: bool, compact: bool, lines: seq<Line>)
    ensures var after := Treat(a, s, repair, compact, lines).lines;
      && ValidRows(after) == (if compact then Compact(a, s, ValidRows(lines)) else ValidRows(lines))
      && (InvalidLines(after) == [] || (!repair && after == lines))
  {
    WrittenRowsReadBack(ValidRows(lines));
    WrittenRowsReadBack(Compact(a, s, ValidRows(lines)));
  }

  /** Main result: running the doctor again with the same flags and limits rewrites nothing. */
  lemma RerunRewritesNothing(a: Artifact, s: Setting, repair: bool, compact: bool, lines: seq<Line>)
    ensures var once := Treat(a, s, repair, compact, lines).lines;
      Treat(a, s, repair, compact, once) == Treated(once, false)
  {
    TreatedRows(a, s, repair, compact, lines);
    CompactIsIdempotent(a, s, ValidRows(lines));
  }

  // ---------------------------------------------------------------- the whole run

  datatype Known = LineFile(a: Artifact) | SnapshotFile(name: string)

  /** The line files by artifact, and whether each snapshot file is readable; absent means missing. */
  datatype Directory = Directory(files: map<Artifact, seq<Line>>, snapshots: map<string, bool>)

  function FileOf(files: map<Artifact, seq<Line>>, a: Artifact): Option<seq<Line>> {
    if a in files then Some(files[a]) else None
  }

  function SnapshotReport(snapshots: map<string, bool>, name: string): Report {
    if name !in snapshots then Report(false, 0, 0, 0, None, [FileMissing])
    else if snapshots[name] then Report(true, 0, 1, 0, None, [])
    else Report(true, 0, 0, 1, None, [BadLine(1)])
  }

  /** The report on one artifact at the end of a run. */
  function FinalReport(d: Directory, settings: map<Artifact, Setting>, repair: bool, compact: bool, k: Known): Report {
    match k
    case SnapshotFile(name) => SnapshotReport(d.snapshots, name)
    case LineFile(a) =>
      if a !in d.files then ReportOf(None)
      else Final(Treat(a, SettingOf(settings, a), repair, compact, d.files[a]))
  }

  function Final(t: Treated): Report {
    var report := ReportOf(Some(t.lines));
    if t.changed then report.(notes := report.notes + [Rewritten]) else report
  }

  function SettingOf(settings: map<Artifact, Setting>, a: Artifact): Setting {
    if a in settings then settings[a] else Unset
  }

  /** Each file treated on its own. */
  function Maintained(d: Directory, settings: map<Artifact, Setting>, repair: bool, compact: bool): Directory {
    d.(files := map a | a in d.files :: Treat(a, SettingOf(settings, a), repair, compact, d.files[a]).lines)
  }

  class StateDirectory {
    var files: map<Artifact, seq<Line>>
    var snapshots: map<string, bool>

    ghost function AsDirectory(): Directory reads this {
      Directory(files, snapshots)
    }

    /** Rewrites the file without its invalid lines, then without its superseded and excess rows. */
    method RepairAndCompact(a: Artifact, s: Setting, repair: bool, compact: bool, rows: seq<Row>, invalid: nat)
      returns (changed: bool)
      requires a in files && rows == ValidRows(files[a]) && invalid == |InvalidLines(files[a])|
      modifies `files
      ensures files == old(files)[a := Treat(a, s, repair, compact, old(files)[a]).lines]
      ensures changed == Treat(a, s, repair, compact, old(files)[a]).changed
    {
      changed := false;
      assert files == files[a := files[a]];
      if repair && invalid > 0 {
        files := files[a := AsLines(rows)];
        changed := true;
      }
      if compact {
        var compacted := CompactRows(a, s, rows);
        if compacted != rows {
          files := files[a := AsLines(compacted)];
          changed := true;
        }
      }
    }

    /** Checks, repairs and compacts one line file. */
    method Tend(a: Artifact, s: Setting, repair: bool, compact: bool) returns (report: Report)
      modifies `files
      ensures a !in old(files) ==> files == old(files) && report == ReportOf(None)
      ensures a in old(files) ==>
        var t := Treat(a, s, repair, compact, old(files)[a]);
        files == old(files)[a := t.lines] && report == Final(t)
    {
      var rows;
      report, rows := JsonlReport(FileOf(files, a));
      if a in files {
        var changed := RepairAndCompact(a, s, repair, compact, rows, report.invalid);
        if changed {
          report, rows := JsonlReport(FileOf(files, a));
          report := report.(notes := report.notes + [Rewritten]);
        }
      }
    }

    /** One turn of the loop over the artifacts. */
    method TendKnown(k: Known, settings: map<Artifact, Setting>, repair: bool, compact: bool) returns (report: Report)
      modifies `files
      ensures report == FinalReport(old(AsDirectory()), settings, repair, compact, k)
      ensures files == Tended(old(files), settings, repair, compact, k)
    {
      match k
      case LineFile(a) => report := Tend(a, SettingOf(settings, a), repair, compact);
      case SnapshotFile(name) => report := SnapshotReport(snapshots, name);
    }

    method TendAll(known: seq<Known>, settings: map<Artifact, Setting>, repair: bool, compact: bool)
      returns (reports: seq<Report>)
      requires Distinct(known)
      modifies `files
      ensures files == TendedAll(old(files), settings, repair, compact, known, |known|)
      ensures |reports| == |known|
      ensures forall j :: 0 <= j < |known| ==>
        reports[j] == FinalReport(old(AsDirectory()), settings, repair, compact, known[j])
    {
      reports := [];
      ghost var d := AsDirectory();
      for i := 0 to |known|
        invariant files == TendedAll(d.files, settings, repair, compact, known, i) && |reports| == i
        invariant forall j :: 0 <= j < i ==> reports[j] == FinalReport(d, settings, repair, compact, known[j])
      {
        OthersUntouched(d, files, settings, repair, compact, known, i);
        var report := TendKnown(known[i], settings, repair, compact);
        reports := reports + [report];
      }
    }

    /** The run over every known artifact. It is healthy when no line file is left with invalid lines;
        the snapshots are not critical, but the summary counts them too. */
    method RunDoctor(settings: map<Artifact, Setting>, repair: bool, compact: bool)
      returns (known: seq<Known>, reports: seq<Report>, healthy: bool, summary: Summary)
      modifies `files
      ensures AsDirectory() == Maintained(old(AsDirectory()), settings, repair, compact)
      ensures |reports| == |known| && forall a: Artifact :: LineFile(a) in known
      ensures forall i :: 0 <= i < |known| ==>
        reports[i] == FinalReport(old(AsDirectory()), settings, repair, compact, known[i])
      ensures healthy <==> forall a :: a in files ==> InvalidLines(files[a]) == []
      ensures summary == Summary(|reports|, Missing(reports), InvalidTotal(reports))
    {
      ghost var d := AsDirectory();
      known := KnownArtifacts();
      reports := TendAll(known, settings, repair, compact);
      EveryFileIsTended(d, settings, repair, compact, known);
      var criticalInvalid := CriticalInvalid(known, reports);
      HealthIsAboutFiles(d, settings, repair, compact, known, reports);
      healthy := criticalInvalid == 0;
      summary := Summarise(reports);
    }
  }

  datatype Summary = Summary(totalFiles: nat, missing: nat, invalidLines: nat)

  function Missing(reports: seq<Report>): nat {
    if reports == [] then 0
    else Missing(reports[..|reports| - 1]) + (if reports[|reports| - 1].present then 0 else 1)
  }

  function InvalidTotal(reports: seq<Report>): nat {
    if reports == [] then 0 else InvalidTotal(reports[..|reports| - 1]) + reports[|reports| - 1].invalid
  }

  method Summarise(reports: seq<Report>) returns (summary: Summary)
    ensures summary == Summary(|reports|, Missing(reports), InvalidTotal(reports))
  {
    var missing, invalid := 0, 0;
    for i := 0 to |reports|
      invariant missing == Missing(reports[..i]) && invalid == InvalidTotal(reports[..i])
    {
      assert reports[..i + 1][..i] == reports[..i];
      missing := missing + (if reports[i].present then 0 else 1);
      invalid := invalid + reports[i].invalid;
    }
    assert reports[..|reports|] == reports;
    summary := Summary(|reports|, missing, invalid);
  }

  method KnownArtifacts() returns (known: seq<Known>)
    ensures Distinct(known) && forall a: Artifact :: LineFile(a) in known
  {
    known := [LineFile(Semantic), LineFile(Episodic), LineFile(Approvals), LineFile(Rules), LineFile(Tasks),
              LineFile(Executions), SnapshotFile("breakers"), SnapshotFile("policy_overrides")];
    forall a: Artifact ensures LineFile(a) in known {
      match a
      case Semantic => assert known[0] == LineFile(a);
      case Episodic => assert known[1] == LineFile(a);
      case Approvals => assert known[2] == LineFile(a);
      case Rules => assert known[3] == LineFile(a);
      case Tasks => assert known[4] == LineFile(a);
      case Executions => assert known[5] == LineFile(a);
    }
  }

  method CriticalInvalid(known: seq<Known>, reports: seq<Report>) returns (total: nat)
    requires |known| == |reports|
    ensures total == 0 <==> forall i :: 0 <= i < |known| && known[i].LineFile? ==> reports[i].invalid == 0
  {
    total := 0;
    for i := 0 to |known|
      invariant total == 0 <==> forall j :: 0 <= j < i && known[j].LineFile? ==> reports[j].invalid == 0
    {
      if known[i].LineFile? { total := total + reports[i].invalid; }
    }
  }

  type Files = map<Artifact, seq<Line>>

  function Tended(files: Files, settings: map<Artifact, Setting>, repair: bool, compact: bool, k: Known): Files {
    if k.LineFile? && k.a in files
    then files[k.a := Treat(k.a, SettingOf(settings, k.a), repair, compact, files[k.a]).lines]
    else files
  }

  function TendedAll(files: Files, settings: map<Artifact, Setting>, repair: bool, compact: bool, known: seq<Known>, n: nat): Files
    requires n <= |known|
  {
    if n == 0 then files
    else Tended(TendedAll(files, settings, repair, compact, known, n - 1), settings, repair, compact, known[n - 1])
  }

  lemma {:induction false} TendedIsTreated(files: Files, settings: map<Artifact, Setting>, repair: bool, compact: bool,
                                           known: seq<Known>, n: nat, a: Artifact)
    requires n <= |known| && Distinct(known) && a in files
    ensures var after := TendedAll(files, settings, repair, compact, known, n);
      && after.Keys == files.Keys
      && after[a] == if LineFile(a) in known[..n] then Treat(a, SettingOf(settings, a), repair, compact, files[a]).lines
                     else files[a]
  {
    if n > 0 {
      TendedIsTreated(files, settings, repair, compact, known, n - 1, a);
      assert known[..n] == known[..n - 1] + [known[n - 1]];
    }
  }

  lemma OthersUntouched(d: Directory, files: Files, settings: map<Artifact, Setting>, repair: bool, compact: bool,
                        known: seq<Known>, i: nat)
    requires i < |known| && Distinct(known) && files == TendedAll(d.files, settings, repair, compact, known, i)
    ensures FinalReport(d.(files := files), settings, repair, compact, known[i]) == FinalReport(d, settings, repair, compact, known[i])
  {
    if known[i].LineFile? {
      TendedKeys(d.files, settings, repair, compact, known, i);
      if known[i].a in d.files {
        TendedIsTreated(d.files, settings, repair, compact, known, i, known[i].a);
      }
    }
  }

  lemma {:induction false} TendedKeys(files: Files, settings: map<Artifact, Setting>, repair: bool, compact: bool,
                                      known: seq<Known>, n: nat)
    requires n <= |known|
    ensures TendedAll(files, settings, repair, compact, known, n).Keys == files.Keys
  {
    if n > 0 { TendedKeys(files, settings, repair, compact, known, n - 1); }
  }

  lemma FileIsTended(files: Files, settings: map<Artifact, Setting>, repair: bool, compact: bool, known: seq<Known>, a: Artifact)
    requires Distinct(known) && LineFile(a) in known && a in files
    ensures var after := TendedAll(files, settings, repair, compact, known, |known|);
      a in after && after[a] == Treat(a, SettingOf(settings, a), repair, compact, files[a]).lines
  {
    assert known[..|known|] == known;
    TendedIsTreated(files, settings, repair, compact, known, |known|, a);
  }

  lemma EveryFileIsTended(d: Directory, settings: map<Artifact, Setting>, repair: bool, compact: bool, known: seq<Known>)
    requires Distinct(known) && forall a: Artifact :: LineFile(a) in known
    ensures TendedAll(d.files, settings, repair, compact, known, |known|) == Maintained(d, settings, repair, compact).files
  {
    TendedKeys(d.files, settings, repair, compact, known, |known|);
    var after := TendedAll(d.files, settings, repair, compact, known, |known|);
    forall a | a in d.files
      ensures a in after && after[a] == Treat(a, SettingOf(settings, a), repair, compact, d.files[a]).lines
    {
      FileIsTended(d.files, settings, repair, compact, known, a);
    }
  }

  lemma HealthIsAboutFiles(d: Directory, settings: map<Artifact, Setting>, repair: bool, compact: bool, known: seq<Known>, reports: seq<Report>)
    requires |reports| == |known| && forall a: Artifact :: LineFile(a) in known
    requires forall i :: 0 <= i < |known| ==> reports[i] == FinalReport(d, settings, repair, compact, known[i])
    ensures (forall i :: 0 <= i < |known| && known[i].LineFile? ==> reports[i].invalid == 0)
      <==> var files := Maintained(d, settings, repair, compact).files; forall a :: a in files ==> InvalidLines(files[a]) == []
  {
    var files := Maintained(d, settings, repair, compact).files;
    forall i | 0 <= i < |known| && known[i].LineFile?
      ensures reports[i].invalid == if known[i].a in files then |InvalidLines(files[known[i].a])| else 0
    {
    }
    forall a | a in files && forall i :: 0 <= i < |known| && known[i].LineFile? ==> reports[i].invalid == 0
      ensures InvalidLines(files[a]) == []
    {
      var i :| 0 <= i < |known| && known[i] == LineFile(a);
      assert reports[i].invalid == |InvalidLines(files[a])|;
    }
  }

  /** The whole run is a fixpoint too, and a repairing run always leaves a healthy directory. */
  lemma MaintenanceIsStable(d: Directory, settings: map<Artifact, Setting>, repair: bool, compact: bool)
    ensures var once := Maintained(d, settings, repair, compact);
      && Maintained(once, settings, repair, compact) == once
      && (repair ==> forall a :: a in once.files ==> InvalidLines(once.files[a]) == [])
  {
    var once := Maintained(d, settings, repair, compact);
    forall a | a in d.files
      ensures Treat(a, SettingOf(settings, a), repair, compact, once.files[a]).lines == once.files[a]
      ensures repair ==> InvalidLines(once.files[a]) == []
    {
      RerunRewritesNothing(a, SettingOf(settings, a), repair, compact, d.files[a]);
      TreatedRows(a, SettingOf(settings, a), repair, compact, d.files[a]);
    }
    assert Maintained(once, settings, repair, compact).files == once.files;
  }

  // ---------------------------------------------------------------- compaction and the ledger

  ghost predicate AllExecutions(rows: seq<Row>) {
    forall i :: 0 <= i < |rows| ==> rows[i].content.Execution?
  }

  function Records(rows: seq<Row>): seq<Record>
    requires AllExecutions(rows)
  {
    seq(|rows|, i requires 0 <= i < |rows| => rows[i].content.record)
  }

  /** Compacting the ledger's file is trimming it. */
  lemma CompactionTrimsLedger(s: Setting, rows: seq<Row>)
    requires AllExecutions(rows)
    ensures AllExecutions(Compact(Executions, s, rows))
    ensures Records(Compact(Executions, s, rows)) == Retain(Records(rows), RetentionMax(Executions, s))
  {
  }

  /** Main result: every key that survives compaction keeps its latest record, and a key may start
      afterwards exactly when it could before or its latest record was cut off. */
  lemma CompactionKeepsLatestRecords(s: Setting, rows: seq<Row>, k: Key)
    requires AllExecutions(rows)
    ensures AllExecutions(Compact(Executions, s, rows))
    ensures var before, after := Records(rows), Records(Compact(Executions, s, rows));
      && (Latest(after, k).Some? ==> Latest(after, k) == Latest(before, k))
      && (CanStart(after, k) <==> CanStart(before, k) || LatestIndex(before, k) < |before| - |after|)
  {
    CompactionTrimsLedger(s, rows);
    var limit := RetentionMax(Executions, s);
    LatestInWindow(Records(rows), if limit.Some? then limit.value else 0, k);
  }

  /** The doctor and the ledger read the same limit, so compaction never touches the file of a
      ledger that could start: one whose variable is not a number refuses to. */
  lemma CompactionIsInvisibleToLedger(ops: seq<Op>, n: nat, s: Setting, cap: int, rows: seq<Row>, k: Key)
    requires n <= |ops| && AllExecutions(rows) && Records(rows) == After(ops, n, cap).file
    requires (s.Unset? && cap == 5000) || (s.Number? && cap == s.value)
    ensures Compact(Executions, s, rows) == rows
  {
    CappedLedgerRefinesHistory(ops, n, cap, k);
  }
}
