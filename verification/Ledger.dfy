/** The execution ledger: an append-only log of records, capped to the last `maxRecords`,
    whose latest record per key decides whether a keyed side effect may start. */
module Ledger {
  import opened Sequences

  /** Ledger keys are digests of their parts; each constructor stands for one injective digest. */
  datatype Key =
    | ApprovalExec(approvalId: string, skillName: string, args: string)
    | JobRun(jobId: string, bucket: string)
    | RuleAction(ruleId: string, actionIndex: nat, itemId: string, skillName: string, args: string, rationale: string)

  datatype Kind = ApprovalExecKind | JobRunKind | RuleActionKind

  datatype Status = Started | Succeeded | Skipped | Failed

  datatype Record = Record(key: Key, kind: Kind, status: Status, ts: int,
                           correlation: Option<string>, meta: map<string, string>)

  /** The position of the newest record of `k`, or -1. */
  function LatestIndex(records: seq<Record>, k: Key): (i: int)
    ensures -1 <= i < |records|
    ensures 0 <= i ==> records[i].key == k
    ensures forall j :: i < j < |records| ==> records[j].key != k
  {
    if records == [] then -1
    else if records[|records| - 1].key == k then |records| - 1
    else LatestIndex(records[..|records| - 1], k)
  }

  /** The newest record of `k`, as the dictionary of latest records holds it. */
  function Latest(records: seq<Record>, k: Key): Option<Record> {
    var i := LatestIndex(records, k);
    if i < 0 then None else Some(records[i])
  }

  /** A status that keeps the key closed. */
  predicate Blocking(s: Status) {
    s == Succeeded || s == Started
  }

  /** The decision of `try_start` on the records it reads. */
  predicate CanStart(records: seq<Record>, k: Key) {
    var latest := Latest(records, k);
    latest.None? || !Blocking(latest.value.status)
  }

  /** What `trim` leaves of a file: a cap of zero or less keeps everything. */
  function Window(records: seq<Record>, cap: int): seq<Record> {
    if cap <= 0 then records else LastN(records, cap)
  }

  /** The two writing operations with their arguments. */
  datatype Op =
    | Start(key: Key, kind: Kind, ts: int, correlation: Option<string>, meta: map<string, string>)
    | Mark(key: Key, status: Status, ts: int, update: map<string, string>)

  /** `mark` always appends; `try_start` appends only when the latest record leaves the key open. */
  predicate AcceptsAfter(latest: Option<Record>, op: Op) {
    op.Mark? || latest.None? || !Blocking(latest.value.status)
  }

  /** The record an accepted operation appends; `mark` inherits from the latest record it can see. */
  function RecordAfter(latest: Option<Record>, op: Op): Record {
    match op
    case Start(k, kind, ts, correlation, meta) => Record(k, kind, Started, ts, correlation, meta)
    case Mark(k, status, ts, update) =>
      if latest.Some?
      then Record(k, latest.value.kind, status, ts, latest.value.correlation, latest.value.meta + update)
      else Record(k, JobRunKind, status, ts, None, update)
  }

  predicate Accepts(file: seq<Record>, op: Op) {
    AcceptsAfter(Latest(file, op.key), op)
  }

  function NewRecord(file: seq<Record>, op: Op): Record {
    RecordAfter(Latest(file, op.key), op)
  }

  /** The capped file beside everything ever appended to it. */
  datatype Log = Log(file: seq<Record>, history: seq<Record>)

  function Perform(l: Log, op: Op, cap: int): Log {
    if Accepts(l.file, op) then
      var r := NewRecord(l.file, op);
      Log(Window(l.file + [r], cap), l.history + [r])
    else l
  }

  /** The log after the first `n` operations of a run from an empty file. */
  function After(ops: seq<Op>, n: nat, cap: int): Log
    requires n <= |ops|
  {
    if n == 0 then Log([], []) else Perform(After(ops, n - 1, cap), ops[n - 1], cap)
  }

  // ---------------------------------------------------------------- history by position

  /** Position `i` holds the last record of `k` in `h`. */
  ghost predicate LatestAt(h: seq<Record>, k: Key, i: int) {
    0 <= i < |h| && h[i].key == k && forall j :: i < j < |h| ==> h[j].key != k
  }

  /** The first position that the cap has not pushed out. */
  function WindowStart(h: seq<Record>, cap: int): (i: nat)
    ensures i <= |h|
  {
    if cap <= 0 || |h| <= cap then 0 else |h| - cap
  }

  /** The promised decision, told from the unbounded history: `k` has no record among the
      retained ones, or its last record is retained and is failed or skipped. */
  ghost predicate StartableByHistory(h: seq<Record>, cap: int, k: Key) {
    || (forall i :: WindowStart(h, cap) <= i < |h| ==> h[i].key != k)
    || (exists i :: LatestAt(h, k, i) && WindowStart(h, cap) <= i
                    && (h[i].status == Failed || h[i].status == Skipped))
  }

  lemma WindowIsSuffix(h: seq<Record>, cap: int)
    ensures Window(h, cap) == h[WindowStart(h, cap)..]
  {
  }

  /** Reading the capped file finds the history's latest record exactly while it is retained. */
  lemma LatestInWindow(h: seq<Record>, cap: int, k: Key)
    ensures Latest(Window(h, cap), k)
         == if LatestIndex(h, k) < WindowStart(h, cap) then None else Latest(h, k)
  {
    var start := WindowStart(h, cap);
    var w := Window(h, cap);
    WindowIsSuffix(h, cap);
    var i, j := LatestIndex(h, k), LatestIndex(w, k);
    if 0 <= j {
      assert h[start + j] == w[j];
      assert start + j <= i;
    }
    if start <= i {
      assert w[i - start] == h[i];
      assert i - start <= j;
    }
  }

  lemma StartableMeansCanStart(h: seq<Record>, cap: int, k: Key)
    ensures CanStart(Window(h, cap), k) <==> StartableByHistory(h, cap, k)
  {
    LatestInWindow(h, cap, k);
    var i := LatestIndex(h, k);
    if WindowStart(h, cap) <= i {
      assert LatestAt(h, k, i);
      assert forall j :: LatestAt(h, k, j) ==> j == i;
    }
  }

  lemma PerformKeepsWindow(l: Log, op: Op, cap: int)
    requires l.file == Window(l.history, cap)
    ensures Perform(l, op, cap).file == Window(Perform(l, op, cap).history, cap)
  {
    if cap > 0 {
      LastNAbsorbs(l.history, [NewRecord(l.file, op)], cap);
    }
  }

  lemma {:induction false} FileIsWindow(ops: seq<Op>, n: nat, cap: int)
    requires n <= |ops|
    ensures After(ops, n, cap).file == Window(After(ops, n, cap).history, cap)
  {
    if n > 0 {
      FileIsWindow(ops, n - 1, cap);
      PerformKeepsWindow(After(ops, n - 1, cap), ops[n - 1], cap);
    }
  }

  /** Main result: over every run from an empty file, the capped file is the last `cap` records
      ever appended, and `try_start` decides exactly as the positional reading of the full
      history says. A cap of zero or less lets the whole history decide. */
  lemma {:induction false} CappedLedgerRefinesHistory(ops: seq<Op>, n: nat, cap: int, k: Key)
    requires n <= |ops|
    ensures After(ops, n, cap).file == Window(After(ops, n, cap).history, cap)
    ensures CanStart(After(ops, n, cap).file, k)
       <==> StartableByHistory(After(ops, n, cap).history, cap, k)
  {
    FileIsWindow(ops, n, cap);
    StartableMeansCanStart(After(ops, n, cap).history, cap, k);
  }

  /** A mark is the record that readers find next, whatever the cap. */
  lemma MarkIsLatest(l: Log, op: Op, cap: int)
    requires op.Mark?
    ensures Latest(Perform(l, op, cap).file, op.key) == Some(NewRecord(l.file, op))
  {
    var file := Perform(l, op, cap).file;
    assert file[|file| - 1] == NewRecord(l.file, op);
  }

  /** Exactly when a closed key opens again by itself: once `cap` later records push it out. */
  lemma ClosedKeyReopensIffEvicted(h: seq<Record>, cap: int, k: Key, i: int)
    requires LatestAt(h, k, i) && Blocking(h[i].status)
    ensures CanStart(Window(h, cap), k) <==> cap > 0 && |h| - 1 - i >= cap
  {
    LatestInWindow(h, cap, k);
    assert LatestIndex(h, k) == i;
  }

  // ---------------------------------------------------------------- one winner per episode

  /** Operation `i` of the run is a `try_start` on `k` that returned true. */
  ghost predicate Wins(ops: seq<Op>, cap: int, k: Key, i: int) {
    0 <= i < |ops| && ops[i].Start? && ops[i].key == k && CanStart(After(ops, i, cap).file, k)
  }

  /** A mark that lets `k` start again. */
  predicate Reopens(op: Op, k: Key) {
    op.Mark? && op.key == k && !Blocking(op.status)
  }

  /** The latest record of `k` is at position `p` or later, and closed. */
  predicate ClosedSince(h: seq<Record>, k: Key, p: nat) {
    p <= LatestIndex(h, k) && Blocking(h[LatestIndex(h, k)].status)
  }

  /** A win closes the key; anything but a reopening mark keeps it closed. */
  lemma ClosedAfterOne(l: Log, op: Op, cap: int, k: Key, p: nat)
    requires || (op.Start? && op.key == k && CanStart(l.file, k) && p <= |l.history|)
             || (ClosedSince(l.history, k, p) && !Reopens(op, k))
    ensures ClosedSince(Perform(l, op, cap).history, k, p)
  {
    var h := Perform(l, op, cap).history;
    if h != l.history {
      assert h[..|h| - 1] == l.history;
    }
  }

  lemma {:induction false} ClosedUntilReopened(ops: seq<Op>, cap: int, k: Key, i: nat, j: nat)
    requires i < j <= |ops|
    requires Wins(ops, cap, k, i)
    requires forall m :: i < m < j ==> !Reopens(ops[m], k)
    ensures ClosedSince(After(ops, j, cap).history, k, |After(ops, i, cap).history|)
  {
    var p := |After(ops, i, cap).history|;
    if i + 1 < j {
      ClosedUntilReopened(ops, cap, k, i, j - 1);
    }
    ClosedAfterOne(After(ops, j - 1, cap), ops[j - 1], cap, k, p);
  }

  /** Two `try_start` calls on one key both win only if the key was marked failed or skipped in
      between, or the earlier win was pushed out of the retained window. */
  lemma OneWinnerPerEpisode(ops: seq<Op>, cap: int, k: Key, i: nat, j: nat)
    requires i < j && Wins(ops, cap, k, i) && Wins(ops, cap, k, j)
    ensures || (exists m :: i < m < j && Reopens(ops[m], k))
            || (cap > 0 && |After(ops, j, cap).history| - |After(ops, i, cap).history| > cap)
  {
    if forall m :: i < m < j ==> !Reopens(ops[m], k) {
      ClosedUntilReopened(ops, cap, k, i, j);
      CappedLedgerRefinesHistory(ops, j, cap, k);
      LatestInWindow(After(ops, j, cap).history, cap, k);
    }
  }

  // ---------------------------------------------------------------- the ledger object

  class ExecutionLedger {
    const maxRecords: int
    var file: seq<Record>
    ghost var history: seq<Record>

    ghost predicate Valid() reads this {
      file == Window(history, maxRecords)
    }

    ghost function AsLog(): Log reads this {
      Log(file, history)
    }

    constructor (maxRecords: int)
      ensures Valid() && this.maxRecords == maxRecords && AsLog() == Log([], [])
    {
      this.maxRecords := maxRecords;
      file, history := [], [];
    }

    /** Fills the dictionary of latest records by one pass over the file. */
    method LatestRecordByKey() returns (latest: map<Key, Record>)
      ensures forall k :: k in latest <==> Latest(file, k).Some?
      ensures forall k :: k in latest ==> Latest(file, k) == Some(latest[k])
    {
      latest := map[];
      for i := 0 to |file|
        invariant forall k :: k in latest <==> Latest(file[..i], k).Some?
        invariant forall k :: k in latest ==> Latest(file[..i], k) == Some(latest[k])
      {
        latest := latest[file[i].key := file[i]];
        assert file[..i + 1][..i] == file[..i];
      }
      assert file[..|file|] == file;
    }

    method HasSucceeded(k: Key) returns (yes: bool)
      ensures yes <==> Latest(file, k).Some? && Latest(file, k).value.status == Succeeded
    {
      var latest := LatestRecordByKey();
      yes := k in latest && latest[k].status == Succeeded;
    }

    /** Rewrites the file with its last `cap` records. */
    method Trim(cap: int)
      modifies `file
      ensures file == Window(old(file), cap)
    {
      if cap <= 0 { return; }
      if |file| <= cap { return; }
      file := file[|file| - cap..];
    }

    method TryStart(k: Key, kind: Kind, ts: int, correlation: Option<string>, meta: map<string, string>)
      returns (started: bool)
      requires Valid()
      modifies this
      ensures Valid()
      ensures started <==> StartableByHistory(old(history), maxRecords, k)
      ensures AsLog() == Perform(old(AsLog()), Start(k, kind, ts, correlation, meta), maxRecords)
    {
      StartableMeansCanStart(history, maxRecords, k);
      var latest := LatestRecordByKey();
      if k in latest && (latest[k].status == Succeeded || latest[k].status == Started) {
        return false;
      }
      var r := Record(k, kind, Started, ts, correlation, meta);
      if maxRecords > 0 { LastNAbsorbs(history, [r], maxRecords); }
      file := file + [r];
      history := history + [r];
      Trim(maxRecords);
      started := true;
    }

    method MarkKey(k: Key, status: Status, ts: int, update: map<string, string>)
      requires Valid()
      modifies this
      ensures Valid()
      ensures AsLog() == Perform(old(AsLog()), Mark(k, status, ts, update), maxRecords)
    {
      var latest := LatestRecordByKey();
      var kind := if k in latest then latest[k].kind else JobRunKind;
      var correlation := if k in latest then latest[k].correlation else None;
      var meta := if k in latest then latest[k].meta else map[];
      var r := Record(k, kind, status, ts, correlation, meta + update);
      assert map[] + update == update;
      assert r == NewRecord(file, Mark(k, status, ts, update));
      if maxRecords > 0 { LastNAbsorbs(history, [r], maxRecords); }
      file := file + [r];
      history := history + [r];
      Trim(maxRecords);
    }
  }
}
