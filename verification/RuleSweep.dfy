/** The rule store and the evaluator: each stored rule is evaluated in turn and saved at once, under
    the job's own ledger key. */
module RuleSweep {
  import opened Sequences
  import opened Ledger
  import opened Policy
  import opened RuleCursors
  import opened RuleEngine

  /** A stored rule; the old fields are the deprecated copies of the last run and match. */
  datatype Stored = Stored(rule: Rule, enabled: bool, memory: Memory, oldRun: Option<int>, oldMatch: Option<int>, updated: int)

  function Inherit(current: Option<int>, old_: Option<int>): Option<int> {
    if current.None? then old_ else current
  }

  function MigrateRule(s: Stored): Stored {
    var run, found := Inherit(s.memory.lastRun, s.oldRun), Inherit(s.memory.lastMatch, s.oldMatch);
    s.(memory := Memory(Migrate(s.memory.cursor), s.memory.cooldownUntil, run, found), oldRun := run, oldMatch := found)
  }

  lemma MigrateIsIdempotent(s: Stored)
    ensures MigrateRule(MigrateRule(s)) == MigrateRule(s)
  {
  }

  /** What reading the file yields; writing it back is the same migration. */
  function Loaded(file: seq<Stored>): (r: seq<Stored>)
    ensures |r| == |file| && forall i :: 0 <= i < |r| ==> r[i] == MigrateRule(file[i])
  {
    seq(|file|, i requires 0 <= i < |file| => MigrateRule(file[i]))
  }

  function IdOf(s: Stored): string {
    s.rule.id
  }

  ghost predicate DistinctIds(file: seq<Stored>) {
    forall i, j :: 0 <= i < j < |file| ==> IdOf(file[i]) != IdOf(file[j])
  }

  /** The first position that holds this id, or the length. */
  function Position(file: seq<Stored>, id: string): (p: nat)
    ensures p <= |file|
    ensures p < |file| ==> IdOf(file[p]) == id
    ensures forall i :: 0 <= i < p ==> IdOf(file[i]) != id
  {
    if file == [] then 0
    else
      var p := Position(file[..|file| - 1], id);
      assert forall i :: 0 <= i < |file| - 1 ==> file[..|file| - 1][i] == file[i];
      if p < |file| - 1 || IdOf(file[|file| - 1]) == id then p else |file|
  }

  function UpsertRule(file: seq<Stored>, s: Stored, now: int): seq<Stored> {
    var rules, updated := Loaded(file), MigrateRule(s).(updated := now);
    var p := Position(rules, IdOf(s));
    Loaded(if p < |rules| then rules[p := updated] else rules + [updated])
  }

  /** The rules as they are listed: as read, the last one first. */
  function Listing(file: seq<Stored>): (r: seq<Stored>)
    ensures |r| == |file| && forall i :: 0 <= i < |r| ==> r[i] == MigrateRule(file[|file| - 1 - i])
  {
    seq(|file|, i requires 0 <= i < |file| => MigrateRule(file[|file| - 1 - i]))
  }

  class RuleStore {
    var file: seq<Stored>

    constructor ()
      ensures file == []
    {
      file := [];
    }

    method LoadAll() returns (rules: seq<Stored>)
      ensures rules == Loaded(file)
    {
      rules := [];
      for i := 0 to |file|
        invariant |rules| == i && forall j :: 0 <= j < i ==> rules[j] == MigrateRule(file[j])
      {
        rules := rules + [MigrateRule(file[i])];
      }
    }

    /** Every stored rule, migrated, in reverse order. */
    method ListAll() returns (rules: seq<Stored>)
      ensures |rules| == |file| && forall i :: 0 <= i < |file| ==> rules[|file| - 1 - i] == MigrateRule(file[i])
      ensures rules == Listing(file)
    {
      var loaded := LoadAll();
      rules := [];
      for i := |loaded| downto 0
        invariant |rules| == |loaded| - i
        invariant forall j :: 0 <= j < |rules| ==> rules[j] == loaded[|loaded| - 1 - j]
      {
        rules := rules + [loaded[i]];
      }
      assert forall i :: 0 <= i < |file| ==> rules[i] == MigrateRule(file[|file| - 1 - i]);
    }

    method Upsert(s: Stored, now: int) returns (updated: Stored)
      modifies this
      ensures file == UpsertRule(old(file), s, now)
      ensures updated == MigrateRule(s).(updated := now)
    {
      var rules := LoadAll();
      updated := MigrateRule(s).(updated := now);
      for i := 0 to |rules|
        invariant file == old(file)
        invariant forall j :: 0 <= j < i ==> IdOf(rules[j]) != IdOf(s)
      {
        if IdOf(rules[i]) == IdOf(updated) {
          file := Loaded(rules[i := updated]);
          return;
        }
      }
      file := Loaded(rules + [updated]);
    }

    /** Removes every rule with this id; an unknown id leaves the file unwritten. */
    method Delete(id: string) returns (found: bool)
      modifies this
      ensures found <==> exists i :: 0 <= i < |old(file)| && IdOf(old(file)[i]) == id
      ensures if found then file == WithoutId(Loaded(old(file)), id) else file == old(file)
    {
      var rules := LoadAll();
      var kept: seq<Stored> := [];
      for i := 0 to |rules|
        invariant kept == WithoutId(rules[..i], id)
        invariant |kept| <= i && (|kept| == i <==> forall j :: 0 <= j < i ==> IdOf(rules[j]) != id)
      {
        assert rules[..i + 1][..i] == rules[..i];
        if IdOf(rules[i]) != id { kept := kept + [rules[i]]; }
      }
      assert rules[..|rules|] == rules;
      WithoutIdStaysMigrated(file, id);
      found := |kept| != |rules|;
      if found { file := Loaded(kept); }
    }
  }

  function WithoutId(rules: seq<Stored>, id: string): seq<Stored> {
    if rules == [] then []
    else
      var before, last := WithoutId(rules[..|rules| - 1], id), rules[|rules| - 1];
      if IdOf(last) == id then before else before + [last]
  }

  lemma {:induction false} WithoutIdStaysMigrated(file: seq<Stored>, id: string)
    ensures Loaded(WithoutId(Loaded(file), id)) == WithoutId(Loaded(file), id)
  {
    if file != [] {
      var front := file[..|file| - 1];
      WithoutIdStaysMigrated(front, id);
      assert Loaded(file)[..|file| - 1] == Loaded(front);
      MigrateIsIdempotent(file[|file| - 1]);
    }
  }

  /** Saving a rule under a known id replaces that one rule; the others are read and written back. */
  lemma UpsertReplaces(file: seq<Stored>, s: Stored, now: int, p: nat)
    requires DistinctIds(file) && p < |file| && IdOf(file[p]) == IdOf(s)
    ensures Loaded(UpsertRule(file, s, now)) == Loaded(file)[p := MigrateRule(s).(updated := now)]
    ensures |UpsertRule(file, s, now)| == |file|
    ensures forall i :: 0 <= i < |file| ==> IdOf(UpsertRule(file, s, now)[i]) == IdOf(file[i])
  {
    var rules := Loaded(file);
    var q := Position(rules, IdOf(s));
    assert q == p by {
      assert IdOf(rules[p]) == IdOf(s);
      assert IdOf(file[q]) == IdOf(rules[q]) == IdOf(file[p]);
    }
    forall i | 0 <= i < |file|
      ensures Loaded(UpsertRule(file, s, now))[i] == Loaded(file)[p := MigrateRule(s).(updated := now)][i]
    {
      MigrateIsIdempotent(file[i]);
      MigrateIsIdempotent(s);
    }
  }

  /** No save ever gives two rules one id. */
  lemma UpsertKeepsIdsDistinct(file: seq<Stored>, s: Stored, now: int)
    requires DistinctIds(file)
    ensures DistinctIds(UpsertRule(file, s, now))
  {
    var rules := Loaded(file);
    assert forall i :: 0 <= i < |file| ==> IdOf(rules[i]) == IdOf(file[i]);
    var p := Position(rules, IdOf(s));
    var after := UpsertRule(file, s, now);
    assert forall i :: 0 <= i < |after| ==> IdOf(after[i]) == if i == p then IdOf(s) else IdOf(file[i]);
  }

  // ---------------------------------------------------------------- the sweep

  /** What each rule of the listing will find around it, and whether saving it raises. */
  datatype Around = Around(env: Env, trigger: Trigger, saveRaises: bool)

  /** `failed` once a save has raised; then no later rule is looked at. */
  datatype Sweep = Sweep(loop: Loop, file: seq<Stored>, results: seq<RunResult>, failed: bool)

  /** The files a rule's evaluation starts from. */
  function Afresh(l: Loop): Loop {
    l.(executed := [], failed := false)
  }

  function EvaluateStored(l: Loop, s: Stored, around: Around, registry: Registry, cap: int): Evaluated {
    EvaluateOnce(Afresh(l), s.memory, s.rule, around.env, registry, cap, around.trigger)
  }

  /** By place in the listing: what evaluating a rule comes to, the clock at that moment, and whether
      saving it raises. */
  datatype Script = Script(eval: (nat, Loop, Stored) -> Evaluated, clock: nat -> int, raises: nat -> bool)

  function ByEngine(around: nat -> Around, registry: Registry, cap: int): Script {
    Script((k: nat, l: Loop, s: Stored) => EvaluateStored(l, s, around(k), registry, cap),
           (k: nat) => around(k).env.now, (k: nat) => around(k).saveRaises)
  }

  /** One turn of the loop: a disabled rule is passed over, an enabled one evaluated and saved. A save
      that raises leaves the file as it was. */
  function Turn(w: Sweep, s: Stored, sc: Script, k: nat): Sweep {
    if w.failed || !s.enabled then w
    else
      var e := sc.eval(k, w.loop, s);
      if sc.raises(k) then w.(loop := Afresh(e.loop), failed := true)
      else Sweep(Afresh(e.loop), UpsertRule(w.file, s.(memory := e.memory), sc.clock(k)), w.results + [e.result], false)
  }

  /** The sweep after the first `n` rules of the listing. */
  function SweepAfter(w: Sweep, listed: seq<Stored>, sc: Script, n: nat): Sweep
    requires n <= |listed|
  {
    if n == 0 then w else Turn(SweepAfter(w, listed, sc, n - 1), listed[n - 1], sc, n - 1)
  }

  function StartJob(key: Key, now: int): Op {
    Start(key, JobRunKind, now, None, map[])
  }

  function EndJob(key: Key, failed: bool, now: int): Op {
    Mark(key, if failed then Failed else Succeeded, now, map[])
  }

  /** The whole job; without a key it is neither claimed nor reported. */
  function RunJob(l: Loop, file: seq<Stored>, key: Option<Key>, sc: Script, cap: int, begin: int, end: int): Sweep {
    var listed := Listing(file);
    if key.None? then SweepAfter(Sweep(l, file, [], false), listed, sc, |listed|)
    else if !Accepts(l.log.file, StartJob(key.value, begin)) then Sweep(l, file, [], false)
    else
      var claimed := l.(log := Perform(l.log, StartJob(key.value, begin), cap));
      var w := SweepAfter(Sweep(claimed, file, [], false), listed, sc, |listed|);
      w.(loop := w.loop.(log := Perform(w.loop.log, EndJob(key.value, w.failed, end), cap)))
  }

  class Evaluator {
    const engine: Engine
    const rules: RuleStore

    constructor (engine: Engine, rules: RuleStore)
      ensures this.engine == engine && this.rules == rules
    {
      this.engine, this.rules := engine, rules;
    }

    ghost predicate Valid() reads this, engine, engine.ledger {
      engine.ledger.Valid()
    }

    ghost function AsSweep(results: seq<RunResult>, failed: bool): Sweep
      reads this, engine, engine.ledger, engine.store, rules
    {
      Sweep(engine.Files([], false), rules.file, results, failed)
    }

    ghost function Scripted(around: nat -> Around): Script {
      ByEngine(around, engine.registry, engine.ledger.maxRecords)
    }

    /** Evaluates one rule on a state object of its own, and saves it. */
    method EvaluateAndSave(s: Stored, around: nat -> Around, k: nat, results: seq<RunResult>)
      returns (results': seq<RunResult>, raised: bool)
      requires Valid() && s.enabled
      modifies engine, engine.ledger, engine.store, rules
      ensures Valid()
      ensures AsSweep(results', raised) == Turn(old(AsSweep(results, false)), s, Scripted(around), k)
    {
      var state := new RuleState(s.memory.cursor, s.memory.cooldownUntil, s.memory.lastRun, s.memory.lastMatch);
      ghost var before := engine.Files([], false);
      assert engine.MemoryOf(state) == s.memory;
      var result, executed, failed := engine.EvaluateRule(s.rule, state, around(k).env, around(k).trigger);
      assert Afresh(before) == before;
      if around(k).saveRaises { return results, true; }
      var memory := Memory(state.AsCursor(), state.cooldownUntil, state.lastRun, state.lastMatch);
      var saved := rules.Upsert(s.(memory := memory), around(k).env.now);
      results', raised := results + [result], false;
    }

    /** The job: skipped as a whole when its key is closed; marked failed when a save raises. */
    method RunRulesEvaluation(key: Option<Key>, around: nat -> Around, begin: int, end: int)
      returns (results: seq<RunResult>, raised: bool)
      requires Valid()
      modifies engine, engine.ledger, engine.store, rules
      ensures Valid()
      ensures AsSweep(results, raised) == RunJob(old(engine.Files([], false)), old(rules.file), key, Scripted(around),
                                                 engine.ledger.maxRecords, begin, end)
    {
      results, raised := [], false;
      if key.Some? {
        StartableMeansCanStart(engine.ledger.history, engine.ledger.maxRecords, key.value);
        var started := engine.ledger.TryStart(key.value, JobRunKind, begin, None, map[]);
        if !started { return; }
      }
      var listed := rules.ListAll();
      ghost var before := AsSweep([], false);
      for i := 0 to |listed|
        invariant Valid()
        invariant AsSweep(results, raised) == SweepAfter(before, listed, Scripted(around), i)
      {
        if !raised && listed[i].enabled {
          results, raised := EvaluateAndSave(listed[i], around, i, results);
        }
      }
      if key.Some? {
        if raised {
          engine.ledger.MarkKey(key.value, Failed, end, map[]);
        } else {
          engine.ledger.MarkKey(key.value, Succeeded, end, map[]);
        }
      }
    }
  }

  // ---------------------------------------------------------------- what the sweep does to the store

  function SavedAs(s: Stored, memory: Memory, now: int): Stored {
    MigrateRule(s.(memory := memory)).(updated := now)
  }

  /** The memory that the evaluation of rule `k` ends with: it starts from the memory listed for it,
      and from the files as the rules before it left them. */
  function MemoryFor(w: Sweep, listed: seq<Stored>, sc: Script, k: nat): Memory
    requires k < |listed|
  {
    sc.eval(k, SweepAfter(w, listed, sc, k).loop, listed[k]).memory
  }

  /** Saving an enabled one of the first `n` rules raises. */
  ghost predicate Broken(listed: seq<Stored>, sc: Script, n: nat)
    requires n <= |listed|
  {
    exists k :: 0 <= k < n && listed[k].enabled && sc.raises(k)
  }

  /** Rule `k` is evaluated and saved. */
  ghost predicate GetsSaved(listed: seq<Stored>, sc: Script, k: nat)
    requires k < |listed|
  {
    listed[k].enabled && !Broken(listed, sc, k + 1)
  }

  /** What the file holds for each rule of the listing once the sweep is over. */
  function LeftAs(listed: seq<Stored>, saved: seq<bool>, memories: seq<Memory>, times: seq<int>): (r: seq<Stored>)
    requires |saved| == |memories| == |times| == |listed|
    ensures |r| == |listed|
  {
    seq(|listed|, k requires 0 <= k < |listed| => if saved[k] then SavedAs(listed[k], memories[k], times[k]) else listed[k])
  }

  function FileAfterTurn(file: seq<Stored>, s: Stored, saved: bool, memory: Memory, now: int): seq<Stored> {
    if saved then UpsertRule(file, s.(memory := memory), now) else file
  }

  predicate SavesAt(listed: seq<Stored>, saved: seq<bool>, memories: seq<Memory>, times: seq<int>, files: seq<seq<Stored>>, k: nat)
    requires k < |listed| == |saved| == |memories| == |times| && |files| == |listed| + 1
  {
    files[k + 1] == FileAfterTurn(files[k], listed[k], saved[k], memories[k], times[k])
  }

  /** Each state of the file comes from the one before by saving at most one rule. */
  ghost predicate SavesEach(listed: seq<Stored>, saved: seq<bool>, memories: seq<Memory>, times: seq<int>, files: seq<seq<Stored>>) {
    && |listed| == |saved| == |memories| == |times| && |files| == |listed| + 1
    && forall k :: 0 <= k < |listed| ==> SavesAt(listed, saved, memories, times, files, k)
  }

  /** The file, which lists the rules the other way round, holds the first `n` as `left` and the rest as listed. */
  ghost predicate SweptTo(listed: seq<Stored>, left: seq<Stored>, n: nat, file: seq<Stored>)
    requires |left| == |listed|
  {
    && |file| == |listed|
    && forall k :: 0 <= k < |file| ==>
         MigrateRule(file[k]) == (if |file| - 1 - k < n then left[|file| - 1 - k] else listed[|file| - 1 - k])
  }

  ghost predicate SameIds(a: seq<Stored>, b: seq<Stored>) {
    |a| == |b| && forall k :: 0 <= k < |a| ==> IdOf(a[k]) == IdOf(b[k])
  }

  lemma IdsFromListing(listed: seq<Stored>, left: seq<Stored>, n: nat, file: seq<Stored>)
    requires DistinctIds(listed) && SameIds(left, listed) && SweptTo(listed, left, n, file)
    ensures DistinctIds(file)
    ensures forall k :: 0 <= k < |file| ==> IdOf(file[k]) == IdOf(listed[|file| - 1 - k])
  {
    forall k | 0 <= k < |file| ensures IdOf(file[k]) == IdOf(listed[|file| - 1 - k]) {
      assert IdOf(MigrateRule(file[k])) == IdOf(file[k]);
    }
  }

  /** Replacing one entry of the file by the next one of `left` moves the boundary by one. */
  lemma BoundaryMoves(listed: seq<Stored>, left: seq<Stored>, n: nat, file: seq<Stored>, after: seq<Stored>)
    requires |left| == |listed| && n < |listed| && SweptTo(listed, left, n, file) && |after| == |file|
    requires Loaded(after) == Loaded(file)[|file| - 1 - n := left[n]]
    ensures SweptTo(listed, left, n + 1, after)
  {
    forall k | 0 <= k < |after|
      ensures MigrateRule(after[k]) == (if |after| - 1 - k < n + 1 then left[|after| - 1 - k] else listed[|after| - 1 - k])
    {
      assert Loaded(after)[k] == MigrateRule(after[k]);
      assert Loaded(file)[k] == MigrateRule(file[k]);
    }
  }

  /** Saving the next rule of the listing moves the boundary by one. */
  lemma SavingOne(listed: seq<Stored>, left: seq<Stored>, n: nat, file: seq<Stored>, s: Stored, now: int)
    requires DistinctIds(listed) && SameIds(left, listed) && n < |listed| && SweptTo(listed, left, n, file)
    requires IdOf(s) == IdOf(listed[n]) && left[n] == MigrateRule(s).(updated := now)
    ensures SweptTo(listed, left, n + 1, UpsertRule(file, s, now))
  {
    IdsFromListing(listed, left, n, file);
    UpsertReplaces(file, s, now, |file| - 1 - n);
    BoundaryMoves(listed, left, n, file, UpsertRule(file, s, now));
  }

  lemma LeftKeepsIds(listed: seq<Stored>, saved: seq<bool>, memories: seq<Memory>, times: seq<int>)
    requires |saved| == |memories| == |times| == |listed|
    ensures SameIds(LeftAs(listed, saved, memories, times), listed)
  {
  }

  lemma {:induction false} SavingAll(listed: seq<Stored>, saved: seq<bool>, memories: seq<Memory>, times: seq<int>, files: seq<seq<Stored>>, n: nat)
    requires SavesEach(listed, saved, memories, times, files) && n <= |listed| && DistinctIds(listed)
    requires SweptTo(listed, LeftAs(listed, saved, memories, times), 0, files[0])
    ensures SweptTo(listed, LeftAs(listed, saved, memories, times), n, files[n])
  {
    if n > 0 {
      SavingAll(listed, saved, memories, times, files, n - 1);
      var k := n - 1;
      assert SavesAt(listed, saved, memories, times, files, k);
      if saved[k] {
        LeftKeepsIds(listed, saved, memories, times);
        SavingOne(listed, LeftAs(listed, saved, memories, times), k, files[k], listed[k].(memory := memories[k]), times[k]);
      }
    }
  }

  lemma ListingIsUnswept(file: seq<Stored>, listed: seq<Stored>, left: seq<Stored>)
    requires DistinctIds(file) && listed == Listing(file) && |left| == |listed|
    ensures DistinctIds(listed) && SweptTo(listed, left, 0, file)
  {
    forall i, j | 0 <= i < j < |listed| ensures IdOf(listed[i]) != IdOf(listed[j]) {
      assert IdOf(file[|file| - 1 - j]) != IdOf(file[|file| - 1 - i]);
    }
  }

  /** The sweep has failed exactly when saving one of the rules so far raises. */
  lemma {:induction false} FailedIffBroken(w: Sweep, listed: seq<Stored>, sc: Script, n: nat)
    requires n <= |listed| && !w.failed
    ensures SweepAfter(w, listed, sc, n).failed <==> Broken(listed, sc, n)
  {
    if n > 0 {
      FailedIffBroken(w, listed, sc, n - 1);
      assert Broken(listed, sc, n) <==> Broken(listed, sc, n - 1) || (listed[n - 1].enabled && sc.raises(n - 1));
    }
  }

  lemma TurnSaves(w: Sweep, listed: seq<Stored>, sc: Script, k: nat)
    requires k < |listed| && !w.failed
    ensures SweepAfter(w, listed, sc, k + 1).file
         == FileAfterTurn(SweepAfter(w, listed, sc, k).file, listed[k], GetsSaved(listed, sc, k), MemoryFor(w, listed, sc, k), sc.clock(k))
  {
    FailedIffBroken(w, listed, sc, k);
    assert Broken(listed, sc, k + 1) <==> Broken(listed, sc, k) || (listed[k].enabled && sc.raises(k));
  }

  /** Which rules get saved, with what memory and when, and the states of the file along a sweep. */
  lemma Trace(w: Sweep, listed: seq<Stored>, sc: Script)
    returns (saved: seq<bool>, memories: seq<Memory>, times: seq<int>, files: seq<seq<Stored>>)
    requires !w.failed
    ensures SavesEach(listed, saved, memories, times, files)
    ensures forall k :: 0 <= k < |listed| ==> saved[k] == GetsSaved(listed, sc, k)
    ensures forall k :: 0 <= k < |listed| ==> memories[k] == MemoryFor(w, listed, sc, k)
    ensures forall k :: 0 <= k < |listed| ==> times[k] == sc.clock(k)
    ensures files[0] == w.file && files[|listed|] == SweepAfter(w, listed, sc, |listed|).file
  {
    saved := seq(|listed|, k requires 0 <= k < |listed| => GetsSaved(listed, sc, k));
    memories := seq(|listed|, k requires 0 <= k < |listed| => MemoryFor(w, listed, sc, k));
    times := seq(|listed|, k requires 0 <= k < |listed| => sc.clock(k));
    files := seq(|listed| + 1, k requires 0 <= k < |listed| + 1 => SweepAfter(w, listed, sc, k).file);
    forall k | 0 <= k < |listed| ensures SavesAt(listed, saved, memories, times, files, k) {
      TurnSaves(w, listed, sc, k);
    }
  }

  lemma SavesEachSavesAll(file: seq<Stored>, listed: seq<Stored>, saved: seq<bool>, memories: seq<Memory>, times: seq<int>,
                          files: seq<seq<Stored>>, p: nat)
    requires DistinctIds(file) && listed == Listing(file) && p < |file|
    requires SavesEach(listed, saved, memories, times, files) && files[0] == file
    ensures var k := |file| - 1 - p;
      && |files[|file|]| == |file|
      && MigrateRule(files[|file|][p])
         == if saved[k] then SavedAs(MigrateRule(file[p]), memories[k], times[k]) else MigrateRule(file[p])
  {
    var left, k := LeftAs(listed, saved, memories, times), |file| - 1 - p;
    ListingIsUnswept(file, listed, left);
    SavingAll(listed, saved, memories, times, files, |listed|);
    assert listed[k] == MigrateRule(file[p]);
    assert MigrateRule(files[|file|][p]) == left[k];
  }

  /** Main result: although every save reloads and rewrites the whole file, a sweep over a store with
      distinct ids leaves each enabled rule as its own single evaluation made it, up to the first save
      that raises; every other rule stays as it was, and all keep their places. It holds whatever a
      single evaluation does. */
  lemma SweepEvaluatesEachRuleOnce(l: Loop, file: seq<Stored>, listed: seq<Stored>, sc: Script, p: nat)
    requires DistinctIds(file) && p < |file| && listed == Listing(file)
    ensures var w := Sweep(l, file, [], false);
      var after := SweepAfter(w, listed, sc, |listed|).file;
      var k := |file| - 1 - p;
      && |after| == |file|
      && MigrateRule(after[p])
         == if GetsSaved(listed, sc, k) then SavedAs(MigrateRule(file[p]), MemoryFor(w, listed, sc, k), sc.clock(k))
            else MigrateRule(file[p])
  {
    var w := Sweep(l, file, [], false);
    var saved, memories, times, files := Trace(w, listed, sc);
    SavesEachSavesAll(file, listed, saved, memories, times, files, p);
  }

  // ---------------------------------------------------------------- the job's key

  lemma ReportedLast(log: Log, key: Key, failed: bool, end: int, cap: int)
    ensures var after := Perform(log, EndJob(key, failed, end), cap);
      && (CanStart(after.file, key) <==> failed)
      && (!failed ==> ClosedSince(after.history, key, |after.history| - 1))
  {
    var r := NewRecord(log.file, EndJob(key, failed, end));
    var after := Perform(log, EndJob(key, failed, end), cap);
    assert after.file[|after.file| - 1] == r;
    assert after.history[|after.history| - 1] == r;
  }

  /** A job that ran leaves its key open exactly when it failed; so a failed job may run again. */
  lemma JobReopensIffFailed(l: Loop, file: seq<Stored>, key: Key, sc: Script, cap: int, begin: int, end: int)
    requires Accepts(l.log.file, StartJob(key, begin))
    ensures var once := RunJob(l, file, Some(key), sc, cap, begin, end);
      && (CanStart(once.loop.log.file, key) <==> once.failed)
      && (once.failed <==> Broken(Listing(file), sc, |file|))
      && (!once.failed ==> ClosedSince(once.loop.log.history, key, |once.loop.log.history| - 1))
  {
    var listed := Listing(file);
    var claimed := l.(log := Perform(l.log, StartJob(key, begin), cap));
    FailedIffBroken(Sweep(claimed, file, [], false), listed, sc, |listed|);
    var w := SweepAfter(Sweep(claimed, file, [], false), listed, sc, |listed|);
    ReportedLast(w.loop.log, key, w.failed, end, cap);
  }

  /** The log after the first `n` of further operations. */
  function PerformAll(log: Log, ops: seq<Op>, n: nat, cap: int): Log
    requires n <= |ops|
  {
    if n == 0 then log else Perform(PerformAll(log, ops, n - 1, cap), ops[n - 1], cap)
  }

  lemma {:induction false} StaysShut(log: Log, ops: seq<Op>, n: nat, cap: int, key: Key, p: nat)
    requires n <= |ops| && ClosedSince(log.history, key, p) && forall m :: 0 <= m < n ==> !Reopens(ops[m], key)
    requires log.file == Window(log.history, cap)
    ensures var later := PerformAll(log, ops, n, cap);
      ClosedSince(later.history, key, p) && later.file == Window(later.history, cap) && |later.history| >= |log.history|
  {
    if n > 0 {
      StaysShut(log, ops, n - 1, cap, key, p);
      ClosedAfterOne(PerformAll(log, ops, n - 1, cap), ops[n - 1], cap, key, p);
      PerformKeepsWindow(PerformAll(log, ops, n - 1, cap), ops[n - 1], cap);
    }
  }

  /** Main result: a job that ended well does nothing at all when it is started again under the same
      key, whatever has been recorded since, unless its key was marked failed or skipped or the cap has
      pushed its record out: no rule is evaluated, and no file changes. */
  lemma FinishedJobIsNotRepeated(l: Loop, file: seq<Stored>, key: Key, sc: Script, cap: int, begin: int, end: int,
                                 ops: seq<Op>, file': seq<Stored>, sc': Script, begin': int, end': int)
    requires Accepts(l.log.file, StartJob(key, begin)) && !Broken(Listing(file), sc, |file|)
    requires var log := RunJob(l, file, Some(key), sc, cap, begin, end).loop.log;
      && log.file == Window(log.history, cap) && (forall m :: 0 <= m < |ops| ==> !Reopens(ops[m], key))
      && (cap <= 0 || |PerformAll(log, ops, |ops|, cap).history| - |log.history| < cap)
    ensures var once := RunJob(l, file, Some(key), sc, cap, begin, end);
      var later := once.loop.(log := PerformAll(once.loop.log, ops, |ops|, cap));
      RunJob(later, file', Some(key), sc', cap, begin', end') == Sweep(later, file', [], false)
  {
    JobReopensIffFailed(l, file, key, sc, cap, begin, end);
    var log := RunJob(l, file, Some(key), sc, cap, begin, end).loop.log;
    StaysShut(log, ops, |ops|, cap, key, |log.history| - 1);
    LatestInWindow(PerformAll(log, ops, |ops|, cap).history, cap, key);
  }
}
