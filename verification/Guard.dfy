/** The discipline every ledger user follows: claim a key with `try_start`, perform the side
    effect, report the outcome with `mark`. Workers interleave freely and may crash at any point,
    losing their memory while the ledger keeps its records. */
module Guard {
  import opened Sequences
  import opened Ledger

  datatype Worker =
    | Free
    | Owns(key: Key)
    | Ran(key: Key, ok: bool)

  /** `effects` counts, per key, the side effects that completed successfully. */
  datatype State = State(history: seq<Record>, workers: map<nat, Worker>, effects: multiset<Key>)

  datatype Action =
    | Claim(worker: nat, op: Op)
    | Effect(worker: nat, ok: bool)
    | Report(worker: nat, op: Op)
    | Crash(worker: nat)
    | Stutter

  const INIT := State([], map[], multiset{})

  function At(g: State, w: nat): Worker {
    if w in g.workers then g.workers[w] else Free
  }

  /** The status a worker reports for the outcome of its effect. */
  function Outcome(ok: bool): Status {
    if ok then Succeeded else Failed
  }

  predicate Enabled(g: State, a: Action) {
    match a
    case Claim(w, op) => At(g, w).Free? && op.Start?
    case Effect(w, _) => At(g, w).Owns?
    case Report(w, op) =>
      At(g, w).Ran? && op.Mark? && op.key == At(g, w).key && op.status == Outcome(At(g, w).ok)
    case Crash(w) => true
    case Stutter => true
  }

  function Next(g: State, a: Action, cap: int): State
    requires Enabled(g, a)
  {
    match a
    case Claim(w, op) =>
      var file := Window(g.history, cap);
      if Accepts(file, op)
      then g.(history := g.history + [NewRecord(file, op)], workers := g.workers[w := Owns(op.key)])
      else g
    case Effect(w, ok) =>
      var k := At(g, w).key;
      g.(workers := g.workers[w := Ran(k, ok)],
         effects := if ok then g.effects + multiset{k} else g.effects)
    case Report(w, op) =>
      g.(history := g.history + [NewRecord(Window(g.history, cap), op)], workers := g.workers[w := Free])
    case Crash(w) => g.(workers := g.workers[w := Free])
    case Stutter => g
  }

  ghost predicate IsRun(states: seq<State>, actions: seq<Action>, cap: int) {
    && |states| == |actions| + 1
    && states[0] == INIT
    && forall i :: 0 <= i < |actions| ==>
         Enabled(states[i], actions[i]) && states[i + 1] == Next(states[i], actions[i], cap)
  }

  /** `k` has records, and the cap has pushed all of them out. */
  predicate Evicted(h: seq<Record>, cap: int, k: Key) {
    0 <= LatestIndex(h, k) < WindowStart(h, cap)
  }

  /** No claim on `k` is made while `k` is evicted. */
  ghost predicate Retained(states: seq<State>, actions: seq<Action>, cap: int, k: Key)
    requires |states| == |actions| + 1
  {
    forall i :: 0 <= i < |actions| && actions[i].Claim? && actions[i].op.key == k
      ==> !Evicted(states[i].history, cap, k)
  }

  predicate Holds(w: Worker, k: Key) {
    !w.Free? && w.key == k
  }

  /** The key is in use or used up: its latest record is started or succeeded. */
  predicate Closed(h: seq<Record>, k: Key) {
    !CanStart(h, k)
  }

  /** What is true of one key: at most one success; one holder at most, which sees its own
      `started` record as the latest; and a key that may start has had no success. */
  ghost predicate Once(g: State, k: Key) {
    && g.effects[k] <= 1
    && (forall v, w :: Holds(At(g, v), k) && Holds(At(g, w), k) ==> v == w)
    && (forall w :: Holds(At(g, w), k) ==> Closed(g.history, k))
    && (forall w :: Holds(At(g, w), k) && !(At(g, w).Ran? && At(g, w).ok) ==> g.effects[k] == 0)
    && (!Closed(g.history, k) ==> g.effects[k] == 0)
  }

  lemma AppendedLatest(h: seq<Record>, r: Record, k: Key)
    ensures Latest(h + [r], k) == if r.key == k then Some(r) else Latest(h, k)
  {
    assert (h + [r])[..|h|] == h;
  }

  lemma ClaimKeepsOnce(g: State, w: nat, op: Op, cap: int, k: Key)
    requires Once(g, k) && Enabled(g, Claim(w, op))
    requires op.key == k ==> !Evicted(g.history, cap, k)
    ensures Once(Next(g, Claim(w, op), cap), k)
  {
    var g' := Next(g, Claim(w, op), cap);
    if g' != g {
      assert forall v :: v != w ==> At(g', v) == At(g, v);
      LatestInWindow(g.history, cap, op.key);
      AppendedLatest(g.history, NewRecord(Window(g.history, cap), op), k);
    }
  }

  lemma ReportKeepsOnce(g: State, w: nat, op: Op, cap: int, k: Key)
    requires Once(g, k) && Enabled(g, Report(w, op))
    ensures Once(Next(g, Report(w, op), cap), k)
  {
    var g' := Next(g, Report(w, op), cap);
    assert forall v :: v != w ==> At(g', v) == At(g, v);
    assert Holds(At(g, w), op.key);
    AppendedLatest(g.history, NewRecord(Window(g.history, cap), op), k);
  }

  lemma OncePreserved(g: State, a: Action, cap: int, k: Key)
    requires Once(g, k) && Enabled(g, a)
    requires a.Claim? && a.op.key == k ==> !Evicted(g.history, cap, k)
    ensures Once(Next(g, a, cap), k)
  {
    match a
    case Claim(w, op) => ClaimKeepsOnce(g, w, op, cap, k);
    case Report(w, op) => ReportKeepsOnce(g, w, op, cap, k);
    case Effect(w, ok) =>
      assert Holds(At(g, w), At(g, w).key);
      assert forall v :: v != w ==> At(Next(g, a, cap), v) == At(g, v);
    case Crash(w) =>
      assert forall v :: v != w ==> At(Next(g, a, cap), v) == At(g, v);
    case Stutter =>
  }

  /** Main result: over every interleaving of any number of workers, with crashes between claim,
      effect and report, a key's effect completes successfully at most once, provided no claim is
      made while the key is evicted. */
  lemma {:induction false} AtMostOnce(states: seq<State>, actions: seq<Action>, cap: int, k: Key, n: nat)
    requires IsRun(states, actions, cap) && n < |states|
    requires Retained(states, actions, cap, k)
    ensures states[n].effects[k] <= 1
    ensures Once(states[n], k)
  {
    if n > 0 {
      AtMostOnce(states, actions, cap, k, n - 1);
      OncePreserved(states[n - 1], actions[n - 1], cap, k);
    }
  }

  /** With an unbounded ledger no hypothesis is left. */
  lemma AtMostOnceUncapped(states: seq<State>, actions: seq<Action>, cap: int, k: Key, n: nat)
    requires IsRun(states, actions, cap) && n < |states|
    requires cap <= 0
    ensures states[n].effects[k] <= 1
  {
    AtMostOnce(states, actions, cap, k, n);
  }

  // ---------------------------------------------------------------- what a succeeded record says

  /** A success that is on record, or about to be reported, has happened. */
  ghost predicate Truthful(g: State, k: Key) {
    && (Latest(g.history, k).Some? && Latest(g.history, k).value.status == Succeeded ==> g.effects[k] >= 1)
    && (forall w :: At(g, w) == Ran(k, true) ==> g.effects[k] >= 1)
  }

  lemma TruthfulPreserved(g: State, a: Action, cap: int, k: Key)
    requires Truthful(g, k) && Enabled(g, a)
    ensures Truthful(Next(g, a, cap), k)
  {
    var g' := Next(g, a, cap);
    if a.Claim? || a.Report? {
      AppendedLatest(g.history, NewRecord(Window(g.history, cap), a.op), k);
    }
    if a.Report? && a.op.key == k { assert At(g, a.worker) == Ran(k, true) || a.op.status == Failed; }
    forall w | At(g', w) == Ran(k, true) ensures g'.effects[k] >= 1 {
      assert At(g, w) == Ran(k, true) || (a.Effect? && a.worker == w);
    }
  }

  /** A key whose latest record is succeeded has had its effect, whatever was evicted and whoever
      crashed; so being refused by such a record is no loss. */
  lemma {:induction false} SucceededIsTrue(states: seq<State>, actions: seq<Action>, cap: int, k: Key, n: nat)
    requires IsRun(states, actions, cap) && n < |states|
    ensures Truthful(states[n], k)
  {
    if n > 0 {
      SucceededIsTrue(states, actions, cap, k, n - 1);
      TruthfulPreserved(states[n - 1], actions[n - 1], cap, k);
    }
  }

  lemma Extend(states: seq<State>, actions: seq<Action>, a: Action, cap: int)
    returns (states': seq<State>, actions': seq<Action>)
    requires IsRun(states, actions, cap) && Enabled(states[|states| - 1], a)
    ensures IsRun(states', actions', cap)
    ensures states'[|states'| - 1] == Next(states[|states| - 1], a, cap)
  {
    states' := states + [Next(states[|states| - 1], a, cap)];
    actions' := actions + [a];
    forall i | 0 <= i < |actions'|
      ensures Enabled(states'[i], actions'[i]) && states'[i + 1] == Next(states'[i], actions'[i], cap)
    {
      if i < |actions| {
        assert states'[i] == states[i] && states'[i + 1] == states[i + 1] && actions'[i] == actions[i];
      }
    }
  }

  /** The hypothesis is needed: with a cap of one, a claim on another key evicts the first key, and its
      effect completes twice. */
  lemma EvictionRepeatsEffect(k: Key, other: Key) returns (states: seq<State>, actions: seq<Action>)
    requires k != other
    ensures IsRun(states, actions, 1)
    ensures states[|states| - 1].effects[k] == 2
  {
    var first, second := Start(k, JobRunKind, 0, None, map[]), Start(other, JobRunKind, 0, None, map[]);
    var r, r' := RecordAfter(None, first), RecordAfter(None, second);
    assert Latest([], k) == None && Latest([r], other) == None && Latest([r'], k) == None;
    states, actions := Extend([INIT], [], Claim(0, first), 1);
    states, actions := Extend(states, actions, Effect(0, true), 1);
    states, actions := Extend(states, actions, Claim(1, second), 1);
    assert states[|states| - 1].history == [r, r'] && Window([r, r'], 1) == [r'];
    states, actions := Extend(states, actions, Claim(2, first), 1);
    states, actions := Extend(states, actions, Effect(2, true), 1);
  }
}
