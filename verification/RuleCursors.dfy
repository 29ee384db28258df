/** What a rule remembers of the items it has processed: a timestamp cursor and a bounded list of
    ids, most recent last. */
module RuleCursors {
  import opened Sequences

  datatype Item = Item(id: string, ts: Option<int>, text: string)

  datatype Cursor = Cursor(seen: seq<string>, seenMax: int, last: Option<int>)

  predicate IsNew(c: Cursor, item: Item) {
    item.id !in c.seen && !(c.last.Some? && item.ts.Some? && item.ts.value <= c.last.value)
  }

  function FilterNew(c: Cursor, items: seq<Item>): seq<Item> {
    if items == [] then []
    else
      var before, last := FilterNew(c, items[..|items| - 1]), items[|items| - 1];
      if IsNew(c, last) then before + [last] else before
  }

  /** The candidates are the new items, and nothing else. */
  lemma {:induction false} FilterNewContents(c: Cursor, items: seq<Item>, item: Item)
    ensures item in FilterNew(c, items) <==> item in items && IsNew(c, item)
  {
    if items != [] {
      FilterNewContents(c, items[..|items| - 1], item);
      assert items == items[..|items| - 1] + [items[|items| - 1]];
    }
  }

  function MoveToEnd(seen: seq<string>, id: string): seq<string> {
    Without(seen, id) + [id]
  }

  function MoveAll(seen: seq<string>, ids: seq<string>): seq<string> {
    if ids == [] then seen else MoveToEnd(MoveAll(seen, ids[..|ids| - 1]), ids[|ids| - 1])
  }

  function Later(a: Option<int>, b: Option<int>): Option<int> {
    if b.None? then a else if a.None? || b.value > a.value then b else a
  }

  /** The running maximum of the timestamps, starting from `last`. */
  function LatestTime(last: Option<int>, items: seq<Item>): Option<int> {
    if items == [] then last else Later(LatestTime(last, items[..|items| - 1]), items[|items| - 1].ts)
  }

  function Ids(items: seq<Item>): (ids: seq<string>)
    ensures |ids| == |items| && forall i :: 0 <= i < |ids| ==> ids[i] == items[i].id
  {
    seq(|items|, i requires 0 <= i < |items| => items[i].id)
  }

  function SeenLimit(seenMax: int): (n: nat)
    ensures n >= 1
  {
    if seenMax < 1 then 1 else seenMax
  }

  function Update(c: Cursor, items: seq<Item>): Cursor {
    if items == [] then c
    else Cursor(LastN(MoveAll(c.seen, Ids(items)), SeenLimit(c.seenMax)), c.seenMax, LatestTime(c.last, items))
  }

  lemma OneMoreItem(seen: seq<string>, last: Option<int>, items: seq<Item>, i: nat)
    requires i < |items|
    ensures MoveAll(seen, Ids(items[..i + 1])) == MoveToEnd(MoveAll(seen, Ids(items[..i])), items[i].id)
    ensures LatestTime(last, items[..i + 1]) == Later(LatestTime(last, items[..i]), items[i].ts)
  {
    var upto := items[..i + 1];
    assert upto[..i] == items[..i] && Ids(upto)[..i] == Ids(items[..i]);
  }

  class RuleState {
    var seenIds: seq<string>
    var seenIdsMax: int
    var lastCursor: Option<int>
    var cooldownUntil: Option<int>
    var lastRun: Option<int>
    var lastMatch: Option<int>

    constructor (cursor: Cursor, cooldownUntil: Option<int>, lastRun: Option<int>, lastMatch: Option<int>)
      ensures AsCursor() == cursor && this.cooldownUntil == cooldownUntil
      ensures this.lastRun == lastRun && this.lastMatch == lastMatch
    {
      seenIds, seenIdsMax, lastCursor := cursor.seen, cursor.seenMax, cursor.last;
      this.cooldownUntil, this.lastRun, this.lastMatch := cooldownUntil, lastRun, lastMatch;
    }

    function AsCursor(): Cursor reads this {
      Cursor(seenIds, seenIdsMax, lastCursor)
    }

    method FilterNewItems(items: seq<Item>) returns (newItems: seq<Item>)
      ensures newItems == FilterNew(AsCursor(), items)
    {
      var seen := set id | id in seenIds;
      newItems := [];
      for i := 0 to |items|
        invariant newItems == FilterNew(AsCursor(), items[..i])
      {
        assert items[..i + 1][..i] == items[..i];
        var item := items[i];
        if item.id in seen { continue; }
        if lastCursor.Some? && item.ts.Some? && item.ts.value <= lastCursor.value { continue; }
        newItems := newItems + [item];
      }
      assert items[..|items|] == items;
    }

    method UpdateCursors(items: seq<Item>)
      modifies `seenIds, `lastCursor
      ensures AsCursor() == Update(old(AsCursor()), items)
    {
      if items == [] { return; }
      var seen := seenIds;
      var seenSet := set id | id in seen;
      var max := lastCursor;
      for i := 0 to |items|
        invariant AsCursor() == old(AsCursor())
        invariant seen == MoveAll(seenIds, Ids(items[..i]))
        invariant forall id :: id in seenSet <==> id in seen
        invariant max == LatestTime(lastCursor, items[..i])
      {
        OneMoreItem(seenIds, lastCursor, items, i);
        var item := items[i];
        if item.id in seenSet {
          seen := Without(seen, item.id);
        } else {
          WithoutAbsent(seen, item.id);
          seenSet := seenSet + {item.id};
        }
        seen := seen + [item.id];
        if item.ts.Some? && (max.None? || item.ts.value > max.value) {
          max := item.ts;
        }
      }
      assert items[..|items|] == items;
      var limit := SeenLimit(seenIdsMax);
      seenIds := LastN(seen, limit);
      lastCursor := max;
    }
  }

  // ---------------------------------------------------------------- runs of evaluations

  /** A completed evaluation processes exactly the new items. */
  function Evaluate(c: Cursor, items: seq<Item>): Cursor {
    Update(c, FilterNew(c, items))
  }

  function After(c: Cursor, triggers: seq<seq<Item>>, n: nat): Cursor
    requires n <= |triggers|
  {
    if n == 0 then c else Evaluate(After(c, triggers, n - 1), triggers[n - 1])
  }

  /** Everything the first `n` evaluations processed, in order. */
  function Processed(c: Cursor, triggers: seq<seq<Item>>, n: nat): seq<Item>
    requires n <= |triggers|
  {
    if n == 0 then []
    else Processed(c, triggers, n - 1) + FilterNew(After(c, triggers, n - 1), triggers[n - 1])
  }

  /** The ids of a log listed once each, in order of last occurrence. */
  function Recency(log: seq<string>): (r: seq<string>)
    ensures forall x :: x in r <==> x in log
  {
    if log == [] then []
    else if log[0] in log[1..] then Recency(log[1..])
    else [log[0]] + Recency(log[1..])
  }

  lemma {:induction false} RecencyDistinct(log: seq<string>)
    ensures Distinct(Recency(log))
  {
    if log != [] {
      RecencyDistinct(log[1..]);
    }
  }

  lemma RecencyOfCons(a: string, t: seq<string>)
    ensures Recency([a] + t) == if a in t then Recency(t) else [a] + Recency(t)
  {
    assert ([a] + t)[1..] == t;
  }

  lemma {:induction false} RecencyExtend(log: seq<string>, x: string)
    ensures Recency(log + [x]) == MoveToEnd(Recency(log), x)
  {
    if log == [] {
      assert log + [x] == [x];
    } else {
      var a, rest := log[0], log[1..];
      assert log + [x] == [a] + (rest + [x]) && log == [a] + rest;
      RecencyExtend(rest, x);
      RecencyOfLonger(a, rest, x);
    }
  }

  lemma RecencyOfLonger(a: string, rest: seq<string>, x: string)
    requires Recency(rest + [x]) == MoveToEnd(Recency(rest), x)
    ensures Recency([a] + (rest + [x])) == MoveToEnd(Recency([a] + rest), x)
  {
    RecencyOfCons(a, rest + [x]);
    RecencyOfCons(a, rest);
    WithoutCons(a, Recency(rest), x);
  }

  lemma {:induction false} MoveAllIsRecency(log: seq<string>, more: seq<string>)
    ensures MoveAll(Recency(log), more) == Recency(log + more)
  {
    if more == [] {
      assert log + more == log;
    } else {
      var front, x := more[..|more| - 1], more[|more| - 1];
      MoveAllIsRecency(log, front);
      RecencyExtend(log + front, x);
      assert log + front + [x] == log + more;
    }
  }

  /** One move, seen through the last `n`, depends only on the last `n` before it. */
  lemma MoveCommutesWithTruncation(s: seq<string>, x: string, n: nat)
    requires Distinct(s) && n >= 1
    ensures LastN(MoveToEnd(LastN(s, n), x), n) == LastN(MoveToEnd(s, x), n)
  {
    if |s| > n {
      var p, q := s[..|s| - n], s[|s| - n..];
      assert s == p + q && LastN(s, n) == q;
      MoveInTail(p, q, x);
      LastNOfTail(if x in q then p else Without(p, x), MoveToEnd(q, x), n);
    }
  }

  /** Moving `x` rewrites the tail that holds it, or else only removes it from before the tail. */
  lemma MoveInTail(p: seq<string>, q: seq<string>, x: string)
    requires Distinct(p + q)
    ensures MoveToEnd(p + q, x) == (if x in q then p else Without(p, x)) + MoveToEnd(q, x)
    ensures |MoveToEnd(q, x)| >= |q|
  {
    WithoutConcat(p, q, x);
    assert Distinct(q) by {
      forall i, j | 0 <= i < j < |q| ensures q[i] != q[j] {
        assert (p + q)[|p| + i] == q[i] && (p + q)[|p| + j] == q[j];
      }
    }
    WithoutDistinct(q, x);
    if x in q {
      var j :| 0 <= j < |q| && q[j] == x;
      assert (p + q)[|p| + j] == x;
      assert forall i :: 0 <= i < |p| ==> (p + q)[i] == p[i];
      WithoutAbsent(p, x);
    }
    assert Without(p, x) + Without(q, x) + [x] == Without(p, x) + (Without(q, x) + [x]);
  }

  lemma MoveKeepsDistinct(s: seq<string>, x: string)
    requires Distinct(s)
    ensures Distinct(MoveToEnd(s, x))
  {
    WithoutDistinct(s, x);
  }

  /** So truncating after every evaluation commutes with all the moves. */
  lemma {:induction false} MovesCommuteWithTruncation(s: seq<string>, ids: seq<string>, n: nat)
    requires Distinct(s) && n >= 1
    ensures LastN(MoveAll(LastN(s, n), ids), n) == LastN(MoveAll(s, ids), n)
    ensures Distinct(MoveAll(LastN(s, n), ids)) && Distinct(MoveAll(s, ids))
  {
    if ids != [] {
      var front, x := ids[..|ids| - 1], ids[|ids| - 1];
      MovesCommuteWithTruncation(s, front, n);
      MoveCommutesWithTruncation(MoveAll(LastN(s, n), front), x, n);
      MoveCommutesWithTruncation(MoveAll(s, front), x, n);
      MoveKeepsDistinct(MoveAll(LastN(s, n), front), x);
      MoveKeepsDistinct(MoveAll(s, front), x);
    }
  }

  lemma IdsConcat(a: seq<Item>, b: seq<Item>)
    ensures Ids(a + b) == Ids(a) + Ids(b)
  {
  }

  /** Main result: starting empty, after any number of evaluations the seen list is the last
      `seenMax` of all processed ids, listed once each in order of last occurrence. */
  lemma {:induction false} SeenListIsRecentIds(seenMax: int, triggers: seq<seq<Item>>, n: nat)
    requires n <= |triggers|
    ensures var c := Cursor([], seenMax, None);
      && After(c, triggers, n).seenMax == seenMax
      && After(c, triggers, n).seen == LastN(Recency(Ids(Processed(c, triggers, n))), SeenLimit(seenMax))
  {
    var c := Cursor([], seenMax, None);
    if n > 0 {
      SeenListIsRecentIds(seenMax, triggers, n - 1);
      var log := Ids(Processed(c, triggers, n - 1));
      var newItems := FilterNew(After(c, triggers, n - 1), triggers[n - 1]);
      IdsConcat(Processed(c, triggers, n - 1), newItems);
      if newItems == [] {
        assert log + Ids(newItems) == log;
      } else {
        RecencyDistinct(log);
        MovesCommuteWithTruncation(Recency(log), Ids(newItems), SeenLimit(seenMax));
        MoveAllIsRecency(log, Ids(newItems));
      }
    }
  }

  /** The list is duplicate-free and never longer than the limit. */
  lemma SeenListIsBounded(seenMax: int, triggers: seq<seq<Item>>, n: nat)
    requires n <= |triggers|
    ensures var c := After(Cursor([], seenMax, None), triggers, n);
      Distinct(c.seen) && |c.seen| <= SeenLimit(seenMax)
  {
    SeenListIsRecentIds(seenMax, triggers, n);
    RecencyDistinct(Ids(Processed(Cursor([], seenMax, None), triggers, n)));
  }

  // ---------------------------------------------------------------- no re-firing

  predicate AtMost(t: int, bound: Option<int>) {
    bound.Some? && t <= bound.value
  }

  lemma {:induction false} LatestBounds(last: Option<int>, items: seq<Item>)
    ensures last.Some? ==> AtMost(last.value, LatestTime(last, items))
    ensures forall i :: i in items && i.ts.Some? ==> AtMost(i.ts.value, LatestTime(last, items))
    ensures LatestTime(last, items) != last ==> exists i :: i in items && i.ts == LatestTime(last, items)
  {
    if items != [] {
      LatestBounds(last, items[..|items| - 1]);
      assert items == items[..|items| - 1] + [items[|items| - 1]];
    }
  }

  /** The cursor is the running maximum: it never goes back. */
  lemma {:induction false} CursorNeverGoesBack(c: Cursor, triggers: seq<seq<Item>>, i: nat, n: nat, t: int)
    requires i <= n <= |triggers| && AtMost(t, After(c, triggers, i).last)
    ensures AtMost(t, After(c, triggers, n).last)
  {
    if i < n {
      CursorNeverGoesBack(c, triggers, i, n - 1, t);
      var before := After(c, triggers, n - 1);
      LatestBounds(before.last, FilterNew(before, triggers[n - 1]));
    }
  }

  /** Main result, timestamped items: once a completed evaluation has processed an item, nothing with
      the same or an earlier timestamp is ever a candidate again, under this id or any other. */
  lemma TimestampedNeverRefires(c: Cursor, triggers: seq<seq<Item>>, i: nat, n: nat, item: Item, again: Item)
    requires i < n <= |triggers|
    requires item in FilterNew(After(c, triggers, i), triggers[i]) && item.ts.Some?
    requires again.ts.Some? && again.ts.value <= item.ts.value
    ensures !IsNew(After(c, triggers, n), again)
  {
    ProcessedByStep(c, triggers, i, item);
    BlockedFrom(c, triggers, i + 1, n, item.ts.value, again);
  }

  lemma BlockedFrom(c: Cursor, triggers: seq<seq<Item>>, i: nat, n: nat, t: int, again: Item)
    requires i <= n <= |triggers| && AtMost(t, After(c, triggers, i).last)
    requires again.ts.Some? && again.ts.value <= t
    ensures !IsNew(After(c, triggers, n), again)
  {
    CursorNeverGoesBack(c, triggers, i, n, t);
    CursorBlocks(After(c, triggers, n), t, again);
  }

  lemma CursorBlocks(c: Cursor, t: int, again: Item)
    requires AtMost(t, c.last) && again.ts.Some? && again.ts.value <= t
    ensures !IsNew(c, again)
  {
  }

  lemma ProcessedByStep(c: Cursor, triggers: seq<seq<Item>>, i: nat, item: Item)
    requires i < |triggers| && item in FilterNew(After(c, triggers, i), triggers[i]) && item.ts.Some?
    ensures AtMost(item.ts.value, After(c, triggers, i + 1).last)
  {
    ProcessedMovesCursor(After(c, triggers, i), triggers[i], item);
  }

  lemma ProcessedMovesCursor(c: Cursor, trigger: seq<Item>, item: Item)
    requires item in FilterNew(c, trigger) && item.ts.Some?
    ensures AtMost(item.ts.value, Evaluate(c, trigger).last)
  {
    LatestBounds(c.last, FilterNew(c, trigger));
  }

  /** The part of a log after the last occurrence of `x`. */
  function Since(log: seq<string>, x: string): seq<string>
    requires x in log
  {
    if x in log[1..] then Since(log[1..], x) else log[1..]
  }

  lemma {:induction false} RecencySplit(log: seq<string>, x: string) returns (a: seq<string>, b: seq<string>)
    requires x in log
    ensures Recency(log) == a + [x] + b && x !in a && x !in b
    ensures Distinct(b) && forall y :: y in b <==> y in Since(log, x)
  {
    RecencyDistinct(log);
    var rest := log[1..];
    if x in rest {
      a, b := RecencySplit(rest, x);
      if log[0] !in rest {
        a := [log[0]] + a;
      }
    } else {
      a, b := [], Recency(rest);
      RecencyDistinct(rest);
    }
  }

  lemma {:induction false} DistinctSize(s: seq<string>)
    requires Distinct(s)
    ensures |set x | x in s| == |s|
  {
    if s != [] {
      var rest := s[1..];
      DistinctSize(rest);
      assert s == [s[0]] + rest;
      assert (set x | x in s) == {s[0]} + (set x | x in rest);
    }
  }

  /** `x` is among the last `n` exactly when fewer than `n` distinct ids came after it. */
  lemma RetainedIffFewSince(log: seq<string>, x: string, n: nat)
    requires x in log && n >= 1
    ensures x in LastN(Recency(log), n) <==> |set y | y in Since(log, x)| < n
  {
    var a, b := RecencySplit(log, x);
    DistinctSize(b);
    assert (set y | y in b) == (set y | y in Since(log, x));
    var r := Recency(log);
    if |b| < n {
      assert LastN(r, n)[|LastN(r, n)| - 1 - |b|] == x;
    } else {
      assert LastN(r, n) == b[|b| - n..];
    }
  }

  /** Main result, untimestamped items: an id is a candidate again exactly when it was never
      processed, or at least `seenMax` distinct other ids have been processed since. */
  lemma UntimestampedRefiresIffForgotten(seenMax: int, triggers: seq<seq<Item>>, n: nat, item: Item)
    requires n <= |triggers| && item.ts.None?
    ensures var c := Cursor([], seenMax, None);
      var log := Ids(Processed(c, triggers, n));
      IsNew(After(c, triggers, n), item)
      <==> item.id !in log || |set y | y in Since(log, item.id)| >= SeenLimit(seenMax)
  {
    SeenListIsRecentIds(seenMax, triggers, n);
    var log := Ids(Processed(Cursor([], seenMax, None), triggers, n));
    if item.id in log {
      RetainedIffFewSince(log, item.id, SeenLimit(seenMax));
    }
  }

  // ---------------------------------------------------------------- runs with gaps

  /** An evaluation that did not complete leaves no trace. */
  function StepCursor(c: Cursor, trigger: Option<seq<Item>>): Cursor {
    if trigger.Some? then Evaluate(c, trigger.value) else c
  }

  function Extended(triggers: seq<seq<Item>>, trigger: Option<seq<Item>>): seq<seq<Item>> {
    if trigger.Some? then triggers + [trigger.value] else triggers
  }

  lemma {:induction false} AfterIgnoresLater(c: Cursor, triggers: seq<seq<Item>>, last: seq<Item>, n: nat)
    requires n <= |triggers|
    ensures After(c, triggers + [last], n) == After(c, triggers, n)
  {
    if n > 0 {
      AfterIgnoresLater(c, triggers, last, n - 1);
    }
  }

  lemma AfterExtended(c: Cursor, triggers: seq<seq<Item>>, trigger: Option<seq<Item>>)
    ensures var more := Extended(triggers, trigger);
      After(c, more, |more|) == StepCursor(After(c, triggers, |triggers|), trigger)
  {
    if trigger.Some? {
      AfterIgnoresLater(c, triggers, trigger.value, |triggers|);
    }
  }

  // ---------------------------------------------------------------- saving and loading

  /** What the rule store does to the cursor whenever it reads or writes a rule. */
  function Migrate(c: Cursor): Cursor {
    var max := if c.seenMax <= 0 then 200 else c.seenMax;
    c.(seenMax := max, seen := LastN(c.seen, max))
  }

  /** A cursor that has been through the store stays so through an evaluation. */
  lemma MigratedStays(c: Cursor, trigger: Option<seq<Item>>)
    requires Migrate(c) == c
    ensures Migrate(StepCursor(c, trigger)) == StepCursor(c, trigger)
  {
  }

  /** Saving and loading between evaluations changes nothing once a rule has been through the store. */
  lemma {:induction false} StoreIsInvisible(c: Cursor, triggers: seq<seq<Item>>, n: nat)
    requires n <= |triggers|
    ensures Migrate(After(Migrate(c), triggers, n)) == After(Migrate(c), triggers, n)
  {
    if n > 0 {
      StoreIsInvisible(c, triggers, n - 1);
    }
  }
}
