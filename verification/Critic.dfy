/** The plan critic: it refuses steps that cannot be meant, and normalises the rest in place. */
module Critic {
  import opened Sequences

  // ---------------------------------------------------------------- stripping white space

  /** The characters that `str.strip` removes. */
  predicate IsSpace(c: char) {
    var n := c as int;
    || 9 <= n <= 13 || 28 <= n <= 32 || n == 0x85 || n == 0xA0 || n == 0x1680 || 0x2000 <= n <= 0x200A
    || n == 0x2028 || n == 0x2029 || n == 0x202F || n == 0x205F || n == 0x3000
  }

  /** The first position from `i` on that is not white space, or the end. */
  function SkipSpace(s: string, i: nat): (j: nat)
    requires i <= |s|
    ensures i <= j <= |s|
    ensures j < |s| ==> !IsSpace(s[j])
    decreases |s| - i
  {
    if i < |s| && IsSpace(s[i]) then SkipSpace(s, i + 1) else i
  }

  /** The end, from `j` back to `i`, without the white space before it. */
  function DropSpace(s: string, i: nat, j: nat): (k: nat)
    requires i <= j <= |s|
    ensures i <= k <= j
    ensures k > i ==> !IsSpace(s[k - 1])
  {
    if i < j && IsSpace(s[j - 1]) then DropSpace(s, i, j - 1) else j
  }

  function Strip(s: string): string {
    var i := SkipSpace(s, 0);
    s[i..DropSpace(s, i, |s|)]
  }

  /** Neither end is white space. */
  predicate Trimmed(s: string) {
    s == "" || (!IsSpace(s[0]) && !IsSpace(s[|s| - 1]))
  }

  lemma StripTrims(s: string)
    ensures Trimmed(Strip(s))
    ensures Trimmed(s) <==> Strip(s) == s
  {
    var i := SkipSpace(s, 0);
    var k := DropSpace(s, i, |s|);
    if i < k {
      assert Strip(s)[0] == s[i] && Strip(s)[k - i - 1] == s[k - 1];
    }
  }

  // ---------------------------------------------------------------- payloads

  datatype Json = Null | Text(text: string) | List(items: seq<Json>) | Other(shown: string, truthy: bool)

  /** The payload fields the critic looks at, and every other one. */
  datatype Field = StartIso | EndIso | Timezone | To | Subject | Message | RunAtIso | OtherField(name: string)

  datatype Skill = CreateEvent | DraftEmail | CreateReminder | OtherSkill(name: string)

  type Fields = map<Field, Json>

  datatype Args = NotJson(raw: string) | Object(fields: Fields)

  datatype Step = Step(id: string, skill: Skill, args: Args)

  function Get(fields: Fields, name: Field): Json {
    if name in fields then fields[name] else Null
  }

  /** A parsed time, with an offset of its own or local to some zone. */
  datatype Moment = Aware(utc: int) | Naive(local: int)

  /** What the critic takes from elsewhere: the ISO parser and printer, the time zone database, how a
      value prints, and the default zone it was given. */
  datatype Lore = Lore(parse: string -> Option<Moment>, print_: int -> string, zones: set<string>,
                       toUtc: (string, int) -> int, show: Json -> string, defaultZone: string)

  predicate ZoneName(z: string) {
    z != "" && Trimmed(z)
  }

  predicate PrintsBack(lore: Lore, t: int) {
    lore.parse(lore.print_(t)) == Some(Aware(t)) && Strip(lore.print_(t)) != ""
  }

  /** Zone names are trimmed and not empty, and a printed time reads back. */
  ghost predicate Sane(lore: Lore) {
    && (forall z :: z in lore.zones ==> ZoneName(z))
    && (forall t: int :: PrintsBack(lore, t))
  }

  predicate DefaultIsValid(lore: Lore) {
    lore.defaultZone in lore.zones
  }

  function Shown(lore: Lore, j: Json): string {
    match j
    case Null => "None"
    case Text(t) => t
    case _ => lore.show(j)
  }

  /** `str(value or "")`. */
  function ShownOrEmpty(lore: Lore, j: Json): string {
    match j
    case Null => ""
    case List(items) => if items == [] then "" else lore.show(j)
    case Other(shown, truthy) => if truthy then lore.show(j) else ""
    case Text(t) => t
  }

  function ParseIso(lore: Lore, value: Json, zone: Json): Option<int> {
    if !value.Text? || Strip(value.text) == "" then None
    else
      var parsed := lore.parse(value.text);
      if parsed.None? then None
      else
        match parsed.value
        case Aware(utc) => Some(utc)
        case Naive(local) =>
          var name := if zone.Null? then lore.defaultZone else Strip(Shown(lore, zone));
          if name in lore.zones then Some(lore.toUtc(name, local)) else None
  }

  // ---------------------------------------------------------------- one step

  datatype Problem =
    | BadJson | BadTimes | BadZone(name: string) | EndsTooEarly | NoRecipient | NoMessage | BadRunTime

  datatype Warning = FarFuture | LongDuration | EmptySubject

  datatype Change = Change(stepId: string, field: Field, before: Json, after: Json)

  datatype Outcome = Refused(problem: Problem) | Passed(step: Step, warnings: seq<Warning>, changes: seq<Change>)

  const TWO_YEARS := 63072000
  const EIGHT_HOURS := 28800
  const FIVE_MINUTES := 300

  function With(step: Step, name: Field, value: Json): Step
    requires step.args.Object?
  {
    step.(args := Object(step.args.fields[name := value]))
  }

  predicate BlankZone(lore: Lore, zone: Json) {
    zone.Null? || Strip(Shown(lore, zone)) == ""
  }

  function ReviewCalendar(lore: Lore, now: int, step: Step): Outcome {
    if step.args.NotJson? then Refused(BadJson)
    else
      var fields := step.args.fields;
      var zone := Get(fields, Timezone);
      var start, end := ParseIso(lore, Get(fields, StartIso), zone), ParseIso(lore, Get(fields, EndIso), zone);
      if start.None? || end.None? then Refused(BadTimes)
      else if !BlankZone(lore, zone) && Shown(lore, zone) !in lore.zones then Refused(BadZone(Shown(lore, zone)))
      else if end.value <= start.value then Refused(EndsTooEarly)
      else
        var warnings := (if start.value > now + TWO_YEARS then [FarFuture] else [])
          + (if end.value - start.value > EIGHT_HOURS then [LongDuration] else []);
        var zoned := Text(lore.defaultZone);
        if BlankZone(lore, zone)
        then Passed(With(step, Timezone, zoned), warnings, [Change(step.id, Timezone, zone, zoned)])
        else Passed(step, warnings, [])
  }

  /** The items of the recipient list; anything that is not a list counts as empty. */
  function Addressees(fields: Fields): seq<Json> {
    var to := Get(fields, To);
    if to.List? then to.items else []
  }

  /** The trimmed addresses that are not empty. */
  function TrimmedAddresses(lore: Lore, items: seq<Json>): seq<string> {
    if items == [] then []
    else
      var before, last := TrimmedAddresses(lore, items[..|items| - 1]), Address(lore, items[|items| - 1]);
      if last == "" then before else before + [last]
  }

  /** Each element once, at its first place. */
  function FirstOccurrences(xs: seq<string>): (r: seq<string>)
    ensures forall x :: x in r <==> x in xs
  {
    if xs == [] then []
    else
      var before, last := FirstOccurrences(xs[..|xs| - 1]), xs[|xs| - 1];
      assert xs == xs[..|xs| - 1] + [last];
      if last in before then before else before + [last]
  }

  function Recipients(lore: Lore, items: seq<Json>): seq<string> {
    FirstOccurrences(TrimmedAddresses(lore, items))
  }

  function Texts(xs: seq<string>): (r: seq<Json>)
    ensures |r| == |xs| && forall i :: 0 <= i < |xs| ==> r[i] == Text(xs[i])
  {
    seq(|xs|, i requires 0 <= i < |xs| => Text(xs[i]))
  }

  function ReviewGmail(lore: Lore, step: Step): Outcome {
    if step.args.NotJson? then Refused(BadJson)
    else
      var fields := step.args.fields;
      var items := Addressees(fields);
      var recipients := Recipients(lore, items);
      if recipients == [] then Refused(NoRecipient)
      else
        var warnings := if Strip(ShownOrEmpty(lore, Get(fields, Subject))) == "" then [EmptySubject] else [];
        if Texts(recipients) != items
        then Passed(With(step, To, List(Texts(recipients))), warnings,
                    [Change(step.id, To, List(items), List(Texts(recipients)))])
        else Passed(step, warnings, [])
  }

  function ReviewReminder(lore: Lore, now: int, step: Step): Outcome {
    if step.args.NotJson? then Refused(BadJson)
    else
      var fields := step.args.fields;
      var runAt := ParseIso(lore, Get(fields, RunAtIso), Get(fields, Timezone));
      if Strip(ShownOrEmpty(lore, Get(fields, Message))) == "" then Refused(NoMessage)
      else if runAt.None? then Refused(BadRunTime)
      else if runAt.value <= now then
        var adjusted := Text(lore.print_(now + FIVE_MINUTES));
        Passed(With(step, RunAtIso, adjusted), [], [Change(step.id, RunAtIso, Get(fields, RunAtIso), adjusted)])
      else Passed(step, [], [])
  }

  function ReviewStep(lore: Lore, now: int, step: Step): Outcome {
    match step.skill
    case CreateEvent => ReviewCalendar(lore, now, step)
    case DraftEmail => ReviewGmail(lore, step)
    case CreateReminder => ReviewReminder(lore, now, step)
    case OtherSkill(_) => Passed(step, [], [])
  }

  lemma TrimmedOneMore(lore: Lore, items: seq<Json>, i: nat)
    requires i < |items|
    ensures TrimmedAddresses(lore, items[..i + 1])
      == TrimmedAddresses(lore, items[..i]) + (if Address(lore, items[i]) == "" then [] else [Address(lore, items[i])])
  {
    assert items[..i + 1][..i] == items[..i];
  }

  lemma OccurrencesOneMore(xs: seq<string>, i: nat)
    requires i < |xs|
    ensures FirstOccurrences(xs[..i + 1])
      == FirstOccurrences(xs[..i]) + (if xs[i] in FirstOccurrences(xs[..i]) then [] else [xs[i]])
  {
    assert xs[..i + 1][..i] == xs[..i];
  }

  /** The draft's recipients, gathered in one pass and listed once each. */
  method GatherRecipients(lore: Lore, items: seq<Json>) returns (deduped: seq<string>)
    ensures deduped == Recipients(lore, items)
  {
    var normalized: seq<string> := [];
    for i := 0 to |items|
      invariant normalized == TrimmedAddresses(lore, items[..i])
    {
      TrimmedOneMore(lore, items, i);
      var candidate := Strip(Shown(lore, items[i]));
      if candidate != "" { normalized := normalized + [candidate]; }
    }
    assert items[..|items|] == items;
    deduped := [];
    for i := 0 to |normalized|
      invariant deduped == FirstOccurrences(normalized[..i])
    {
      OccurrencesOneMore(normalized, i);
      if normalized[i] !in deduped { deduped := deduped + [normalized[i]]; }
    }
    assert normalized[..|normalized|] == normalized;
  }

  method ReviewDraft(lore: Lore, step: Step) returns (outcome: Outcome)
    ensures outcome == ReviewGmail(lore, step)
  {
    if step.args.NotJson? { return Refused(BadJson); }
    var items := Addressees(step.args.fields);
    var deduped := GatherRecipients(lore, items);
    var reviewed, changes := step, [];
    if Texts(deduped) != items {
      reviewed := With(step, To, List(Texts(deduped)));
      changes := [Change(step.id, To, List(items), List(Texts(deduped)))];
    }
    if deduped == [] { return Refused(NoRecipient); }
    var warnings := [];
    if Strip(ShownOrEmpty(lore, Get(step.args.fields, Subject))) == "" { warnings := [EmptySubject]; }
    outcome := Passed(reviewed, warnings, changes);
  }

  // ---------------------------------------------------------------- the whole plan

  ghost predicate Accepts(lore: Lore, now: int, steps: seq<Step>) {
    forall i :: 0 <= i < |steps| ==> ReviewStep(lore, now, steps[i]).Passed?
  }

  function Normalised(lore: Lore, now: int, steps: seq<Step>): (r: seq<Step>)
    ensures |r| == |steps|
    ensures forall i :: 0 <= i < |r| ==> r[i] == AsReviewed(lore, now, steps[i])
  {
    seq(|steps|, i requires 0 <= i < |steps| => AsReviewed(lore, now, steps[i]))
  }

  function AsReviewed(lore: Lore, now: int, step: Step): Step {
    var o := ReviewStep(lore, now, step);
    if o.Passed? then o.step else step
  }

  function AllWarnings(lore: Lore, now: int, steps: seq<Step>): seq<Warning> {
    if steps == [] then []
    else
      var o := ReviewStep(lore, now, steps[|steps| - 1]);
      AllWarnings(lore, now, steps[..|steps| - 1]) + (if o.Passed? then o.warnings else [])
  }

  function AllChanges(lore: Lore, now: int, steps: seq<Step>): seq<Change> {
    if steps == [] then []
    else
      var o := ReviewStep(lore, now, steps[|steps| - 1]);
      AllChanges(lore, now, steps[..|steps| - 1]) + (if o.Passed? then o.changes else [])
  }

  datatype Verdict = Rejected(problem: Problem) | Accepted(warnings: seq<Warning>, changes: seq<Change>)

  /** Reviews the plan's steps in place, up to the first refusal: the steps before it stay changed, it
      and the steps after it are as they were. */
  method Review(lore: Lore, now: int, steps: array<Step>) returns (verdict: Verdict, reviewed: nat)
    modifies steps
    ensures reviewed <= steps.Length && Accepts(lore, now, old(steps[..])[..reviewed])
    ensures steps[..] == Normalised(lore, now, old(steps[..])[..reviewed]) + old(steps[..])[reviewed..]
    ensures match verdict
      case Accepted(warnings, changes) =>
        && reviewed == steps.Length
        && warnings == AllWarnings(lore, now, old(steps[..])) && changes == AllChanges(lore, now, old(steps[..]))
      case Rejected(problem) =>
        reviewed < steps.Length && ReviewStep(lore, now, old(steps[..])[reviewed]) == Refused(problem)
  {
    var warnings: seq<Warning>, changes: seq<Change> := [], [];
    ghost var was := steps[..];
    for i := 0 to steps.Length
      invariant Accepts(lore, now, was[..i])
      invariant forall k :: 0 <= k < i ==> steps[k] == AsReviewed(lore, now, was[k])
      invariant forall k :: i <= k < steps.Length ==> steps[k] == was[k]
      invariant warnings == AllWarnings(lore, now, was[..i]) && changes == AllChanges(lore, now, was[..i])
    {
      var outcome := ReviewOne(lore, now, steps[i]);
      if outcome.Refused? {
        PartlyNormalised(lore, now, was, steps[..], i);
        return Rejected(outcome.problem), i;
      }
      OneMoreStep(lore, now, was, i);
      warnings, changes := warnings + outcome.warnings, changes + outcome.changes;
      steps[i] := outcome.step;
    }
    assert was[..steps.Length] == was;
    PartlyNormalised(lore, now, was, steps[..], steps.Length);
    verdict, reviewed := Accepted(warnings, changes), steps.Length;
  }

  lemma PartlyNormalised(lore: Lore, now: int, was: seq<Step>, steps: seq<Step>, i: nat)
    requires |steps| == |was| && i <= |was|
    requires forall k :: 0 <= k < i ==> steps[k] == AsReviewed(lore, now, was[k])
    requires forall k :: i <= k < |was| ==> steps[k] == was[k]
    ensures steps == Normalised(lore, now, was[..i]) + was[i..]
  {
    forall k | 0 <= k < i ensures Normalised(lore, now, was[..i])[k] == steps[k] {
      assert was[..i][k] == was[k];
    }
  }

  lemma OneMoreStep(lore: Lore, now: int, steps: seq<Step>, i: nat)
    requires i < |steps| && Accepts(lore, now, steps[..i]) && ReviewStep(lore, now, steps[i]).Passed?
    ensures Accepts(lore, now, steps[..i + 1])
    ensures var o := ReviewStep(lore, now, steps[i]);
      && AllWarnings(lore, now, steps[..i + 1]) == AllWarnings(lore, now, steps[..i]) + o.warnings
      && AllChanges(lore, now, steps[..i + 1]) == AllChanges(lore, now, steps[..i]) + o.changes
  {
    assert steps[..i + 1][..i] == steps[..i];
    assert forall k :: 0 <= k < i ==> steps[..i + 1][k] == steps[..i][k];
  }

  method ReviewOne(lore: Lore, now: int, step: Step) returns (outcome: Outcome)
    ensures outcome == ReviewStep(lore, now, step)
  {
    if step.skill.DraftEmail? {
      outcome := ReviewDraft(lore, step);
    } else {
      outcome := ReviewStep(lore, now, step);
    }
  }

  // ---------------------------------------------------------------- what the critic promises

  /** What a reviewed step is worth, told from its payload alone. */
  ghost predicate Sound(lore: Lore, now: int, step: Step) {
    match step.skill
    case CreateEvent => SoundEvent(lore, step)
    case DraftEmail => SoundDraft(step)
    case CreateReminder => SoundReminder(lore, now, step)
    case OtherSkill(_) => true
  }

  /** The event has a known zone, and ends after it starts. */
  predicate SoundEvent(lore: Lore, step: Step) {
    && step.args.Object?
    && var zone := Get(step.args.fields, Timezone);
    var start, end := ParseIso(lore, Get(step.args.fields, StartIso), zone), ParseIso(lore, Get(step.args.fields, EndIso), zone);
    && start.Some? && end.Some? && start.value < end.value
    && !zone.Null? && Shown(lore, zone) in lore.zones
  }

  /** The recipients are texts, trimmed, not empty, and all different; and there is one. */
  ghost predicate SoundDraft(step: Step) {
    && step.args.Object?
    && exists names: seq<string> :: names != [] && Get(step.args.fields, To) == List(Texts(names)) && CleanNames(names)
  }

  ghost predicate CleanNames(names: seq<string>) {
    Distinct(names) && forall x :: x in names ==> x != "" && Trimmed(x)
  }

  predicate SoundReminder(lore: Lore, now: int, step: Step) {
    && step.args.Object?
    && Strip(ShownOrEmpty(lore, Get(step.args.fields, Message))) != ""
    && var runAt := ParseIso(lore, Get(step.args.fields, RunAtIso), Get(step.args.fields, Timezone));
    runAt.Some? && runAt.value > now
  }

  /** Putting the default zone in place of a missing one leaves every time what it was. */
  lemma DefaultZoneKeepsTimes(lore: Lore, value: Json, zone: Json)
    requires Sane(lore) && DefaultIsValid(lore) && BlankZone(lore, zone) && ParseIso(lore, value, zone).Some?
    ensures ParseIso(lore, value, Text(lore.defaultZone)) == ParseIso(lore, value, zone)
  {
    assert ZoneName(lore.defaultZone);
    StripTrims(lore.defaultZone);
    assert !ZoneName("");
  }

  lemma EventIsSound(lore: Lore, now: int, step: Step)
    requires Sane(lore) && DefaultIsValid(lore) && ReviewCalendar(lore, now, step).Passed?
    ensures SoundEvent(lore, ReviewCalendar(lore, now, step).step)
  {
    var fields := step.args.fields;
    var zone := Get(fields, Timezone);
    if BlankZone(lore, zone) {
      DefaultZoneKeepsTimes(lore, Get(fields, StartIso), zone);
      DefaultZoneKeepsTimes(lore, Get(fields, EndIso), zone);
    }
  }

  lemma {:induction false} AddressesAreTrimmed(lore: Lore, items: seq<Json>)
    ensures forall x :: x in TrimmedAddresses(lore, items) ==> x != "" && Trimmed(x)
  {
    if items != [] {
      AddressesAreTrimmed(lore, items[..|items| - 1]);
      StripTrims(Shown(lore, items[|items| - 1]));
    }
  }

  lemma {:induction false} FirstOccurrencesAreDistinct(xs: seq<string>)
    ensures Distinct(FirstOccurrences(xs))
    ensures Distinct(xs) ==> FirstOccurrences(xs) == xs
  {
    if xs != [] {
      var front := xs[..|xs| - 1];
      FirstOccurrencesAreDistinct(front);
      assert xs == front + [xs[|xs| - 1]];
      if Distinct(xs) {
        assert Distinct(front);
        assert xs[|xs| - 1] !in front;
      }
    }
  }

  lemma RecipientsAreClean(lore: Lore, items: seq<Json>)
    ensures CleanNames(Recipients(lore, items))
  {
    AddressesAreTrimmed(lore, items);
    FirstOccurrencesAreDistinct(TrimmedAddresses(lore, items));
  }

  lemma DraftIsSound(lore: Lore, step: Step)
    requires ReviewGmail(lore, step).Passed?
    ensures SoundDraft(ReviewGmail(lore, step).step)
  {
    var items := Addressees(step.args.fields);
    RecipientsAreClean(lore, items);
    assert Get(ReviewGmail(lore, step).step.args.fields, To) == List(Texts(Recipients(lore, items)));
  }

  lemma ReminderIsSound(lore: Lore, now: int, step: Step)
    requires Sane(lore) && ReviewReminder(lore, now, step).Passed?
    ensures SoundReminder(lore, now, ReviewReminder(lore, now, step).step)
  {
    assert PrintsBack(lore, now + FIVE_MINUTES);
  }

  lemma ReviewedStepIsSound(lore: Lore, now: int, step: Step)
    requires Sane(lore) && DefaultIsValid(lore) && ReviewStep(lore, now, step).Passed?
    ensures Sound(lore, now, ReviewStep(lore, now, step).step)
  {
    match step.skill
    case CreateEvent => EventIsSound(lore, now, step);
    case DraftEmail => DraftIsSound(lore, step);
    case CreateReminder => ReminderIsSound(lore, now, step);
    case OtherSkill(_) =>
  }

  /** Main result: every step of an accepted plan is sound. */
  lemma AcceptedPlanIsSound(lore: Lore, now: int, steps: seq<Step>)
    requires Sane(lore) && DefaultIsValid(lore) && Accepts(lore, now, steps)
    ensures forall i :: 0 <= i < |steps| ==> Sound(lore, now, Normalised(lore, now, steps)[i])
  {
    forall i | 0 <= i < |steps| ensures Sound(lore, now, Normalised(lore, now, steps)[i]) {
      ReviewedStepIsSound(lore, now, steps[i]);
    }
  }

  // ---------------------------------------------------------------- idempotence

  lemma OneMoreAddress(lore: Lore, items: seq<Json>, x: string)
    requires x != "" && Trimmed(x)
    ensures TrimmedAddresses(lore, items + [Text(x)]) == TrimmedAddresses(lore, items) + [x]
  {
    var more := items + [Text(x)];
    assert more[..|more| - 1] == items && more[|more| - 1] == Text(x);
    StripTrims(x);
  }

  lemma {:induction false} CleanNamesStay(lore: Lore, names: seq<string>)
    requires forall i :: 0 <= i < |names| ==> names[i] != "" && Trimmed(names[i])
    ensures TrimmedAddresses(lore, Texts(names)) == names
  {
    if names != [] {
      var front, last := names[..|names| - 1], names[|names| - 1];
      assert names == front + [last];
      CleanNamesStay(lore, front);
      OneMoreAddress(lore, Texts(front), last);
      assert Texts(names) == Texts(front) + [Text(last)];
    }
  }

  lemma SoundEventPassesUnchanged(lore: Lore, now: int, step: Step)
    requires Sane(lore) && SoundEvent(lore, step)
    ensures var o := ReviewCalendar(lore, now, step); o.Passed? && o.step == step && o.changes == []
  {
    var name := Shown(lore, Get(step.args.fields, Timezone));
    assert ZoneName(name);
    StripTrims(name);
  }

  lemma CleanRecipientsStay(lore: Lore, names: seq<string>)
    requires CleanNames(names)
    ensures Recipients(lore, Texts(names)) == names
  {
    assert forall i :: 0 <= i < |names| ==> names[i] in names;
    CleanNamesStay(lore, names);
    FirstOccurrencesAreDistinct(names);
  }

  lemma SoundDraftPassesUnchanged(lore: Lore, step: Step)
    requires SoundDraft(step)
    ensures var o := ReviewGmail(lore, step); o.Passed? && o.step == step && o.changes == []
  {
    var names: seq<string> :| names != [] && Get(step.args.fields, To) == List(Texts(names)) && CleanNames(names);
    CleanRecipientsStay(lore, names);
  }

  /** A sound step passes untouched. */
  lemma SoundStepPassesUnchanged(lore: Lore, now: int, step: Step)
    requires Sane(lore) && Sound(lore, now, step)
    ensures var o := ReviewStep(lore, now, step); o.Passed? && o.step == step && o.changes == []
  {
    match step.skill
    case CreateEvent => SoundEventPassesUnchanged(lore, now, step);
    case DraftEmail => SoundDraftPassesUnchanged(lore, step);
    case _ =>
  }

  lemma {:induction false} NoChangesAtAll(lore: Lore, now: int, steps: seq<Step>)
    requires forall i :: 0 <= i < |steps| ==> var o := ReviewStep(lore, now, steps[i]); o.Passed? && o.changes == []
    ensures AllChanges(lore, now, steps) == []
  {
    if steps != [] {
      NoChangesAtAll(lore, now, steps[..|steps| - 1]);
    }
  }

  /** Main result: reviewing an accepted plan again accepts it and changes nothing. */
  lemma ReviewIsIdempotent(lore: Lore, now: int, steps: seq<Step>)
    requires Sane(lore) && DefaultIsValid(lore) && Accepts(lore, now, steps)
    ensures var once := Normalised(lore, now, steps);
      Accepts(lore, now, once) && Normalised(lore, now, once) == once && AllChanges(lore, now, once) == []
  {
    var once := Normalised(lore, now, steps);
    AcceptedPlanIsSound(lore, now, steps);
    forall i | 0 <= i < |once|
      ensures var o := ReviewStep(lore, now, once[i]); o.Passed? && o.step == once[i] && o.changes == []
    {
      SoundStepPassesUnchanged(lore, now, once[i]);
    }
    NoChangesAtAll(lore, now, once);
  }

  /** An event that gets the default zone. */
  predicate TakesDefault(lore: Lore, step: Step) {
    step.skill.CreateEvent? && step.args.Object? && BlankZone(lore, Get(step.args.fields, Timezone))
  }

  /** What a second review makes of the default zone: it knows it, or fills it in again. */
  predicate DefaultPasses(lore: Lore) {
    DefaultIsValid(lore) || Strip(lore.defaultZone) == ""
  }

  /** A default that is no zone gives a missing zone no meaning, so such a time has its own offset. */
  lemma BlankTimesHaveOffsets(lore: Lore, value: Json, zone: Json)
    requires Sane(lore) && !DefaultIsValid(lore) && BlankZone(lore, zone) && ParseIso(lore, value, zone).Some?
    ensures ParseIso(lore, value, Text(lore.defaultZone)) == ParseIso(lore, value, zone)
  {
    assert !ZoneName("");
  }

  lemma EventAgain(lore: Lore, now: int, step: Step)
    requires Sane(lore) && ReviewCalendar(lore, now, step).Passed? && TakesDefault(lore, step)
    ensures ReviewCalendar(lore, now, ReviewCalendar(lore, now, step).step).Passed? <==> DefaultPasses(lore)
  {
    if DefaultIsValid(lore) {
      EventIsSound(lore, now, step);
      SoundEventPassesUnchanged(lore, now, ReviewCalendar(lore, now, step).step);
    } else {
      var fields := step.args.fields;
      BlankTimesHaveOffsets(lore, Get(fields, StartIso), Get(fields, Timezone));
      BlankTimesHaveOffsets(lore, Get(fields, EndIso), Get(fields, Timezone));
    }
  }

  lemma StepAgain(lore: Lore, now: int, step: Step)
    requires Sane(lore) && ReviewStep(lore, now, step).Passed?
    ensures ReviewStep(lore, now, AsReviewed(lore, now, step)).Passed? <==> DefaultPasses(lore) || !TakesDefault(lore, step)
  {
    if TakesDefault(lore, step) {
      EventAgain(lore, now, step);
    } else if step.skill.DraftEmail? {
      DraftIsSound(lore, step);
      SoundDraftPassesUnchanged(lore, AsReviewed(lore, now, step));
    } else if step.skill.CreateReminder? {
      ReminderIsSound(lore, now, step);
    }
  }

  /** Main result: the default zone is never checked when it is filled in. An accepted plan is accepted
      again exactly when the default is a zone, or blank and so filled in again, or no event takes it. */
  lemma SecondReviewDependsOnDefault(lore: Lore, now: int, steps: seq<Step>)
    requires Sane(lore) && Accepts(lore, now, steps)
    ensures Accepts(lore, now, Normalised(lore, now, steps))
      <==> DefaultPasses(lore) || forall i :: 0 <= i < |steps| ==> !TakesDefault(lore, steps[i])
  {
    var once := Normalised(lore, now, steps);
    forall i | 0 <= i < |steps|
      ensures ReviewStep(lore, now, once[i]).Passed? <==> DefaultPasses(lore) || !TakesDefault(lore, steps[i])
    {
      StepAgain(lore, now, steps[i]);
    }
  }

  // ---------------------------------------------------------------- what changes, and what does not

  /** The one field a review may write, by skill. */
  function Normalisable(skill: Skill): Field {
    match skill
    case CreateEvent => Timezone
    case DraftEmail => To
    case _ => RunAtIso
  }

  /** Main result: a review either leaves the step alone and reports nothing, or writes the one field
      that the skill normalises and reports that. */
  lemma OnlyNormalisedFieldsChange(lore: Lore, now: int, step: Step)
    requires ReviewStep(lore, now, step).Passed?
    ensures var o := ReviewStep(lore, now, step);
      || (o.changes == [] && o.step == step)
      || (&& |o.changes| == 1 && o.changes[0].stepId == step.id && o.changes[0].field == Normalisable(step.skill)
          && o.step.id == step.id && o.step.skill == step.skill && step.args.Object? && o.step.args.Object?
          && (forall f: Field :: Get(o.step.args.fields, f)
               == (if f == Normalisable(step.skill) then o.changes[0].after else Get(step.args.fields, f))))
  {
  }

  /** The event keeps its start and end, whatever zone it is given. */
  lemma EventTimesAreKept(lore: Lore, now: int, step: Step, name: Field)
    requires Sane(lore) && DefaultIsValid(lore) && ReviewCalendar(lore, now, step).Passed?
    requires name.StartIso? || name.EndIso?
    ensures var after := ReviewCalendar(lore, now, step).step.args.fields;
      ParseIso(lore, Get(after, name), Get(after, Timezone))
      == ParseIso(lore, Get(step.args.fields, name), Get(step.args.fields, Timezone))
  {
    var zone := Get(step.args.fields, Timezone);
    if BlankZone(lore, zone) {
      DefaultZoneKeepsTimes(lore, Get(step.args.fields, name), zone);
    }
  }

  /** What is left of an item that is taken as an address. */
  function Address(lore: Lore, item: Json): string {
    Strip(Shown(lore, item))
  }

  ghost predicate Addressed(lore: Lore, items: seq<Json>, x: string) {
    exists i :: 0 <= i < |items| && Address(lore, items[i]) == x
  }

  lemma AddressedBefore(lore: Lore, front: seq<Json>, last: Json, x: string)
    requires Addressed(lore, front, x)
    ensures Addressed(lore, front + [last], x)
  {
    var i :| 0 <= i < |front| && Address(lore, front[i]) == x;
    assert (front + [last])[i] == front[i];
  }

  lemma AddressedByOneMore(lore: Lore, items: seq<Json>, x: string)
    requires items != []
    ensures Addressed(lore, items, x)
      <==> Addressed(lore, items[..|items| - 1], x) || Address(lore, items[|items| - 1]) == x
  {
    var front, last := items[..|items| - 1], items[|items| - 1];
    assert items == front + [last];
    if Addressed(lore, front, x) {
      AddressedBefore(lore, front, last, x);
    }
    if Addressed(lore, items, x) && Address(lore, last) != x {
      var i :| 0 <= i < |items| && Address(lore, items[i]) == x;
      assert front[i] == items[i];
    }
  }

  lemma {:induction false} TrimmedAddressesAreAll(lore: Lore, items: seq<Json>, x: string)
    ensures x in TrimmedAddresses(lore, items) <==> x != "" && Addressed(lore, items, x)
  {
    if items != [] {
      TrimmedAddressesAreAll(lore, items[..|items| - 1], x);
      AddressedByOneMore(lore, items, x);
    }
  }

  /** The draft keeps every address that is more than white space, and gains none. */
  lemma EveryAddressIsKept(lore: Lore, items: seq<Json>, x: string)
    ensures x in Recipients(lore, items) <==> x != "" && Addressed(lore, items, x)
  {
    TrimmedAddressesAreAll(lore, items, x);
  }

  /** A reminder in the future keeps its time; a late one moves to five minutes from now. */
  lemma ReminderMovesOnlyWhenLate(lore: Lore, now: int, step: Step)
    requires Sane(lore) && ReviewReminder(lore, now, step).Passed?
    ensures var after := ReviewReminder(lore, now, step).step.args.fields;
      var was := ParseIso(lore, Get(step.args.fields, RunAtIso), Get(step.args.fields, Timezone));
      ParseIso(lore, Get(after, RunAtIso), Get(after, Timezone))
      == if was.Some? && was.value > now then was else Some(now + FIVE_MINUTES)
  {
    assert PrintsBack(lore, now + FIVE_MINUTES);
  }
}
