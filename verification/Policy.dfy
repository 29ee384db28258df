/** Scopes, skills and the permissions policy that gates them. */
module Policy {
  import opened Sequences

  const READ_SCOPES: set<string> :=
    {"filesystem.read", "web.read", "calendar.read", "gmail.read", "memory.read", "rules.read", "jobs.read"}

  const WRITE_SCOPES: set<string> :=
    {"reminders.write", "calendar.write", "gmail.draft", "gmail.send", "memory.write", "rules.write", "jobs.write"}

  const ALL_SCOPES: set<string> := READ_SCOPES + WRITE_SCOPES

  /** The lists of the overrides file; a missing or malformed one is absent. */
  datatype Overrides = Overrides(scopes: Option<set<string>>, rules: Option<set<string>>)

  /** In allowlist mode only the explicit scopes count; otherwise every read scope does too. */
  datatype PermissionsPolicy = PermissionsPolicy(allowlistMode: bool, explicit: set<string>, rulesAllowed: set<string>)
  {
    predicate IsScopeEnabled(scope: string) {
      if allowlistMode then scope in explicit else scope in READ_SCOPES || scope in explicit
    }

    /** Passes exactly when every scope is enabled, and names the disabled ones. */
    function CheckScopes(scopes: seq<string>): (r: (bool, set<string>))
      ensures r.0 <==> forall s :: s in scopes ==> IsScopeEnabled(s)
    {
      var disabled := set s | s in scopes && !IsScopeEnabled(s);
      assert disabled == {} ==> forall s :: s in scopes && !IsScopeEnabled(s) ==> s in disabled;
      (disabled == {}, disabled)
    }

    /** Passes exactly when every scope is one that rules may use. */
    function CheckRulesAllowlist(scopes: seq<string>): (r: (bool, set<string>))
      ensures r.0 <==> forall s :: s in scopes ==> s in rulesAllowed
    {
      var blocked := set s | s in scopes && s !in rulesAllowed;
      assert blocked == {} ==> forall s :: s in scopes && s !in rulesAllowed ==> s in blocked;
      (blocked == {}, blocked)
    }

    /** An override replaces the configured set, and can name known scopes only. */
    function ApplyOverrides(o: Overrides): PermissionsPolicy {
      PermissionsPolicy(allowlistMode,
                        if o.scopes.Some? then o.scopes.value * ALL_SCOPES else explicit,
                        if o.rules.Some? then o.rules.value * ALL_SCOPES else rulesAllowed)
    }

    /** The known scopes that are enabled, and what rules may use, as the snapshot lists them. */
    function Snapshot(): Overrides {
      Overrides(Some(set s | s in ALL_SCOPES && IsScopeEnabled(s)), Some(rulesAllowed))
    }
  }

  /** The policy that one object works with: the environment's settings, a blank rules list meaning the
      default one, then the overrides unless they are switched off. */
  function Configured(allowlistMode: bool, scopes: set<string>, rules: Option<set<string>>, overrides: Option<Overrides>): PermissionsPolicy {
    var p := PermissionsPolicy(allowlistMode, scopes, if rules.Some? then rules.value else {"reminders.write"});
    if overrides.Some? then p.ApplyOverrides(overrides.value) else p
  }

  /** Applying a policy's own snapshot to any policy of the same mode reproduces its answer on every
      known scope, whatever that policy allowed before. */
  lemma SnapshotRestores(p: PermissionsPolicy, q: PermissionsPolicy, scope: string)
    requires p.allowlistMode == q.allowlistMode && scope in ALL_SCOPES
    ensures q.ApplyOverrides(p.Snapshot()).IsScopeEnabled(scope) <==> p.IsScopeEnabled(scope)
    ensures scope in q.ApplyOverrides(p.Snapshot()).rulesAllowed <==> scope in p.rulesAllowed
  {
  }

  datatype Skill = Skill(writes: bool, requiredScopes: seq<string>)

  type Registry = map<string, Skill>

  const SKILL_SCOPE_DEFAULTS: map<string, seq<string>> :=
    map["filesystem" := ["filesystem.read"], "filesystem.search_read" := ["filesystem.read"],
        "web.search" := ["web.read"], "web_search" := ["web.read"],
        "calendar.search" := ["calendar.read"], "calendar.create_event" := ["calendar.write"],
        "gmail.search" := ["gmail.read"], "gmail.read_message" := ["gmail.read"],
        "gmail.thread_summary" := ["gmail.read"], "gmail.draft_email" := ["gmail.draft"],
        "reminders.create" := ["reminders.write"]]

  function DefaultScopes(skillName: string, writes: bool): seq<string> {
    if skillName in SKILL_SCOPE_DEFAULTS then SKILL_SCOPE_DEFAULTS[skillName]
    else if writes then ["jobs.write"] else ["jobs.read"]
  }

  /** The scopes a rule's proposal needs; an unregistered skill counts as a write. */
  function RuleScopes(registry: Registry, skillName: string): seq<string> {
    if skillName !in registry then DefaultScopes(skillName, true)
    else if registry[skillName].requiredScopes != [] then registry[skillName].requiredScopes
    else DefaultScopes(skillName, registry[skillName].writes)
  }

  /** The scopes an approval records: those asked for, else the skill's, else the defaults. */
  function ApprovalScopes(skillName: string, skill: Skill, asked: seq<string>): seq<string> {
    if asked != [] then asked
    else if skill.requiredScopes != [] then skill.requiredScopes
    else DefaultScopes(skillName, skill.writes)
  }
}
