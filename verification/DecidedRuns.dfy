/** Whether a decision stops the step: when a record that is no longer pending, stored or cleaned away,
    can still be executed by an approve in flight. */
module DecidedRuns {
  import opened Sequences
  import opened Ledger
  import opened Policy
  import opened Approvals
  import opened Interleaving
  import opened Finality
  import AtMostOnce
  import Guard
  import Service = ApprovalService

  /** The record that an approve has yet to execute. */
  function ToRun(pc: Proc): Option<Approval> {
    match pc
    case CheckingSafeMode(r, _) => Some(r)
    case CheckingExpiry(r, _) => Some(r)
    case CheckingPolicy(r, _) => Some(r)
    case Claiming(r, _) => Some(r)
    case ExecScopes(r, _) => Some(r)
    case ExecSafeMode(r, _) => Some(r)
    case Running(r, _) => Some(r)
    case _ => None
  }

  predicate IsToRun(pc: Proc, id: string) {
    ToRun(pc).Some? && ToRun(pc).value.id == id
  }

  /** The process is about to report a failed execution under this key. */
  predicate Reopener(pc: Proc, k: Key) {
    pc.Marking? && !pc.result.ok && ExecutionKey(pc.r) == k
  }

  /** The key can be claimed now, or once a failure is reported, or once the cap evicts its record. */
  ghost predicate Obtainable(s: Sys, k: Key, cap: int)
    requires s.worlds != []
  {
    || CanStart(Window(Now(s).ledger, cap), k)
    || cap > 0
    || exists q :: Reopener(At(s, q), k)
  }

  /** An approve in flight that can still run its copy: unexpired where expiry is still to be checked,
      and with an obtainable key where it is still to be claimed. */
  ghost predicate Live(s: Sys, p: nat, id: string, cap: int)
    requires s.worlds != []
  {
    var pc := At(s, p);
    && IsToRun(pc, id)
    && (pc.CheckingSafeMode? || pc.CheckingExpiry? ==> !IsExpired(pc.r, Now(s).clock))
    && (!InForced(pc) ==> Obtainable(s, ExecutionKey(pc.r), cap))
  }

  ghost predicate NobodyLive(s: Sys, id: string, cap: int)
    requires s.worlds != []
  {
    forall p :: !Live(s, p, id, cap)
  }

  /** A step executed for the approval of this id. */
  predicate RunsFor(e: Event, id: string) {
    e.Finished? && e.approval.Some? && e.approval.value.id == id
  }

  // ---------------------------------------------------------------- nobody live: the step never runs

  /** Only an approve in its last stage executes anything for an approval. */
  lemma WhoRuns(w: World, now: nat, pc: Proc, ch: Choice, registry: Registry, cap: int, id: string)
    requires var m := Advance(w, now, pc, ch, registry, cap); m.event.Some? && RunsFor(m.event.value, id)
    ensures InForced(pc) && IsToRun(pc, id)
  {
  }

  lemma WhoMarks(w: World, now: nat, pc: Proc, ch: Choice, registry: Registry, cap: int, k: Key)
    requires Reopener(Advance(w, now, pc, ch, registry, cap).proc, k)
    ensures InForced(pc) && ExecutionKey(pc.r) == k
  {
    if InApprove(pc) {
    } else if InForced(pc) {
      HeldInForced(w, now, pc, ch, registry);
    }
  }

  /** A step leaves the ledger alone, starts an open key, or makes the report of its process. */
  lemma LedgerMoves(w: World, now: nat, pc: Proc, ch: Choice, registry: Registry, cap: int)
    ensures var ledger, request := Advance(w, now, pc, ch, registry, cap).world.ledger, AtMostOnce.Request(w, pc);
      || ledger == w.ledger
      || (request.Some? && Open(w, request.value, cap) && ledger == w.ledger + [NewRecord(Window(w.ledger, cap), request.value)])
  {
    AtMostOnce.StepDisciplined(w, now, pc, ch, registry, cap);
  }

  /** Only a start under a key, or the report of an approve that executed it, writes an approval's key. */
  lemma WhoWrites(w: World, pc: Proc, registry: Registry, k: Key)
    requires Fit(pc, registry) && k.ApprovalExec?
    requires AtMostOnce.Request(w, pc).Some? && AtMostOnce.Request(w, pc).value.key == k
    ensures var op := AtMostOnce.Request(w, pc).value;
      op.Start? || (pc.Marking? && ExecutionKey(pc.r) == k && op.status == (if pc.result.ok then Succeeded else Failed))
  {
  }

  /** A key that cannot be obtained stays closed. */
  lemma ClosedStays(s: Sys, p: nat, ch: Choice, registry: Registry, cap: int, k: Key)
    requires s.worlds != [] && Fit(At(s, p), registry) && k.ApprovalExec? && !Obtainable(s, k, cap)
    ensures !CanStart(Window(Advance(Now(s), |s.worlds| - 1, At(s, p), ch, registry, cap).world.ledger, cap), k)
  {
    var w, pc := Now(s), At(s, p);
    LedgerMoves(w, |s.worlds| - 1, pc, ch, registry, cap);
    var request := AtMostOnce.Request(w, pc);
    if request.Some? {
      Guard.AppendedLatest(w.ledger, NewRecord(w.ledger, request.value), k);
      if request.value.key == k {
        WhoWrites(w, pc, registry, k);
        assert !Reopener(pc, k);
      }
    }
  }

  /** What a step does not touch: time goes on, and everybody else stays where they are. */
  lemma Elsewhere(s: Sys, a: Action, registry: Registry, cap: int)
    requires Enabled(s, a)
    ensures var s' := Next(s, a, registry, cap);
      && Now(s').clock >= Now(s).clock
      && (!a.Step? ==> Now(s').ledger == Now(s).ledger)
      && (a.Step? ==> var m := Advance(Now(s), |s.worlds| - 1, At(s, a.pid), a.choice, registry, cap);
                      At(s', a.pid) == m.proc && Now(s') == m.world)
      && (a.Begin? ==> At(s', a.pid) == a.request)
      && (a.Crash? ==> At(s', a.pid) == Ready)
      && forall p :: (a.Environment? || a.Cleanup? || p != a.pid) ==> At(s', p) == At(s, p)
  {
    if a.Step? { ClockStays(Now(s), |s.worlds| - 1, At(s, a.pid), a.choice, registry, cap); }
  }

  lemma ClockStays(w: World, now: nat, pc: Proc, ch: Choice, registry: Registry, cap: int)
    ensures Advance(w, now, pc, ch, registry, cap).world.clock == w.clock
  {
  }

  /** Nobody comes to report a failure under the key. */
  lemma NobodyReopens(s: Sys, a: Action, registry: Registry, cap: int, id: string, k: Key)
    requires Enabled(s, a) && NobodyLive(s, id, cap) && k.ApprovalExec? && k.approvalId == id
    requires forall q :: !Reopener(At(s, q), k)
    ensures forall q :: !Reopener(At(Next(s, a, registry, cap), q), k)
  {
    var s' := Next(s, a, registry, cap);
    Elsewhere(s, a, registry, cap);
    if a.Step? && Reopener(At(s', a.pid), k) {
      assert !Live(s, a.pid, id, cap);
      WhoMarks(Now(s), |s.worlds| - 1, At(s, a.pid), a.choice, registry, cap, k);
    }
    forall q ensures !Reopener(At(s', q), k) {
      assert !Reopener(At(s, q), k);
    }
  }

  lemma UnobtainableStays(s: Sys, a: Action, registry: Registry, cap: int, id: string, k: Key)
    requires Enabled(s, a) && NobodyLive(s, id, cap) && k.ApprovalExec? && k.approvalId == id && !Obtainable(s, k, cap)
    requires forall p :: Fit(At(s, p), registry)
    ensures !Obtainable(Next(s, a, registry, cap), k, cap)
  {
    NobodyReopens(s, a, registry, cap, id, k);
    Elsewhere(s, a, registry, cap);
    if a.Step? {
      assert Fit(At(s, a.pid), registry);
      ClosedStays(s, a.pid, a.choice, registry, cap, k);
    }
  }

  /** Where an approve that has yet to run its copy comes from. */
  lemma ToRunComesFrom(w: World, now: nat, pc: Proc, ch: Choice, registry: Registry, cap: int)
    ensures var m := Advance(w, now, pc, ch, registry, cap); var r := ToRun(m.proc);
      r.Some? ==>
        || (r.value in w.records && r.value.status == Pending)
        || (&& ToRun(pc) == r && m.world.clock == w.clock
            && (InForced(m.proc) && !InForced(pc) ==> pc.Claiming? && CanStart(Window(w.ledger, cap), ExecutionKey(r.value)))
            && (pc.CheckingSafeMode? || pc.CheckingExpiry? ==>
                  m.proc.CheckingSafeMode? || m.proc.CheckingExpiry? || !IsExpired(r.value, w.clock)))
  {
    if InApprove(pc) {
    } else if InForced(pc) {
      HeldInForced(w, now, pc, ch, registry);
    } else if InChat(pc) {
      NotHeldInChat(w, now, pc, ch, registry);
    }
  }

  /** A bystander does not become live; neither does the process that takes the step. */
  lemma BystanderStaysIdle(s: Sys, a: Action, registry: Registry, cap: int, id: string, p: nat)
    requires Orderly(s, registry) && Enabled(s, a) && NobodyLive(s, id, cap)
    requires a.Step? ==> a.pid != p
    ensures !Live(Next(s, a, registry, cap), p, id, cap)
  {
    var pc := At(s, p);
    assert !Live(s, p, id, cap);
    Elsewhere(s, a, registry, cap);
    if IsToRun(pc, id) && !Obtainable(s, ExecutionKey(pc.r), cap) {
      UnobtainableStays(s, a, registry, cap, id, ExecutionKey(pc.r));
    }
  }

  lemma ActorStaysIdle(s: Sys, p: nat, ch: Choice, registry: Registry, cap: int, id: string)
    requires Orderly(s, registry) && Decided(s, id) && NobodyLive(s, id, cap)
    ensures !Live(Next(s, Step(p, ch), registry, cap), p, id, cap)
  {
    var pc, s' := At(s, p), Next(s, Step(p, ch), registry, cap);
    assert !Live(s, p, id, cap);
    Elsewhere(s, Step(p, ch), registry, cap);
    if IsToRun(At(s', p), id) { ActorKeepsCopy(s, p, At(s', p), ch, registry, cap, id); }
    if IsToRun(pc, id) && !Obtainable(s, ExecutionKey(pc.r), cap) {
      UnobtainableStays(s, Step(p, ch), registry, cap, id, ExecutionKey(pc.r));
    }
  }

  /** Where nothing under the id is pending, an approve goes on with the copy it has. */
  lemma ActorKeepsCopy(s: Sys, p: nat, pc': Proc, ch: Choice, registry: Registry, cap: int, id: string)
    requires s.worlds != [] && Decided(s, id) && IsToRun(pc', id)
    requires pc' == Advance(Now(s), |s.worlds| - 1, At(s, p), ch, registry, cap).proc
    ensures var pc := At(s, p);
      && ToRun(pc) == ToRun(pc')
      && (InForced(pc') && !InForced(pc) ==> pc.Claiming? && CanStart(Window(Now(s).ledger, cap), ExecutionKey(pc.r)))
      && (pc.CheckingSafeMode? || pc.CheckingExpiry? ==> pc'.CheckingSafeMode? || pc'.CheckingExpiry? || !IsExpired(pc.r, Now(s).clock))
  {
    ToRunComesFrom(Now(s), |s.worlds| - 1, At(s, p), ch, registry, cap);
  }

  /** Nobody becomes live. */
  lemma NobodyBecomesLive(s: Sys, a: Action, registry: Registry, cap: int, id: string)
    requires Orderly(s, registry) && Enabled(s, a) && Decided(s, id) && NobodyLive(s, id, cap)
    ensures NobodyLive(Next(s, a, registry, cap), id, cap)
  {
    forall p ensures !Live(Next(s, a, registry, cap), p, id, cap) {
      if a.Step? && a.pid == p {
        ActorStaysIdle(s, p, a.choice, registry, cap, id);
      } else {
        BystanderStaysIdle(s, a, registry, cap, id, p);
      }
    }
  }

  /** No record under the id becomes pending. */
  lemma StaysDecided(s: Sys, a: Action, registry: Registry, cap: int, id: string)
    requires Orderly(s, registry) && Enabled(s, a) && Decided(s, id) && !Reissues(s, a, registry, id)
    ensures Decided(Next(s, a, registry, cap), id)
  {
    var w := Now(s);
    match a
    case Step(p, ch) =>
      assert Fit(At(s, p), registry);
      AdvanceRecords(w, |s.worlds| - 1, At(s, p), ch, registry, cap);
      var made := Made(w, At(s, p), ch, registry);
      if made.Some? { Service.UpsertContents(w.records, made.value); }
      else if At(s, p).Settling? { Service.SettleContents(w.records, At(s, p).settled, w.autoclean); }
    case Cleanup => Service.CleanedContents(w.records, w.clock, w.autoclean);
    case _ =>
  }

  lemma {:induction false} NeverLive(s: Sys, actions: seq<Action>, s': Sys, registry: Registry, cap: int, id: string)
    requires Orderly(s, registry) && Decided(s, id) && NobodyLive(s, id, cap) && Leads(s, actions, s', Going(registry, cap, id))
    ensures s.trace <= s'.trace && !Executes(s, s', id)
    decreases |actions|
  {
    if actions != [] {
      var a := actions[0];
      var s1 := Next(s, a, registry, cap);
      StepStaysOrderly(s, a, registry, cap);
      StaysDecided(s, a, registry, cap, id);
      NobodyBecomesLive(s, a, registry, cap, id);
      NothingRunNow(s, a, registry, cap, id);
      NeverLive(s1, actions[1..], s', registry, cap, id);
    }
  }

  lemma NothingRunNow(s: Sys, a: Action, registry: Registry, cap: int, id: string)
    requires Enabled(s, a) && NobodyLive(s, id, cap)
    ensures var trace := Next(s, a, registry, cap).trace;
      s.trace <= trace && |trace| <= |s.trace| + 1 && (|trace| > |s.trace| ==> !RunsFor(trace[|s.trace|], id))
  {
    if a.Step? {
      assert !Live(s, a.pid, id, cap);
      var m := Advance(Now(s), |s.worlds| - 1, At(s, a.pid), a.choice, registry, cap);
      if m.event.Some? && RunsFor(m.event.value, id) {
        WhoRuns(Now(s), |s.worlds| - 1, At(s, a.pid), a.choice, registry, cap, id);
      }
    }
  }

  // ---------------------------------------------------------------- somebody live: the step can run

  /** A live approve that can be driven to its run without waiting for anything. */
  predicate Clear(w: World, pc: Proc, id: string, cap: int) {
    && IsToRun(pc, id)
    && (pc.CheckingSafeMode? || pc.CheckingExpiry? ==> !IsExpired(pc.r, w.clock))
    && (!InForced(pc) ==> CanStart(Window(w.ledger, cap), ExecutionKey(pc.r)))
  }

  /** What a step in eased surroundings achieves: the run, or one step towards it. */
  predicate Nearer(w: World, pc: Proc, m: Moved, registry: Registry, id: string, cap: int) {
    if m.event.Some? then RunsFor(m.event.value, id)
    else Clear(m.world, m.proc, id, cap) && Fit(m.proc, registry) && Rank(m.proc) < Rank(pc)
  }

  lemma ClearApproveMoves(w: World, now: nat, pc: Proc, registry: Registry, cap: int, id: string)
    requires Clear(w, pc, id, cap) && Fit(pc, registry) && InApprove(pc)
    ensures Nearer(w, pc, ApproveStep(Eased(w, pc, registry, w.autoclean), now, pc, cap), registry, id, cap)
  {
    LetThrough(pc, registry);
  }

  lemma ClearForcedMoves(w: World, now: nat, pc: Proc, registry: Registry, cap: int, id: string)
    requires Clear(w, pc, id, cap) && Fit(pc, registry) && InForced(pc)
    ensures Nearer(w, pc, ForcedStep(Eased(w, pc, registry, w.autoclean), now, pc, ANY, registry), registry, id, cap)
  {
    LetThrough(pc, registry);
  }

  /** `to` has the record of an execution that `from` has not. */
  ghost predicate Executes(from: Sys, to: Sys, id: string) {
    exists i :: |from.trace| <= i < |to.trace| && RunsFor(to.trace[i], id)
  }

  /** In eased surroundings, and whatever automatic cleaning is set to, a clear approve gets to its run. */
  lemma {:induction false} ClearApproveRuns(s: Sys, p: nat, registry: Registry, cap: int, id: string) returns (s': Sys)
    requires s.worlds != [] && Clear(Now(s), At(s, p), id, cap) && Fit(At(s, p), registry)
    ensures CanReach(s, s', registry, cap, id) && Executes(s, s', id)
    decreases Rank(At(s, p))
  {
    var w, pc := Now(s), At(s, p);
    var s1, m := EaseAndStep(s, p, w.autoclean, registry, cap, id);
    if InApprove(pc) {
      ClearApproveMoves(w, |s.worlds|, pc, registry, cap, id);
    } else {
      ClearForcedMoves(w, |s.worlds|, pc, registry, cap, id);
    }
    assert Nearer(w, pc, m, registry, id, cap);
    if m.event.Some? {
      assert RunsFor(s1.trace[|s.trace|], id);
      s' := s1;
    } else {
      s' := ClearApproveRuns(s1, p, registry, cap, id);
      ReachesOn(s, s1, s', registry, cap, id);
    }
  }

  /** Reporting the failure opens the key. */
  lemma ReportOpens(w: World, pc: Proc, cap: int, k: Key)
    requires Reopener(pc, k)
    ensures CanStart(Window(Append(w, Service.MarkOp(pc.r, pc.result, w.clock), cap).ledger, cap), k)
  {
    var r := NewRecord(Window(w.ledger, cap), Service.MarkOp(pc.r, pc.result, w.clock));
    Guard.AppendedLatest(w.ledger, r, k);
    LatestInWindow(w.ledger + [r], cap, k);
  }

  // ---------------------------------------------------------------- evicting a record

  /** A job's key that no record of the ledger has. */
  lemma {:induction false} UnusedJob(ledger: seq<Record>) returns (n: nat)
    ensures forall r :: r in ledger && r.key.JobRun? ==> |r.key.jobId| < n
  {
    if ledger == [] {
      n := 0;
    } else {
      var front, last := ledger[..|ledger| - 1], ledger[|ledger| - 1];
      n := UnusedJob(front);
      if last.key.JobRun? && |last.key.jobId| >= n { n := |last.key.jobId| + 1; }
      assert forall r :: r in ledger ==> r in front || r == last;
    }
  }

  /** A process number that is not in use. */
  lemma {:induction false} UnusedProcess(pids: set<nat>) returns (n: nat)
    ensures forall p :: p in pids ==> p < n
    decreases |pids|
  {
    if pids == {} {
      n := 0;
    } else {
      var p :| p in pids;
      n := UnusedProcess(pids - {p});
      if p >= n { n := p + 1; }
      assert forall q :: q in pids ==> q == p || q in pids - {p};
    }
  }

  const FAILING := Choice(RunRaises(""), "", 0)

  /** Where a process stands that runs failing jobs under this key, one after the other. */
  predicate Cycling(w: World, pc: Proc, job: Key, cap: int) {
    match pc
    case Ready => CanStart(Window(w.ledger, cap), job)
    case JobClaim(k) => k == job && CanStart(Window(w.ledger, cap), job)
    case JobOwns(k) => k == job
    case JobMark(k, ok) => k == job && !ok
    case _ => false
  }

  /** Two of its four moves write a record; the others come right before them. */
  function Pause(pc: Proc): nat {
    if pc.Ready? || pc.JobOwns? then 1 else 0
  }

  lemma JobCycles(w: World, pc: Proc, job: Key, cap: int) returns (more: seq<Record>)
    requires Cycling(w, pc, job, cap) && InJob(pc)
    ensures var m := JobStep(w, pc, FAILING, cap);
      && m.world == w.(ledger := w.ledger + more) && Cycling(m.world, m.proc, job, cap)
      && (if pc.JobOwns? then more == [] && m.proc.JobMark? else |more| == 1 && more[0].key == job)
  {
    if pc.JobClaim? {
      more := [NewRecord(Window(w.ledger, cap), Start(job, JobRunKind, w.clock, None, map[]))];
    } else if pc.JobMark? {
      more := [NewRecord(Window(w.ledger, cap), Mark(job, Failed, w.clock, map[]))];
      Guard.AppendedLatest(w.ledger, more[0], job);
      LatestInWindow(w.ledger + more, cap, job);
    } else {
      more := [];
      assert w.ledger + more == w.ledger;
    }
  }

  /** The ledger has grown by records under this key; of the processes only `q` has moved. */
  ghost predicate Grown(s: Sys, s': Sys, q: nat, job: Key, more: seq<Record>) {
    && s.worlds != [] && s'.worlds != [] && Now(s') == Now(s).(ledger := Now(s).ledger + more)
    && (forall i :: 0 <= i < |more| ==> more[i].key == job)
    && |s.trace| <= |s'.trace| && forall p :: p != q ==> At(s', p) == At(s, p)
  }

  lemma JobBegins(s: Sys, q: nat, registry: Registry, cap: int, job: Key)
    requires s.worlds != [] && job.JobRun? && At(s, q).Ready?
    ensures Grown(s, Next(s, Begin(q, JobClaim(job)), registry, cap), q, job, [])
  {
    assert Now(s).ledger + [] == Now(s).ledger;
  }

  lemma CycleMoves(s: Sys, q: nat, registry: Registry, cap: int, id: string, job: Key) returns (s': Sys, more: seq<Record>)
    requires s.worlds != [] && job.JobRun? && Cycling(Now(s), At(s, q), job, cap)
    ensures CanReach(s, s', registry, cap, id) && Grown(s, s', q, job, more) && Cycling(Now(s'), At(s', q), job, cap)
    ensures |more| == 1 - Pause(At(s, q)) && (more == [] ==> Pause(At(s', q)) == 0)
  {
    if At(s, q).Ready? {
      s', more := Next(s, Begin(q, JobClaim(job)), registry, cap), [];
      JobBegins(s, q, registry, cap, job);
      OneAction(s, Begin(q, JobClaim(job)), s', registry, cap, id);
    } else {
      more := JobCycles(Now(s), At(s, q), job, cap);
      s' := Apply(s, q, JobStep(Now(s), At(s, q), FAILING, cap));
      OneAction(s, Step(q, FAILING), s', registry, cap, id);
    }
  }

  lemma GrownTwice(s: Sys, s1: Sys, s2: Sys, q: nat, job: Key, more: seq<Record>, others: seq<Record>)
    requires Grown(s, s1, q, job, more) && Grown(s1, s2, q, job, others)
    ensures Grown(s, s2, q, job, more + others)
  {
    assert Now(s).ledger + more + others == Now(s).ledger + (more + others);
  }

  /** Any number of records under a job's key. */
  lemma {:induction false} JobsWrite(s: Sys, q: nat, registry: Registry, cap: int, id: string, job: Key, n: nat)
    returns (s': Sys, more: seq<Record>)
    requires s.worlds != [] && job.JobRun? && Cycling(Now(s), At(s, q), job, cap)
    ensures CanReach(s, s', registry, cap, id) && Grown(s, s', q, job, more) && |more| >= n
    decreases n, Pause(At(s, q))
  {
    if n == 0 {
      s', more := s, [];
      StaysPut(s, registry, cap, id);
      assert Now(s).ledger + more == Now(s).ledger;
    } else {
      var s1, first := CycleMoves(s, q, registry, cap, id, job);
      var others;
      s', others := JobsWrite(s1, q, registry, cap, id, job, n - |first|);
      GrownTwice(s, s1, s', q, job, first, others);
      ReachesOn(s, s1, s', registry, cap, id);
      more := first + others;
    }
  }

  /** Under a positive cap enough other records push an approval's key out. */
  lemma Evicts(s: Sys, p: nat, registry: Registry, cap: int, id: string, k: Key) returns (s': Sys)
    requires s.worlds != [] && cap > 0 && k.ApprovalExec? && At(s, p) != Ready
    ensures CanReach(s, s', registry, cap, id) && Frees(s, s', p, k, cap)
  {
    var ledger := Now(s).ledger;
    var n := UnusedJob(ledger);
    var job := JobRun(seq(n, _ => 'j'), "");
    assert LatestIndex(ledger, job) < 0;
    LatestInWindow(ledger, cap, job);
    var q := UnusedProcess(s.procs.Keys);
    var more: seq<Record>;
    s', more := JobsWrite(s, q, registry, cap, id, job, cap);
    LatestInWindow(ledger + more, cap, k);
    var i := LatestIndex(ledger + more, k);
    assert i >= |ledger| ==> (ledger + more)[i] == more[i - |ledger|];
  }

  /** By `s'` the key is free, no time has passed, and process `p` is where it was. */
  ghost predicate Frees(s: Sys, s': Sys, p: nat, k: Key, cap: int) {
    && s.worlds != [] && s'.worlds != [] && CanStart(Window(Now(s').ledger, cap), k)
    && Now(s').clock == Now(s).clock && At(s', p) == At(s, p) && |s.trace| <= |s'.trace|
  }

  lemma ReportFrees(s: Sys, p: nat, q: nat, m: Moved, cap: int, k: Key)
    requires s.worlds != [] && p != q && m.event == None && m.world.clock == Now(s).clock
    requires CanStart(Window(m.world.ledger, cap), k)
    ensures Frees(s, Apply(s, q, m), p, k, cap)
  {
  }

  /** A key that can be obtained is free after some continuation that leaves its approve alone. */
  lemma KeyIsFreed(s: Sys, p: nat, registry: Registry, cap: int, id: string, k: Key) returns (s': Sys)
    requires s.worlds != [] && IsToRun(At(s, p), id) && k.ApprovalExec? && k.approvalId == id
    requires Obtainable(s, k, cap) && !CanStart(Window(Now(s).ledger, cap), k)
    ensures CanReach(s, s', registry, cap, id) && Frees(s, s', p, k, cap)
  {
    if q :| Reopener(At(s, q), k) {
      var m := ApproveStep(Now(s), |s.worlds| - 1, At(s, q), cap);
      s' := Apply(s, q, m);
      HolderSteps(s, q, m, registry, cap, id);
      ReportOpens(Now(s), At(s, q), cap, k);
      ReportFrees(s, p, q, m, cap, k);
    } else {
      s' := Evicts(s, p, registry, cap, id, k);
    }
  }

  /** From every live approve some continuation runs the step, with automatic cleaning never touched. */
  lemma LiveCanRun(s: Sys, p: nat, registry: Registry, cap: int, id: string) returns (s': Sys)
    requires s.worlds != [] && Live(s, p, id, cap) && Fit(At(s, p), registry)
    ensures CanReach(s, s', registry, cap, id) && Executes(s, s', id)
  {
    var pc := At(s, p);
    if Clear(Now(s), pc, id, cap) {
      s' := ClearApproveRuns(s, p, registry, cap, id);
    } else {
      var s1 := KeyIsFreed(s, p, registry, cap, id, ExecutionKey(pc.r));
      s' := ClearApproveRuns(s1, p, registry, cap, id);
      ReachesOn(s, s1, s', registry, cap, id);
    }
  }

  // ---------------------------------------------------------------- the exact condition

  /** However the system goes on from `s` without issuing the id again, its step is not executed. */
  ghost predicate NeverExecuted(s: Sys, registry: Registry, cap: int, id: string) {
    forall s' :: CanReach(s, s', registry, cap, id) ==> !Executes(s, s', id)
  }

  /** Main result, with automatic cleaning on or off: at any point of any run, once no record under the
      id is pending, the step of that id is never executed in any continuation, exactly when no approve
      in flight is live. */
  lemma NeverExecutedExactlyWhenNobodyLive(run: seq<Sys>, runActions: seq<Action>, registry: Registry, cap: int, n: nat, id: string)
    requires IsRun(run, runActions, registry, cap) && n < |run|
    requires run[n].worlds != [] && Decided(run[n], id)
    ensures NeverExecuted(run[n], registry, cap, id) <==> NobodyLive(run[n], id, cap)
  {
    var s := run[n];
    RunsAreOrderly(run, runActions, registry, cap, n);
    if NobodyLive(s, id, cap) {
      forall s' | CanReach(s, s', registry, cap, id) ensures !Executes(s, s', id) {
        var actions :| Leads(s, actions, s', Going(registry, cap, id));
        NeverLive(s, actions, s', registry, cap, id);
      }
    } else {
      var p :| Live(s, p, id, cap);
      assert Fit(At(s, p), registry);
      var s' := LiveCanRun(s, p, registry, cap, id);
    }
  }
}
