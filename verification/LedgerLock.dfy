/** The lock-file protocol around the ledger, one file-system action per step, for any number of
    processes. A process holds the lock from the exclusive creation of the lock file until it
    removes it; a waiter that finds the file taken and then sees its deadline passed proceeds without it,
    even when the file has gone in between. */
module LedgerLock {
  import opened Sequences
  import opened Ledger

  /** How long a waiter keeps trying, in milliseconds. */
  const PATIENCE: nat := 2000

  /** Where a process is inside `try_start` or `mark`. */
  datatype Pc =
    | Idle
    | Waiting(op: Op, deadline: nat)
    | Thwarted(op: Op, deadline: nat)
    | Entered(op: Op)
    | HasRead(op: Op, seen: Option<Record>)
    | Appended(op: Op)
    | Trimming(op: Op, snapshot: seq<Record>)
    | Leaving
    | Unlinking
    | Dead

  /** A completed operation: who ran it and whether it was accepted. */
  datatype Done = Done(pid: nat, op: Op, won: bool)

  datatype Sys = Sys(lockFile: bool, clock: nat, file: seq<Record>, procs: map<nat, Pc>, done: seq<Done>)

  datatype Action =
    | Begin(pid: nat, op: Op)
    | Create(pid: nat)
    | FindTaken(pid: nat)
    | Spin(pid: nat)
    | GiveUp(pid: nat)
    | ReadLog(pid: nat)
    | Refuse(pid: nat)
    | Append(pid: nat)
    | TrimRead(pid: nat)
    | TrimWrite(pid: nat)
    | TestLock(pid: nat)
    | Unlink(pid: nat)
    | Crash(pid: nat)
    | Tick(ms: nat)

  const INIT := Sys(false, 0, [], map[], [])

  function At(s: Sys, p: nat): Pc {
    if p in s.procs then s.procs[p] else Idle
  }

  function Move(s: Sys, p: nat, pc: Pc): Sys {
    s.(procs := s.procs[p := pc])
  }

  /** Between entering the guarded block and removing the lock file; a process that crashes there
      leaves the lock file behind. */
  predicate Inside(pc: Pc) {
    !pc.Idle? && !pc.Waiting? && !pc.Thwarted?
  }

  predicate Enabled(s: Sys, a: Action) {
    match a
    case Begin(p, _) => At(s, p).Idle?
    case Create(p) => At(s, p).Waiting? && !s.lockFile
    case FindTaken(p) => At(s, p).Waiting? && s.lockFile
    case Spin(p) => At(s, p).Thwarted? && s.clock < At(s, p).deadline
    case GiveUp(p) => At(s, p).Thwarted? && s.clock >= At(s, p).deadline
    case ReadLog(p) => At(s, p).Entered?
    case Refuse(p) => At(s, p).HasRead? && !AcceptsAfter(At(s, p).seen, At(s, p).op)
    case Append(p) => At(s, p).HasRead? && AcceptsAfter(At(s, p).seen, At(s, p).op)
    case TrimRead(p) => At(s, p).Appended?
    case TrimWrite(p) => At(s, p).Trimming?
    case TestLock(p) => At(s, p).Leaving?
    case Unlink(p) => At(s, p).Unlinking?
    case Crash(p) => !At(s, p).Dead?
    case Tick(_) => true
  }

  function Next(s: Sys, a: Action, cap: int): Sys
    requires Enabled(s, a)
  {
    match a
    case Begin(p, op) => Move(s, p, Waiting(op, s.clock + PATIENCE))
    case Create(p) => Move(s, p, Entered(At(s, p).op)).(lockFile := true)
    case FindTaken(p) => Move(s, p, Thwarted(At(s, p).op, At(s, p).deadline))
    case Spin(p) => Move(s, p, Waiting(At(s, p).op, At(s, p).deadline))
    case GiveUp(p) => Move(s, p, Entered(At(s, p).op))
    case ReadLog(p) => Move(s, p, HasRead(At(s, p).op, Latest(s.file, At(s, p).op.key)))
    case Refuse(p) => Move(s, p, Leaving).(done := s.done + [Done(p, At(s, p).op, false)])
    case Append(p) =>
      Move(s, p, Appended(At(s, p).op)).(file := s.file + [RecordAfter(At(s, p).seen, At(s, p).op)])
    case TrimRead(p) => Move(s, p, Trimming(At(s, p).op, s.file))
    case TrimWrite(p) =>
      var snapshot := At(s, p).snapshot;
      var kept := if cap > 0 && |snapshot| > cap then Window(snapshot, cap) else s.file;
      Move(s, p, Leaving).(file := kept, done := s.done + [Done(p, At(s, p).op, true)])
    case TestLock(p) => Move(s, p, if s.lockFile then Unlinking else Idle)
    case Unlink(p) => Move(s, p, Idle).(lockFile := false)
    case Crash(p) => Move(s, p, if Inside(At(s, p)) then Dead else Idle)
    case Tick(ms) => s.(clock := s.clock + ms)
  }

  /** Every interleaving is a sequence of states linked by enabled actions. */
  ghost predicate IsRun(states: seq<Sys>, actions: seq<Action>, cap: int) {
    && |states| == |actions| + 1
    && states[0] == INIT
    && forall i :: 0 <= i < |actions| ==>
         Enabled(states[i], actions[i]) && states[i + 1] == Next(states[i], actions[i], cap)
  }

  // ---------------------------------------------------------------- the serial order

  function Ops(done: seq<Done>): (ops: seq<Op>)
    ensures |ops| == |done|
    ensures forall i :: 0 <= i < |ops| ==> ops[i] == done[i].op
  {
    seq(|done|, i requires 0 <= i < |done| => done[i].op)
  }

  /** The log that the completed operations produce when performed one after the other. */
  function Serial(done: seq<Done>, cap: int): Log {
    After(Ops(done), |done|, cap)
  }

  /** Every completed operation got the answer that the serial order gives it. */
  ghost predicate Linearised(done: seq<Done>, cap: int) {
    forall i :: 0 <= i < |done| ==> Answered(done, i, cap)
  }

  predicate Answered(done: seq<Done>, i: nat, cap: int)
    requires i < |done|
  {
    done[i].won <==> Accepts(After(Ops(done), i, cap).file, done[i].op)
  }

  lemma {:induction false} AfterIgnoresLater(ops: seq<Op>, more: seq<Op>, n: nat, cap: int)
    requires n <= |ops| <= |more| && forall i :: 0 <= i < |ops| ==> more[i] == ops[i]
    ensures After(more, n, cap) == After(ops, n, cap)
  {
    if n > 0 {
      AfterIgnoresLater(ops, more, n - 1, cap);
      var before := After(ops, n - 1, cap);
      assert After(ops, n, cap) == Perform(before, ops[n - 1], cap);
      assert After(more, n, cap) == Perform(before, ops[n - 1], cap);
    }
  }

  lemma SerialExtends(done: seq<Done>, d: Done, cap: int)
    ensures forall n :: 0 <= n <= |done| ==> After(Ops(done + [d]), n, cap) == After(Ops(done), n, cap)
    ensures Serial(done + [d], cap) == Perform(Serial(done, cap), d.op, cap)
  {
    forall n | 0 <= n <= |done| ensures After(Ops(done + [d]), n, cap) == After(Ops(done), n, cap) {
      AfterIgnoresLater(Ops(done), Ops(done + [d]), n, cap);
    }
  }

  lemma AnsweredExtends(done: seq<Done>, d: Done, i: nat, cap: int)
    requires i < |done| && Answered(done, i, cap)
    ensures Answered(done + [d], i, cap)
  {
    AfterIgnoresLater(Ops(done), Ops(done + [d]), i, cap);
  }

  lemma AnsweredLast(done: seq<Done>, d: Done, cap: int)
    requires d.won <==> Accepts(Serial(done, cap).file, d.op)
    ensures Answered(done + [d], |done|, cap)
  {
    AfterIgnoresLater(Ops(done), Ops(done + [d]), |done|, cap);
  }

  lemma LinearisedExtends(done: seq<Done>, d: Done, cap: int)
    requires Linearised(done, cap)
    requires d.won <==> Accepts(Serial(done, cap).file, d.op)
    ensures Linearised(done + [d], cap)
  {
    forall i | 0 <= i < |done + [d]| ensures Answered(done + [d], i, cap) {
      if i < |done| {
        AnsweredExtends(done, d, i, cap);
      } else {
        AnsweredLast(done, d, cap);
      }
    }
  }

  // ---------------------------------------------------------------- the invariant

  /** What a process at `pc` may rely on about the file, given the serial log so far. */
  predicate Consistent(pc: Pc, file: seq<Record>, serial: Log) {
    match pc
    case Idle => true
    case Waiting(_, _) => true
    case Thwarted(_, _) => true
    case Dead => true
    case Entered(_) => file == serial.file
    case HasRead(op, seen) => file == serial.file && seen == Latest(file, op.key)
    case Appended(op) => Accepts(serial.file, op) && file == serial.file + [NewRecord(serial.file, op)]
    case Trimming(op, snapshot) =>
      Accepts(serial.file, op) && file == snapshot == serial.file + [NewRecord(serial.file, op)]
    case Leaving => file == serial.file
    case Unlinking => file == serial.file
  }

  /** At most one process is inside, and the lock file tells whether one is. */
  ghost predicate Exclusive(s: Sys) {
    && (forall p, q :: Inside(At(s, p)) && Inside(At(s, q)) ==> p == q)
    && (s.lockFile <==> exists p :: Inside(At(s, p)))
  }

  ghost predicate Inv(s: Sys, cap: int) {
    && Exclusive(s)
    && Linearised(s.done, cap)
    && (forall p :: Consistent(At(s, p), s.file, Serial(s.done, cap)))
    && (!s.lockFile ==> s.file == Serial(s.done, cap).file)
  }

  lemma ExclusivePreserved(s: Sys, a: Action, cap: int)
    requires Exclusive(s) && Enabled(s, a) && !a.GiveUp?
    ensures Exclusive(Next(s, a, cap))
  {
    var t := Next(s, a, cap);
    if a.Tick? {
      assert forall p :: At(t, p) == At(s, p);
    } else {
      var p := a.pid;
      assert forall q :: q != p ==> At(t, q) == At(s, q);
      if t.lockFile && !Inside(At(t, p)) {
        var q :| Inside(At(s, q));
        assert Inside(At(t, q));
      }
    }
  }

  /** A step inside the guarded block concerns nobody else; a step outside it changes no file. */
  lemma BystanderConsistent(s: Sys, a: Action, cap: int, q: nat)
    requires Inv(s, cap) && Enabled(s, a) && !a.GiveUp?
    requires a.Tick? || q != a.pid
    ensures Consistent(At(Next(s, a, cap), q), Next(s, a, cap).file, Serial(Next(s, a, cap).done, cap))
  {
    var t := Next(s, a, cap);
    assert At(t, q) == At(s, q);
    assert Consistent(At(s, q), s.file, Serial(s.done, cap));
    if !a.Tick? && Inside(At(s, a.pid)) {
      assert !Inside(At(s, q));
    } else {
      assert t.file == s.file && t.done == s.done;
    }
  }

  lemma ActorConsistent(s: Sys, a: Action, cap: int)
    requires Inv(s, cap) && Enabled(s, a) && !a.GiveUp? && !a.Tick?
    ensures Consistent(At(Next(s, a, cap), a.pid), Next(s, a, cap).file, Serial(Next(s, a, cap).done, cap))
    ensures Linearised(Next(s, a, cap).done, cap)
  {
    var p := a.pid;
    assert Consistent(At(s, p), s.file, Serial(s.done, cap));
    if a.Refuse? || a.TrimWrite? {
      var d := Done(p, At(s, p).op, a.TrimWrite?);
      SerialExtends(s.done, d, cap);
      LinearisedExtends(s.done, d, cap);
    }
  }

  lemma InvPreserved(s: Sys, a: Action, cap: int)
    requires Inv(s, cap) && Enabled(s, a) && !a.GiveUp?
    ensures Inv(Next(s, a, cap), cap)
  {
    var t := Next(s, a, cap);
    ExclusivePreserved(s, a, cap);
    if !a.Tick? { ActorConsistent(s, a, cap); }
    forall q ensures Consistent(At(t, q), t.file, Serial(t.done, cap)) {
      if a.Tick? || q != a.pid { BystanderConsistent(s, a, cap, q); }
    }
    if !t.lockFile && s.lockFile {
      assert Consistent(At(s, a.pid), s.file, Serial(s.done, cap));
    }
  }

  /** Main result: in every interleaving of any number of processes, crashes included, in which no
      waiter reaches its deadline, the lock file exists exactly when one process is inside, the
      completed operations answer as in a serial run in completion order, and whenever the lock is
      free the file is that serial run's file. */
  lemma {:induction false} LockSerialises(states: seq<Sys>, actions: seq<Action>, cap: int, n: nat)
    requires IsRun(states, actions, cap) && n < |states|
    requires forall i :: 0 <= i < |actions| ==> !actions[i].GiveUp?
    ensures Exclusive(states[n])
    ensures Linearised(states[n].done, cap)
    ensures !states[n].lockFile ==> states[n].file == Serial(states[n].done, cap).file
    ensures Inv(states[n], cap)
  {
    if n > 0 {
      LockSerialises(states, actions, cap, n - 1);
      InvPreserved(states[n - 1], actions[n - 1], cap);
    }
  }

  /** Racing `try_start` calls: two that won on one key are separated by a mark that reopened it,
      or by more appended records than the cap retains. */
  lemma RacingStartsHaveOneWinner(states: seq<Sys>, actions: seq<Action>, cap: int, n: nat, k: Key, i: nat, j: nat)
    requires IsRun(states, actions, cap) && n < |states|
    requires forall m :: 0 <= m < |actions| ==> !actions[m].GiveUp?
    requires i < j < |states[n].done|
    requires states[n].done[i].won && states[n].done[i].op.Start? && states[n].done[i].op.key == k
    requires states[n].done[j].won && states[n].done[j].op.Start? && states[n].done[j].op.key == k
    ensures var done := states[n].done;
      || (exists m :: i < m < j && Reopens(done[m].op, k))
      || (cap > 0 && |After(Ops(done), j, cap).history| - |After(Ops(done), i, cap).history| > cap)
  {
    LockSerialises(states, actions, cap, n);
    var ops := Ops(states[n].done);
    assert Answered(states[n].done, i, cap) && Answered(states[n].done, j, cap);
    OneWinnerPerEpisode(ops, cap, k, i, j);
    if m :| i < m < j && Reopens(ops[m], k) {
      assert Reopens(states[n].done[m].op, k);
    }
  }

  /** Exactly one kind of step breaks exclusion: a waiter giving up. */
  lemma OnlyGivingUpBreaksExclusion(s: Sys, a: Action, cap: int)
    requires Exclusive(s) && Enabled(s, a)
    ensures Exclusive(Next(s, a, cap)) <==> !a.GiveUp?
  {
    if a.GiveUp? {
      var t := Next(s, a, cap);
      assert Inside(At(t, a.pid));
      if s.lockFile {
        var q :| Inside(At(s, q));
        assert Inside(At(t, q)) && q != a.pid;
      }
    } else {
      ExclusivePreserved(s, a, cap);
    }
  }

  lemma {:induction false} ExclusiveUntilGivenUp(states: seq<Sys>, actions: seq<Action>, cap: int, n: nat)
    requires IsRun(states, actions, cap) && n < |states| && forall i :: 0 <= i < n ==> !actions[i].GiveUp?
    ensures Exclusive(states[n])
  {
    if n > 0 {
      ExclusiveUntilGivenUp(states, actions, cap, n - 1);
      ExclusivePreserved(states[n - 1], actions[n - 1], cap);
    }
  }

  /** Main result: a run keeps exclusion throughout exactly when no waiter ever passes its deadline. */
  lemma ExclusionHoldsIffNobodyGivesUp(states: seq<Sys>, actions: seq<Action>, cap: int)
    requires IsRun(states, actions, cap)
    ensures (forall n :: 0 <= n < |states| ==> Exclusive(states[n])) <==> (forall i :: 0 <= i < |actions| ==> !actions[i].GiveUp?)
  {
    if forall i :: 0 <= i < |actions| ==> !actions[i].GiveUp? {
      forall n | 0 <= n < |states| ensures Exclusive(states[n]) {
        ExclusiveUntilGivenUp(states, actions, cap, n);
      }
    } else {
      var i :| 0 <= i < |actions| && actions[i].GiveUp?;
      if Exclusive(states[i]) { OnlyGivingUpBreaksExclusion(states[i], actions[i], cap); }
      assert !Exclusive(states[i]) || !Exclusive(states[i + 1]);
    }
  }

  lemma Extend(states: seq<Sys>, actions: seq<Action>, a: Action, cap: int)
    returns (states': seq<Sys>, actions': seq<Action>)
    requires IsRun(states, actions, cap) && Enabled(states[|states| - 1], a)
    ensures IsRun(states', actions', cap)
    ensures states'[|states'| - 1] == Next(states[|states| - 1], a, cap)
  {
    states' := states + [Next(states[|states| - 1], a, cap)];
    actions' := actions + [a];
  }

  /** Two processes want the lock; the first takes it, and the second waits past its deadline. */
  lemma WaiterGivesUp(k: Key, op: Op) returns (states: seq<Sys>, actions: seq<Action>)
    requires op == Start(k, JobRunKind, 0, None, map[])
    ensures IsRun(states, actions, 0)
    ensures var s := states[|states| - 1];
      At(s, 0) == At(s, 1) == HasRead(op, None) && s.file == [] && s.done == []
  {
    states, actions := Extend([INIT], [], Begin(0, op), 0);
    states, actions := Extend(states, actions, Begin(1, op), 0);
    states, actions := Extend(states, actions, Create(0), 0);
    states, actions := Extend(states, actions, ReadLog(0), 0);
    states, actions := Extend(states, actions, FindTaken(1), 0);
    states, actions := Extend(states, actions, Tick(PATIENCE), 0);
    states, actions := Extend(states, actions, GiveUp(1), 0);
    states, actions := Extend(states, actions, ReadLog(1), 0);
  }

  /** The deadline hypothesis is needed: once a waiter gives up, two processes can both win. */
  lemma DeadlineBreaksExclusion(k: Key) returns (states: seq<Sys>, actions: seq<Action>)
    ensures IsRun(states, actions, 0)
    ensures var done := states[|states| - 1].done;
      |done| == 2 && forall i :: 0 <= i < 2 ==> done[i].won && done[i].op.Start? && done[i].op.key == k
  {
    var op := Start(k, JobRunKind, 0, None, map[]);
    states, actions := WaiterGivesUp(k, op);
    states, actions := Extend(states, actions, Append(0), 0);
    states, actions := Extend(states, actions, TrimRead(0), 0);
    states, actions := Extend(states, actions, TrimWrite(0), 0);
    states, actions := Extend(states, actions, Append(1), 0);
    states, actions := Extend(states, actions, TrimRead(1), 0);
    states, actions := Extend(states, actions, TrimWrite(1), 0);
  }
}
