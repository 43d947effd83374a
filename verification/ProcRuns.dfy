/** What holds in every reachable state of the process machinery of kernel/proc.c, for
    any number of CPUs, processes and locks and any interleaving of their steps. */
module ProcRuns {
  import opened Options
  import opened Proc
  import opened ProcLocks
  import opened ProcWait
  import opened ProcSteps

  // ---- every step keeps the invariant

  lemma HaltKeeps(s: State)
    requires Inv(s)
    ensures Inv(s.(halt := InitExiting))
  {
  }

  lemma InvOne(s: State)
    requires Inv(s)
    ensures Inv1(s) && Shape(s)
  {
  }

  lemma OpKeeps(s: State, s': State, c: nat, p: nat, op: Op)
    requires Inv(s) && Shape(s) && Exec(s, c, p, At(op)) && NextOp(s, s', c, p, op) && Inv1(s') && s'.halt == Going
    ensures Inv(s')
  {
    hide Inv, Inv1, QuietStep, AcquireProc, AcquireLock, ReleaseLock;
    match op
    case Ready =>
    case Wake(ch, i, k) =>
      if i >= |s.st| && k != Client {
        WakeEndKeeps(s, s', c, p, op);
      } else if i == p {
        WakeSkipKeeps(s, s', c, p, op);
      } else {
        WakeOpQuiet(s, s', c, p, op);
        QuietStepKeeps(s, s', c, p, At(op));
      }
    case Reparent(j) =>
      if j < |s.st| && s.parent[j] == Some(p) {
        HandOverKeeps(s, s', c, p, j);
      } else {
        SweepKeeps(s, s', c, p, j);
      }
    case WaitScan(i, h) => ScanKeeps(s, s', c, p, i, h);
    case WaitLeave =>
      WaitLeaveQuiet(s, s', c, p);
      QuietStepKeeps(s, s', c, p, At(op));
    case _ =>
      PlainOpQuiet(s, s', c, p, op);
      QuietStepKeeps(s, s', c, p, At(op));
  }

  lemma PlainOpQuiet(s: State, s': State, c: nat, p: nat, op: Op)
    requires Inv(s) && Shape(s) && Exec(s, c, p, At(op)) && NextOp(s, s', c, p, op) && s'.halt == Going
    requires !op.Ready? && !op.Wake? && !op.Reparent? && !op.WaitScan? && !op.WaitLeave?
    ensures QuietStep(s, s', c, p)
  {
    hide Inv, NextOp, QuietStep;
    if op.ForkScan? || op.ForkLink? || op.ForkStart? || op.Kill? {
      ForkOpQuiet(s, s', c, p, op);
    } else {
      SleepOpQuiet(s, s', c, p, op);
    }
  }

  lemma LockedKeeps(s: State, s': State, c: nat, p: nat, pc: Pc, choice: bool)
    requires Inv(s) && Shape(s) && Exec(s, c, p, pc) && NextLocked(s, s', c, p, pc, choice) && Inv1(s')
    requires s'.halt == Going
    ensures Inv(s')
  {
    hide Inv, Inv1, QuietStep, Quiet, ReleaseProc, ReleaseLock;
    match pc
    case At(_) =>
    case WakeLocked(_, _, _) => WakeLockedKeeps(s, s', c, p, pc, choice);
    case SleepHold(ch, l) => FallKeeps(s, s', c, p, ch, l, choice);
    case ForkFill(np) =>
      if choice {
        OthersQuiet(s, s', c, p, pc, choice);
        QuietStepKeeps(s, s', c, p, pc);
      } else {
        FailKeeps(s, s', c, p, np);
      }
    case ForkLocked(i) =>
      if s.st[i] == UNUSED {
        AllocKeeps(s, s', c, p, i, choice);
      } else {
        OthersQuiet(s, s', c, p, pc, choice);
        QuietStepKeeps(s, s', c, p, pc);
      }
    case ForkParent(np) => LinkKeeps(s, s', c, p, np, choice);
    case ForkStartLocked(np) => StartKeeps(s, s', c, p, np, choice);
    case KillLocked(_) =>
      OthersQuiet(s, s', c, p, pc, choice);
      QuietStepKeeps(s, s', c, p, pc);
    case ExitZombie => ZombieKeeps(s, s', c, p, choice);
    case WaitLocked(i) =>
      if s.st[i] == ZOMBIE && choice {
        ReapKeeps(s, s', c, p, i);
      } else {
        ChildKeeps(s, s', c, p, i, choice);
      }
    case Sched(k) =>
      SwtchQuiet(s, s', c, p, k, choice);
      QuietKeeps(s, s');
    case Back(k) =>
      BackQuiet(s, s', c, p, k, choice);
      QuietStepKeeps(s, s', c, p, pc);
    case _ =>
      SelfQuiet(s, s', c, p, pc, choice);
      QuietStepKeeps(s, s', c, p, pc);
  }

  lemma LockedKeeps1(s: State, s': State, c: nat, p: nat, pc: Pc, choice: bool)
    requires Inv(s) && Shape(s) && Exec(s, c, p, pc) && NextLocked(s, s', c, p, pc, choice)
    ensures Inv1(s')
  {
    hide Inv, Inv1, NextLocked;
    InvOne(s);
    if pc.ForkFill? || pc.ForkStartLocked? {
      InfantFacts(s, p);
    }
    NextLockedKeeps1(s, s', c, p, pc, choice);
  }

  lemma ThreadKeeps(s: State, s': State, c: nat, p: nat, e: Event)
    requires Inv(s) && Shape(s) && c < |s.run| && s.run[c] == Thread(p) && Next(s, s', c, e)
    ensures Inv(s')
  {
    hide Inv, Inv1, NextOp, NextLocked, Call, AcquireProc, QuietStep;
    InvOne(s);
    var pc := s.pc[p];
    if pc.At? {
      if e.Continue? && NextOp(s, s', c, p, pc.op) {
        NextOpKeeps1(s, s', c, p, pc.op);
        OpGoing(s, s', c, p, pc.op);
        OpKeeps(s, s', c, p, pc.op);
      } else if pc.op == Ready && Call(s, s', c, p, e) {
        CallKeeps1(s, s', c, p, e);
        CallQuiet(s, s', c, p, e);
        if s'.halt == Going {
          QuietStepKeeps(s, s', c, p, pc);
        } else {
          CallHalts(s, s', c, p, e);
          HaltKeeps(s);
        }
      } else {
        PreemptKeeps1(s, s', c, p, pc.op);
        AcquireGoing(s, s', c, p, p, Yielding(pc.op));
        PreemptQuiet(s, s', c, p, pc.op);
        QuietStepKeeps(s, s', c, p, pc);
      }
    } else {
      LockedKeeps1(s, s', c, p, pc, e.choice);
      LockedGoing(s, s', c, p, pc, e.choice);
      LockedKeeps(s, s', c, p, pc, e.choice);
    }
  }

  lemma OpGoing(s: State, s': State, c: nat, p: nat, op: Op)
    requires Shape(s) && Exec(s, c, p, At(op)) && NextOp(s, s', c, p, op) && Inv1(s')
    ensures s'.halt == Going
  {
    Noted(s');
    hide Inv1;
  }

  lemma Noted(s: State)
    requires Inv1(s)
    ensures NoPanic(s.halt)
  {
  }

  lemma AcquireGoing(s: State, s': State, c: nat, p: nat, i: nat, pc: Pc)
    requires Shape(s) && p < |s.pc| && s.halt == Going && AcquireProc(s, s', c, p, i, pc) && Inv1(s')
    ensures s'.halt == Going
  {
    Noted(s');
    hide Inv1;
  }

  lemma LockedGoing(s: State, s': State, c: nat, p: nat, pc: Pc, choice: bool)
    requires Shape(s) && Exec(s, c, p, pc) && NextLocked(s, s', c, p, pc, choice) && Inv1(s')
    ensures s'.halt == Going
  {
    Noted(s');
    hide Inv1;
  }

  lemma CallHalts(s: State, s': State, c: nat, p: nat, e: Event)
    requires Shape(s) && Exec(s, c, p, At(Ready)) && Call(s, s', c, p, e) && s'.halt != Going
    ensures s' == s.(halt := InitExiting)
  {
  }

  lemma CpuKeeps(s: State, s': State, c: nat)
    requires Inv(s) && Shape(s) && c < |s.run| && !s.run[c].Thread? && s.halt == Going && Schedule(s, s', c)
    ensures Inv(s')
  {
    hide Inv, Inv1, Quiet;
    InvOne(s);
    ScheduleKeeps1(s, s', c);
    Noted(s');
    ScheduleQuiet(s, s', c);
    QuietKeeps(s, s');
  }

  lemma NextKeeps(s: State, s': State, c: nat, e: Event)
    requires Inv(s) && Shape(s) && Next(s, s', c, e)
    ensures Inv(s')
  {
    hide Inv, Schedule;
    if s.run[c].Thread? {
      ThreadKeeps(s, s', c, s.run[c].p, e);
    } else {
      CpuKeeps(s, s', c);
    }
  }

  lemma InitialInv1(s: State)
    requires Initial(s)
    ensures Inv1(s)
  {
  }

  lemma InitialWake(s: State)
    requires Initial(s)
    ensures forall p :: 0 <= p < |s.st| ==> NoteOf(s.pc[p]) == Plain
    ensures InvFork(s.pc, s.st, s.on, s.parent) && InvWake(s.pc, s.st, s.on, s.parent, s.lk)
  {
    assert NoteOf(Back(ForkRet)) == Plain;
    hide NoteOf;
  }

  lemma InitialInv(s: State)
    requires Initial(s)
    ensures Inv(s)
  {
    hide Inv1, InvFork, InvWake, NoteOf;
    InitialInv1(s);
    InitialWake(s);
  }

  // ---- runs

  datatype Act = Act(cpu: nat, e: Event)

  ghost predicate IsRun(ss: seq<State>, acts: seq<Act>) {
    && |ss| == |acts| + 1 && Initial(ss[0])
    && forall i :: 0 <= i < |acts| ==> Shape(ss[i]) && Next(ss[i], ss[i + 1], acts[i].cpu, acts[i].e)
  }

  lemma {:induction false} RunInv(ss: seq<State>, acts: seq<Act>, i: nat)
    requires IsRun(ss, acts) && i < |ss|
    ensures Inv(ss[i])
  {
    hide Inv, Next, Initial;
    if i == 0 {
      InitialInv(ss[0]);
    } else {
      RunInv(ss, acts, i - 1);
      NextKeeps(ss[i - 1], ss[i], acts[i - 1].cpu, acts[i - 1].e);
    }
  }

  /** A state that some run reaches. */
  ghost predicate Reachable(s: State) {
    exists ss, acts :: IsRun(ss, acts) && ss[|acts|] == s
  }

  lemma ReachableInv(s: State)
    requires Reachable(s)
    ensures Inv(s) && Shape(s)
  {
    hide Inv, Initial, Next;
    var ss, acts :| IsRun(ss, acts) && ss[|acts|] == s;
    RunLast(ss, acts);
    InvOne(s);
  }

  lemma RunLast(ss: seq<State>, acts: seq<Act>)
    requires IsRun(ss, acts)
    ensures |ss| == |acts| + 1 && Inv(ss[|acts|])
  {
    hide Inv, Initial;
    RunInv(ss, acts, |acts|);
  }

  // ---- the theorems

  /** No panic is ever reached, except when init exits. */
  lemma OnlyInitPanics(s: State)
    requires Reachable(s)
    ensures s.halt == Going || s.halt == InitExiting
  {
    hide Reachable, InvFork, InvParent, InvWake, InvWait;
    ReachableInv(s);
  }

  predicate Assigned(s: State, p: nat) {
    exists c :: 0 <= c < |s.cproc| && s.cproc[c] == Some(p)
  }

  /** Whenever p->lock is free, p is RUNNING exactly if some CPU has it as c->proc.  That
      CPU is the only one and executes p; if p is not RUNNING, no CPU executes it. */
  lemma SchedulerInvariant(s: State, p: nat)
    requires Reachable(s) && Shape(s) && p < |s.st| && s.plock[p] == None
    ensures s.st[p] == RUNNING <==> Assigned(s, p)
    ensures forall c, d :: 0 <= c < |s.cproc| && 0 <= d < |s.cproc| && s.cproc[c] == s.cproc[d] == Some(p) ==> c == d
    ensures forall c :: 0 <= c < |s.run| ==> (s.run[c] == Thread(p) <==> s.cproc[c] == Some(p))
  {
    hide Reachable, InvFork, InvParent, InvWake, InvWait;
    ReachableInv(s);
    StateAt(s, p);
    forall c | 0 <= c < |s.run| && s.cproc[c] == Some(p) ensures s.run[c] == Thread(p) {
      CpuFacts(s, c);
    }
    if s.st[p] == RUNNING {
      assert s.cproc[s.on[p].v] == Some(p);
    }
    if Assigned(s, p) {
      var c :| 0 <= c < |s.cproc| && s.cproc[c] == Some(p);
      ExecFacts2(s, c, p);
    }
  }

  lemma ExecFacts2(s: State, c: nat, p: nat)
    requires Inv1(s) && c < |s.run| && p < |s.st| && s.run[c] == Thread(p) && s.plock[p] == None
    ensures s.on[p] == Some(c) && s.st[p] == RUNNING
  {
    CpuFacts(s, c);
    StateAt(s, p);
  }

  /** A process that has released `l` in order to sleep on `ch`. */
  predicate Sleeper(pc: Pc, ch: Chan, l: nat) {
    pc == SleepSet(ch, l) || pc == Sched(Slept(ch, l)) || pc == Back(Slept(ch, l))
  }

  /** A wakeup on `ch` under `l` finds each such process asleep on `ch`, or woken already:
      never on its way to sleep. */
  lemma WakeupFindsSleeper(s: State, c: nat, w: nat, ch: Chan, q: nat, k: Caller, l: nat)
    requires Reachable(s) && Shape(s) && Exec(s, c, w, WakeLocked(ch, q, k)) && q < |s.st|
    requires Sleeper(s.pc[q], ch, l)
    ensures (s.st[q] == SLEEPING && s.chan[q] == ch) || s.st[q] == RUNNABLE || s.st[q] == RUNNING
  {
    hide Reachable, InvFork, InvParent, InvWake, InvWait, InvLocks, InvRun, InvState;
    ReachableInv(s);
    LockedOut(s, c, w, WakeLocked(ch, q, k), q);
    NotFalling(s, c, w, WakeLocked(ch, q, k));
    StateAt(s, q);
  }

  /** When wakeup on `ch` under `l` has gone through the table, no process that released
      `l` to sleep on `ch` is left asleep or on its way to sleep. */
  lemma NoLostWakeup(s: State, c: nat, w: nat, ch: Chan, i: nat, k: Caller, l: nat, q: nat)
    requires Reachable(s) && Shape(s) && Exec(s, c, w, At(Wake(ch, i, k))) && i >= |s.st|
    requires l < |s.lk| && s.lk[l] == Some(c) && q < |s.st| && q != w && Sleeper(s.pc[q], ch, l)
    ensures s.pc[q] != SleepSet(ch, l) && s.st[q] != SLEEPING
  {
    hide Reachable, InvFork, InvParent, InvWait, Inv1;
    ReachableInv(s);
    WaitHeld(s, c, w, At(Wake(ch, i, k)));
    assert NoneLeft(s.pc, s.st, s.lk, s.on[w], w, ch, i);
  }

  /** A process asleep in wait. */
  predicate AsleepInWait(s: State, p: nat)
    requires Shape(s) && p < |s.st|
  {
    s.st[p] == SLEEPING && s.pc[p] == Back(Slept(ProcChan(p), WAIT))
  }

  /** Whenever wait_lock is free, a process asleep in wait has a child and none of its
      children is a zombie. */
  lemma NoLostExit(s: State, p: nat)
    requires Reachable(s) && Shape(s) && s.lk[WAIT] == None && p < |s.st| && AsleepInWait(s, p)
    ensures exists q :: 0 <= q < |s.st| && s.parent[q] == Some(p)
    ensures forall q :: 0 <= q < |s.st| && s.parent[q] == Some(p) ==> s.st[q] != ZOMBIE
  {
    hide Reachable, InvFork, InvParent, InvWake, Inv1;
    ReachableInv(s);
    NoInitWakeup(s);
    assert RestOk(s.pc, s.st, s.parent, p);
  }

  lemma NoInitWakeup(s: State)
    requires Inv(s) && s.lk[WAIT] == None
    ensures !InitWakeup(s.pc)
  {
    hide Inv, NoteOf;
    InvOne(s);
    if InitWakeup(s.pc) {
      var w :| 0 <= w < |s.pc| && WakesInit(NoteOf(s.pc[w]));
      HoldsWait(s, w);
    }
  }

  lemma HoldsWait(s: State, w: nat)
    requires Inv(s) && w < |s.st| && WaitNote(NoteOf(s.pc[w]))
    ensures s.on[w].Some? && s.lk[WAIT] == s.on[w]
  {
    hide InvFork, InvParent, InvWake, InvWait, NoteOf, LocksOf, PcOk;
    StateAt(s, w);
    WaitNoteLocks(s.pc[w], w);
    assert Fits(s.lk, s.on[w].v, RunLocks(s.run[s.on[w].v], s.pc));
  }

  /** No process has a parent that is gone: only init, and a process that fork has not
      linked yet, are without one. */
  lemma ParentsAlive(s: State, q: nat)
    requires Reachable(s) && Shape(s) && q < |s.st| && s.st[q] != UNUSED
    ensures if s.parent[q].Some?
            then s.parent[q].v < |s.st| && s.st[s.parent[q].v] != UNUSED && s.st[s.parent[q].v] != ZOMBIE
            else q == INIT || s.st[q] == USED
  {
    hide Reachable, InvFork, InvWake, InvWait, Inv1, NoteOf;
    ReachableInv(s);
    assert ParentOk(s.st, s.parent, q);
    if s.parent[q].Some? {
      var p := s.parent[q].v;
      ZombieGone(s, p);
      assert SweptOk(NoteOf(s.pc[p]), s.parent, p);
    }
  }

  lemma ZombieGone(s: State, p: nat)
    requires Inv(s) && p < |s.st|
    ensures s.st[p] == ZOMBIE ==> NoteOf(s.pc[p]) == Gone
  {
    hide InvFork, InvParent, InvWake, InvWait, InvLocks, InvRun, InvState;
    StateAt(s, p);
  }

  /** When wait frees a zombie child, no CPU executes the child or has it as c->proc,
      although exit wakes the parent before the child is a zombie. */
  lemma FreeIsSafe(s: State, c: nat, p: nat, i: nat, d: nat)
    requires Reachable(s) && Shape(s) && Exec(s, c, p, WaitLocked(i)) && i < |s.st| && s.st[i] == ZOMBIE && d < |s.run|
    ensures s.run[d] != Thread(i) && s.cproc[d] != Some(i)
  {
    hide Reachable, InvFork, InvParent, InvWake, InvWait;
    ReachableInv(s);
    ExecFacts(s, c, p, WaitLocked(i));
    LockedOut(s, c, p, WaitLocked(i), i);
    CpuFacts(s, d);
  }
}
