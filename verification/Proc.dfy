/** Processes (kernel/proc.c) as a step relation: any number of CPUs and processes, a
    lock for each process, spinlocks of which lock 0 is wait_lock, and a program
    counter for every kernel thread and every scheduler.  What happens between two
    steps is protected by a lock that is held throughout. */
module Proc {
  import opened Options

  datatype PState = UNUSED | USED | SLEEPING | RUNNABLE | RUNNING | ZOMBIE

  /** What a process sleeps on: the address of a process, or any other address. */
  datatype Chan = NoChan | ProcChan(p: nat) | Other(a: nat)

  const WAIT: nat := 0
  const INIT: nat := 0

  /** Who called wakeup: any kernel code, exit for its parent, or reparent at entry j. */
  datatype Caller = Client | ExitParent | Reparenting(j: nat)

  /** A point in kernel code where the thread holds no process lock. */
  datatype Op =
    | Ready
    | Wake(ch: Chan, i: nat, k: Caller)
    | SleepAcq(ch: Chan, l: nat)
    | Reacquire(l: nat)
    | ForkScan(i: nat) | ForkLink(np: nat) | ForkStart(np: nat)
    | Kill(i: nat)
    | ExitAcq | Reparent(j: nat) | ExitLock
    | WaitAcq | WaitScan(i: nat, havekids: bool) | WaitLeave

  /** Where a thread resumes after sched. */
  datatype Cont = Yielded(op: Op) | Slept(ch: Chan, l: nat) | ForkRet | Exited

  datatype Pc =
    | At(op: Op)
    | WakeLocked(ch: Chan, i: nat, k: Caller)
    | SleepHold(ch: Chan, l: nat) | SleepSet(ch: Chan, l: nat)
    | Yielding(op: Op)
    | ForkLocked(i: nat) | ForkFill(np: nat) | ForkParent(np: nat) | ForkStartLocked(np: nat)
    | KillLocked(i: nat)
    | ExitZombie | ExitRelease
    | WaitLocked(i: nat)
    | Sched(cont: Cont)
    | Back(cont: Cont)

  /** What a CPU executes: its scheduler, or the thread of a process. */
  datatype Run = Scan(i: nat) | Locked(i: nat) | Returned(p: nat) | Thread(p: nat)

  datatype Halt = Going | InitExiting | SchedPanic | ZombieExit | AcquirePanic

  /** `on` tells for each process which CPU executes its thread; it is determined by
      `run`. */
  datatype State = State(
    st: seq<PState>, chan: seq<Chan>, parent: seq<Opt<nat>>, killed: seq<bool>, pc: seq<Pc>, on: seq<Opt<nat>>,
    plock: seq<Opt<nat>>, lk: seq<Opt<nat>>, run: seq<Run>, cproc: seq<Opt<nat>>, halt: Halt)

  predicate Shape(s: State) {
    && 0 < |s.st| == |s.chan| == |s.parent| == |s.killed| == |s.pc| == |s.on| == |s.plock|
    && 0 < |s.lk| && |s.run| == |s.cproc|
  }

  // ---- steps of a thread

  /** CPU `c` executes the thread of `p`, which is at `pc`. */
  predicate Exec(s: State, c: nat, p: nat, pc: Pc) {
    c < |s.run| && p < |s.pc| && s.run[c] == Thread(p) && s.pc[p] == pc && s.halt == Going
  }

  function Goto(s: State, p: nat, pc: Pc): State
    requires p < |s.pc|
  {
    s.(pc := s.pc[p := pc])
  }

  /** acquire of a process lock: panics if this CPU has it, waits if another one has. */
  predicate AcquireProc(s: State, s': State, c: nat, p: nat, i: nat, pc: Pc)
    requires Shape(s) && p < |s.pc|
  {
    && i < |s.plock|
    && (s.plock[i] == None || s.plock[i] == Some(c))
    && s' == if s.plock[i] == Some(c) then s.(halt := AcquirePanic)
             else Goto(s, p, pc).(plock := s.plock[i := Some(c)])
  }

  predicate ReleaseProc(s: State, s': State, p: nat, i: nat, pc: Pc)
    requires Shape(s) && p < |s.pc|
  {
    i < |s.plock| && s' == Goto(s, p, pc).(plock := s.plock[i := None])
  }

  predicate AcquireLock(s: State, s': State, c: nat, p: nat, l: nat, pc: Pc)
    requires Shape(s) && p < |s.pc|
  {
    && l < |s.lk|
    && (s.lk[l] == None || s.lk[l] == Some(c))
    && s' == if s.lk[l] == Some(c) then s.(halt := AcquirePanic)
             else Goto(s, p, pc).(lk := s.lk[l := Some(c)])
  }

  predicate ReleaseLock(s: State, s': State, p: nat, l: nat, pc: Pc)
    requires Shape(s) && p < |s.pc|
  {
    l < |s.lk| && s' == Goto(s, p, pc).(lk := s.lk[l := None])
  }

  predicate HoldsNone(s: State, c: nat) {
    forall l :: 0 <= l < |s.lk| ==> s.lk[l] != Some(c)
  }

  predicate HoldsOnly(s: State, c: nat, l: nat) {
    l < |s.lk| && s.lk[l] == Some(c) && forall m :: 0 <= m < |s.lk| && m != l ==> s.lk[m] != Some(c)
  }

  // ---- calls that kernel code makes

  datatype Event =
    | ClientAcquire(l: nat) | ClientRelease(l: nat)
    | CallSleep(ch: Chan, l: nat) | CallWakeup(ch: Chan)
    | CallFork | CallKill | CallExit | CallWait
    | Preempt
    | Continue(choice: bool)

  /** Locks other than wait_lock are taken and released by code outside proc.c; sleep is
      called with just the one lock held, and fork, kill, exit and wait with none. */
  predicate Call(s: State, s': State, c: nat, p: nat, e: Event)
    requires Shape(s) && p < |s.pc|
  {
    match e
    case ClientAcquire(l) =>
      l != WAIT && l < |s.lk| && s.lk[l] == None && s' == s.(lk := s.lk[l := Some(c)])
    case ClientRelease(l) =>
      l != WAIT && l < |s.lk| && s.lk[l] == Some(c) && s' == s.(lk := s.lk[l := None])
    case CallSleep(ch, l) =>
      l != WAIT && !ch.ProcChan? && HoldsOnly(s, c, l) && s' == Goto(s, p, At(SleepAcq(ch, l)))
    case CallWakeup(ch) =>
      !ch.ProcChan? && s' == Goto(s, p, At(Wake(ch, 0, Client)))
    case CallFork => HoldsNone(s, c) && s' == Goto(s, p, At(ForkScan(0)))
    case CallKill => HoldsNone(s, c) && s' == Goto(s, p, At(Kill(0)))
    case CallExit =>
      HoldsNone(s, c) && s' == if p == INIT then s.(halt := InitExiting) else Goto(s, p, At(ExitAcq))
    case CallWait => HoldsNone(s, c) && s' == Goto(s, p, At(WaitAcq))
    case Preempt => false
    case Continue(_) => false
  }

  // ---- what the code of proc.c does next

  /** The next step from a point where no process lock is held. */
  predicate NextOp(s: State, s': State, c: nat, p: nat, op: Op)
    requires Shape(s) && p < |s.pc|
  {
    var n := |s.st|;
    match op
    case Ready => false
    case Wake(ch, i, k) =>
      if i >= n then s' == Goto(s, p, AfterWake(k))
      else if i == p then s' == Goto(s, p, At(Wake(ch, i + 1, k)))
      else AcquireProc(s, s', c, p, i, WakeLocked(ch, i, k))
    case SleepAcq(ch, l) => AcquireProc(s, s', c, p, p, SleepHold(ch, l))
    case Reacquire(l) => AcquireLock(s, s', c, p, l, if l == WAIT then At(WaitScan(0, false)) else At(Ready))
    case ForkScan(i) =>
      if i >= n then s' == Goto(s, p, At(Ready)) else AcquireProc(s, s', c, p, i, ForkLocked(i))
    case ForkLink(np) => AcquireLock(s, s', c, p, WAIT, ForkParent(np))
    case ForkStart(np) => AcquireProc(s, s', c, p, np, ForkStartLocked(np))
    case Kill(i) =>
      if i >= n then s' == Goto(s, p, At(Ready)) else AcquireProc(s, s', c, p, i, KillLocked(i))
    case ExitAcq => AcquireLock(s, s', c, p, WAIT, At(Reparent(0)))
    case Reparent(j) =>
      if j >= n then
        s' == Goto(s, p, At(Wake(ChanOf(s.parent[p]), 0, ExitParent)))
      else if s.parent[j] == Some(p) then
        s' == Goto(s, p, At(Wake(ProcChan(INIT), 0, Reparenting(j)))).(parent := s.parent[j := Some(INIT)])
      else s' == Goto(s, p, At(Reparent(j + 1)))
    case ExitLock => AcquireProc(s, s', c, p, p, ExitZombie)
    case WaitAcq => AcquireLock(s, s', c, p, WAIT, At(WaitScan(0, false)))
    case WaitScan(i, h) =>
      if i < n then
        if s.parent[i] == Some(p) then AcquireProc(s, s', c, p, i, WaitLocked(i))
        else s' == Goto(s, p, At(WaitScan(i + 1, h)))
      else if !h then s' == Goto(s, p, At(WaitLeave))
      else
        // killed() takes and drops the lock of p
        if s.plock[p] == Some(c) then s' == s.(halt := AcquirePanic)
        else
          s.plock[p] == None
          && s' == Goto(s, p, if s.killed[p] then At(WaitLeave) else At(SleepAcq(ProcChan(p), WAIT)))
    case WaitLeave => ReleaseLock(s, s', p, WAIT, At(Ready))
  }

  /** A process pointer as a channel. */
  function ChanOf(o: Opt<nat>): Chan {
    if o.None? then NoChan else ProcChan(o.v)
  }

  function AfterWake(k: Caller): Pc {
    match k
    case Client => At(Ready)
    case ExitParent => At(ExitLock)
    case Reparenting(j) => At(Reparent(j + 1))
  }

  function Woken(st: PState): PState {
    if st == SLEEPING then RUNNABLE else st
  }

  /** freeproc, as far as the fields of the model go. */
  function Freed(s: State, q: nat): State
    requires Shape(s) && q < |s.st|
  {
    s.(st := s.st[q := UNUSED], chan := s.chan[q := NoChan], parent := s.parent[q := None],
       killed := s.killed[q := false])
  }

  /** The next step from a point where a process lock is held.  `choice` stands for what
      the model leaves open: whether memory runs out, whether copyout fails, whether
      a pid matches. */
  predicate NextLocked(s: State, s': State, c: nat, p: nat, pc: Pc, choice: bool)
    requires Shape(s) && p < |s.pc| && c < |s.run|
  {
    match pc
    case At(_) => false
    case WakeLocked(ch, i, k) =>
      && i < |s.st|
      && ReleaseProc(if s.st[i] == SLEEPING && s.chan[i] == ch then s.(st := s.st[i := RUNNABLE]) else s,
                     s', p, i, At(Wake(ch, i + 1, k)))
    case SleepHold(ch, l) => ReleaseLock(s, s', p, l, SleepSet(ch, l))
    case SleepSet(ch, l) =>
      s' == Goto(s, p, Sched(Slept(ch, l))).(chan := s.chan[p := ch], st := s.st[p := SLEEPING])
    case Yielding(op) => s' == Goto(s, p, Sched(Yielded(op))).(st := s.st[p := RUNNABLE])
    case ForkLocked(i) =>
      && i < |s.st|
      && if s.st[i] != UNUSED then ReleaseProc(s, s', p, i, At(ForkScan(i + 1)))
         else s' == s.(st := s.st[i := USED], pc := s.pc[i := Back(ForkRet)][p := ForkFill(i)])
    case ForkFill(np) =>
      && np < |s.st|
      && if choice then ReleaseProc(s, s', p, np, At(ForkLink(np)))
         else ReleaseProc(Freed(s, np), s', p, np, At(Ready))
    case ForkParent(np) =>
      np < |s.st| && ReleaseLock(s.(parent := s.parent[np := Some(p)]), s', p, WAIT, At(ForkStart(np)))
    case ForkStartLocked(np) =>
      np < |s.st| && ReleaseProc(s.(st := s.st[np := RUNNABLE]), s', p, np, At(Ready))
    case KillLocked(i) =>
      && i < |s.st|
      && if choice then
           ReleaseProc(s.(killed := s.killed[i := true], st := s.st[i := Woken(s.st[i])]), s', p, i, At(Ready))
         else ReleaseProc(s, s', p, i, At(Kill(i + 1)))
    case ExitZombie => s' == Goto(s, p, ExitRelease).(st := s.st[p := ZOMBIE])
    case ExitRelease => ReleaseLock(s, s', p, WAIT, Sched(Exited))
    case WaitLocked(i) =>
      && i < |s.st|
      && if s.st[i] == ZOMBIE then ReleaseProc(if choice then Freed(s, i) else s, s', p, i, At(WaitLeave))
         else ReleaseProc(s, s', p, i, At(WaitScan(i + 1, true)))
    case Sched(k) =>
      // sched's checks, then swtch to the scheduler of this CPU
      s' == if s.plock[p] != Some(c) || !HoldsNone(s, c) || s.st[p] == RUNNING then s.(halt := SchedPanic)
            else Goto(s, p, Back(k)).(run := s.run[c := Returned(p)], on := s.on[p := None])
    case Back(k) =>
      match k {
        case Yielded(op) => ReleaseProc(s, s', p, p, At(op))
        case Slept(ch, l) => ReleaseProc(s.(chan := s.chan[p := NoChan]), s', p, p, At(Reacquire(l)))
        case ForkRet => ReleaseProc(s, s', p, p, At(Ready))
        case Exited => s' == s.(halt := ZombieExit)
      }
  }

  // ---- the scheduler

  predicate Schedule(s: State, s': State, c: nat)
    requires Shape(s) && c < |s.run|
  {
    var n := |s.st|;
    match s.run[c]
    case Scan(i) =>
      && i < n && (s.plock[i] == None || s.plock[i] == Some(c))
      && s' == if s.plock[i] == Some(c) then s.(halt := AcquirePanic)
               else s.(run := s.run[c := Locked(i)], plock := s.plock[i := Some(c)])
    case Locked(i) =>
      && i < n
      && s' == if s.st[i] == RUNNABLE
               then s.(st := s.st[i := RUNNING], cproc := s.cproc[c := Some(i)], run := s.run[c := Thread(i)],
                       on := s.on[i := Some(c)])
               else s.(run := s.run[c := Scan((i + 1) % n)], plock := s.plock[i := None])
    case Returned(p) =>
      p < n && s' == s.(cproc := s.cproc[c := None], run := s.run[c := Scan((p + 1) % n)], plock := s.plock[p := None])
    case Thread(_) => false
  }

  /** One step of CPU `c`.  A timer interrupt calls yield wherever no lock is held. */
  predicate Next(s: State, s': State, c: nat, e: Event)
    requires Shape(s)
  {
    && c < |s.run| && s.halt == Going
    && match s.run[c]
       case Thread(p) =>
         && p < |s.pc|
         && (match s.pc[p]
             case At(op) =>
               || (e.Continue? && NextOp(s, s', c, p, op))
               || (op == Ready && Call(s, s', c, p, e))
               || (e == Preempt && HoldsNone(s, c) && AcquireProc(s, s', c, p, p, Yielding(op)))
             case pc => e.Continue? && NextLocked(s, s', c, p, pc, e.choice))
       case _ => e == Continue(true) && Schedule(s, s', c)
  }

  /** The state that userinit leaves: process 0 is ready to run, no lock is held. */
  predicate Initial(s: State) {
    && Shape(s) && s.halt == Going
    && (forall p :: 0 <= p < |s.st| ==>
          && s.st[p] == (if p == INIT then RUNNABLE else UNUSED)
          && s.pc[p] == Back(ForkRet) && s.on[p] == None && s.parent[p] == None && s.plock[p] == None)
    && (forall l :: 0 <= l < |s.lk| ==> s.lk[l] == None)
    && (forall c :: 0 <= c < |s.run| ==> s.run[c] == Scan(0) && s.cproc[c] == None)
  }
}
