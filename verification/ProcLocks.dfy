/** Who holds which lock, which CPU runs which process, and what state each process is
    in: the part of the invariant of module Proc that every step keeps by itself. */
module ProcLocks {
  import opened Options
  import opened Proc

  // ---- what a program counter says about locks

  /** The process lock that the thread of `p` holds at `pc`. */
  function LockedBy(pc: Pc, p: nat): Opt<nat> {
    match pc
    case At(_) => None
    case WakeLocked(_, i, _) => Some(i)
    case ForkLocked(i) => Some(i)
    case ForkFill(np) => Some(np)
    case ForkParent(_) => None
    case ForkStartLocked(np) => Some(np)
    case KillLocked(i) => Some(i)
    case WaitLocked(i) => Some(i)
    case _ => Some(p)
  }

  datatype Locks = NoLocks | Clients | Only(l: nat)

  predicate Allows(k: Locks, l: nat) {
    match k
    case NoLocks => false
    case Clients => l != WAIT
    case Only(m) => l == m
  }

  /** The spinlocks that a thread may hold and, if it is one only, must hold. */
  function OpLocks(op: Op): Locks {
    match op
    case Ready => Clients
    case Wake(_, _, k) => if k == Client then Clients else Only(WAIT)
    case SleepAcq(_, l) => Only(l)
    case Reparent(_) => Only(WAIT)
    case ExitLock => Only(WAIT)
    case WaitScan(_, _) => Only(WAIT)
    case WaitLeave => Only(WAIT)
    case _ => NoLocks
  }

  function LocksOf(pc: Pc): Locks {
    match pc
    case At(op) => OpLocks(op)
    case WakeLocked(_, _, k) => if k == Client then Clients else Only(WAIT)
    case SleepHold(_, l) => Only(l)
    case ForkParent(_) => Only(WAIT)
    case ExitZombie => Only(WAIT)
    case ExitRelease => Only(WAIT)
    case WaitLocked(_) => Only(WAIT)
    case _ => NoLocks
  }

  function ProcLock(r: Run, pcs: seq<Pc>): Opt<nat> {
    match r
    case Scan(_) => None
    case Locked(i) => Some(i)
    case Returned(p) => Some(p)
    case Thread(p) => if p < |pcs| then LockedBy(pcs[p], p) else None
  }

  function RunLocks(r: Run, pcs: seq<Pc>): Locks {
    match r
    case Thread(p) => if p < |pcs| then LocksOf(pcs[p]) else NoLocks
    case _ => NoLocks
  }

  // ---- the lock invariant

  /** CPU `c` holds the process lock `o` and no other. */
  predicate FitsProc(plock: seq<Opt<nat>>, c: nat, o: Opt<nat>) {
    && (o.Some? ==> o.v < |plock|)
    && forall i :: 0 <= i < |plock| ==> (plock[i] == Some(c) <==> o == Some(i))
  }

  predicate Fits(lk: seq<Opt<nat>>, c: nat, k: Locks) {
    && (forall l :: 0 <= l < |lk| && lk[l] == Some(c) ==> Allows(k, l))
    && (k.Only? ==> k.l < |lk| && lk[k.l] == Some(c))
  }

  predicate HeldByCpus(lock: seq<Opt<nat>>, n: nat) {
    forall l :: 0 <= l < |lock| && lock[l].Some? ==> lock[l].v < n
  }

  predicate InvLocks(run: seq<Run>, pcs: seq<Pc>, plock: seq<Opt<nat>>, lk: seq<Opt<nat>>) {
    && HeldByCpus(plock, |run|) && HeldByCpus(lk, |run|)
    && (forall c :: 0 <= c < |run| ==> FitsProc(plock, c, ProcLock(run[c], pcs)))
    && (forall c :: 0 <= c < |run| ==> Fits(lk, c, RunLocks(run[c], pcs)))
  }

  // ---- CPUs and processes

  predicate RunOk(r: Run, n: nat) {
    match r
    case Scan(i) => i < n
    case Locked(i) => i < n
    case Returned(p) => p < n
    case Thread(p) => p < n
  }

  function CprocOf(r: Run): Opt<nat> {
    match r
    case Returned(p) => Some(p)
    case Thread(p) => Some(p)
    case _ => None
  }

  predicate InvRun(run: seq<Run>, on: seq<Opt<nat>>, cproc: seq<Opt<nat>>) {
    && |cproc| == |run|
    && (forall c :: 0 <= c < |run| ==> RunOk(run[c], |on|) && cproc[c] == CprocOf(run[c]))
    && (forall c :: 0 <= c < |run| && run[c].Thread? ==> on[run[c].p] == Some(c))
    && (forall p :: 0 <= p < |on| && on[p].Some? ==> on[p].v < |run| && run[on[p].v] == Thread(p))
  }

  // ---- process states

  predicate StateOk(st: PState, chan: Chan, pc: Pc, on: Opt<nat>) {
    if on.Some? then
      match pc
      case Sched(Yielded(_)) => st == RUNNABLE
      case Sched(Slept(ch, _)) => st == SLEEPING && chan == ch
      case Sched(Exited) => st == ZOMBIE
      case Sched(ForkRet) => false
      case ExitRelease => st == ZOMBIE
      case Back(Exited) => false
      case _ => st == RUNNING
    else
      pc.Back? &&
      match st
      case UNUSED => pc.cont == ForkRet || pc.cont == Exited
      case USED => pc.cont == ForkRet
      case SLEEPING => pc.cont.Slept? && chan == pc.cont.ch
      case RUNNABLE => pc.cont != Exited
      case RUNNING => false
      case ZOMBIE => pc.cont == Exited
  }

  /** A sleeper on wait_lock sleeps on its own address; no other sleeps on a process.  A
      thread that has yielded held no lock. */
  predicate OpOk(op: Op, p: nat) {
    match op
    case SleepAcq(ch, l) => SleepOk(ch, l, p)
    case Wake(ch, _, k) =>
      match k {
        case Client => !ch.ProcChan?
        case ExitParent => true
        case Reparenting(_) => ch == ProcChan(INIT)
      }
    case _ => true
  }

  predicate SleepOk(ch: Chan, l: nat, p: nat) {
    if l == WAIT then ch == ProcChan(p) else !ch.ProcChan?
  }

  predicate ContOk(k: Cont, p: nat) {
    match k
    case Yielded(op) => OpOk(op, p) && !OpLocks(op).Only?
    case Slept(ch, l) => SleepOk(ch, l, p)
    case _ => true
  }

  predicate PcOk(pc: Pc, p: nat) {
    match pc
    case At(op) => OpOk(op, p)
    case WakeLocked(ch, i, k) => i != p && OpOk(Wake(ch, i, k), p)
    case SleepHold(ch, l) => SleepOk(ch, l, p)
    case SleepSet(ch, l) => SleepOk(ch, l, p)
    case Yielding(op) => OpOk(op, p) && !OpLocks(op).Only?
    case Sched(k) => ContOk(k, p)
    case Back(k) => ContOk(k, p)
    case _ => true
  }

  predicate InvState(st: seq<PState>, chan: seq<Chan>, pcs: seq<Pc>, on: seq<Opt<nat>>)
    requires |st| == |chan| == |pcs| == |on|
  {
    forall p :: 0 <= p < |st| ==> StateOk(st[p], chan[p], pcs[p], on[p]) && PcOk(pcs[p], p)
  }

  predicate NoPanic(h: Halt) {
    h == Going || h == InitExiting
  }

  predicate Inv1(s: State) {
    && Shape(s) && NoPanic(s.halt)
    && InvLocks(s.run, s.pc, s.plock, s.lk)
    && InvRun(s.run, s.on, s.cproc)
    && InvState(s.st, s.chan, s.pc, s.on)
  }

  // ---- moving a thread keeps the locks in order

  predicate SameOthers(a: seq<Opt<nat>>, b: seq<Opt<nat>>, c: nat) {
    && |b| == |a|
    && forall l :: 0 <= l < |a| ==>
         b[l] == a[l] || ((a[l] == Some(c) || a[l] == None) && (b[l] == Some(c) || b[l] == None))
  }

  /** The thread on CPU `c` goes to `pc`, and takes or drops locks as `pc` says. */
  lemma Moved(run: seq<Run>, pcs: seq<Pc>, on: seq<Opt<nat>>, plock: seq<Opt<nat>>, lk: seq<Opt<nat>>, c: nat, p: nat,
              pc: Pc,
              pcs': seq<Pc>, plock': seq<Opt<nat>>, lk': seq<Opt<nat>>)
    requires InvLocks(run, pcs, plock, lk) && c < |run| && run[c] == Thread(p) && p < |pcs|
    requires forall d :: 0 <= d < |run| && d != c ==> run[d] != Thread(p)
    requires |pcs'| == |pcs| && pcs'[p] == pc
    requires forall d, q :: 0 <= d < |run| && 0 <= q < |pcs| && d != c && run[d] == Thread(q) ==> pcs'[q] == pcs[q]
    requires SameOthers(plock, plock', c) && FitsProc(plock', c, LockedBy(pc, p))
    requires SameOthers(lk, lk', c) && Fits(lk', c, LocksOf(pc))
    ensures InvLocks(run, pcs', plock', lk')
  {
    forall d | 0 <= d < |run|
      ensures FitsProc(plock', d, ProcLock(run[d], pcs')) && Fits(lk', d, RunLocks(run[d], pcs'))
    {
      if d != c {
        assert ProcLock(run[d], pcs') == ProcLock(run[d], pcs);
        assert RunLocks(run[d], pcs') == RunLocks(run[d], pcs);
      }
    }
  }

  /** A point that a running thread can be at while its state is RUNNING. */
  predicate Plain(pc: Pc, p: nat) {
    PcOk(pc, p) && !pc.Sched? && pc != ExitRelease && pc != Back(Exited)
  }

  lemma ExecFacts(s: State, c: nat, p: nat, pc: Pc)
    requires Inv1(s) && Exec(s, c, p, pc)
    ensures Shape(s) && s.on[p] == Some(c) && FitsProc(s.plock, c, LockedBy(pc, p)) && Fits(s.lk, c, LocksOf(pc))
    ensures StateOk(s.st[p], s.chan[p], pc, s.on[p]) && PcOk(pc, p)
    ensures forall d :: 0 <= d < |s.run| && d != c ==> s.run[d] != Thread(p)
  {
  }

  lemma StateMoved(s: State, p: nat, pc: Pc)
    requires Inv1(s) && p < |s.pc| && StateOk(s.st[p], s.chan[p], pc, s.on[p]) && PcOk(pc, p)
    ensures InvState(s.st, s.chan, s.pc[p := pc], s.on)
  {
    hide StateOk, PcOk;
  }

  lemma GotoKeeps(s: State, c: nat, p: nat, pc0: Pc, pc: Pc)
    requires Inv1(s) && Exec(s, c, p, pc0) && StateOk(s.st[p], s.chan[p], pc, s.on[p]) && PcOk(pc, p)
    requires LockedBy(pc, p) == LockedBy(pc0, p) && Fits(s.lk, c, LocksOf(pc))
    ensures Inv1(Goto(s, p, pc))
  {
    hide StateOk, PcOk, Fits, FitsProc, InvState, InvRun, LockedBy, LocksOf, InvLocks;
    ExecFacts(s, c, p, pc0);
    StateMoved(s, p, pc);
    Moved(s.run, s.pc, s.on, s.plock, s.lk, c, p, pc, s.pc[p := pc], s.plock, s.lk);
  }

  lemma AcquireProcKeeps(s: State, s': State, c: nat, p: nat, pc0: Pc, i: nat, pc: Pc)
    requires Inv1(s) && Exec(s, c, p, pc0) && AcquireProc(s, s', c, p, i, pc)
    requires LockedBy(pc0, p) == None && LockedBy(pc, p) == Some(i)
    requires Fits(s.lk, c, LocksOf(pc)) && StateOk(s.st[p], s.chan[p], pc, s.on[p]) && PcOk(pc, p)
    ensures Inv1(s')
  {
    hide StateOk, PcOk, Fits, InvState, InvRun, LockedBy, LocksOf, InvLocks;
    ExecFacts(s, c, p, pc0);
    StateMoved(s, p, pc);
    Moved(s.run, s.pc, s.on, s.plock, s.lk, c, p, pc, s.pc[p := pc], s.plock[i := Some(c)], s.lk);
  }

  lemma AcquireLockKeeps(s: State, s': State, c: nat, p: nat, pc0: Pc, l: nat, pc: Pc)
    requires Inv1(s) && Exec(s, c, p, pc0) && AcquireLock(s, s', c, p, l, pc)
    requires LocksOf(pc0) == NoLocks && Allows(LocksOf(pc), l) && (LocksOf(pc).Only? ==> LocksOf(pc).l == l)
    requires LockedBy(pc, p) == LockedBy(pc0, p) && StateOk(s.st[p], s.chan[p], pc, s.on[p]) && PcOk(pc, p)
    ensures Inv1(s')
  {
    hide StateOk, PcOk, FitsProc, InvState, InvRun, LockedBy, LocksOf, InvLocks;
    ExecFacts(s, c, p, pc0);
    StateMoved(s, p, pc);
    Moved(s.run, s.pc, s.on, s.plock, s.lk, c, p, pc, s.pc[p := pc], s.plock, s.lk[l := Some(c)]);
  }

  lemma ReleaseLockKeeps(s: State, s': State, c: nat, p: nat, pc0: Pc, l: nat, pc: Pc)
    requires Inv1(s) && Exec(s, c, p, pc0) && ReleaseLock(s, s', p, l, pc)
    requires LocksOf(pc0) == Only(l) && (LocksOf(pc) == NoLocks || (LocksOf(pc) == Clients && l == WAIT))
    requires LockedBy(pc, p) == LockedBy(pc0, p) && StateOk(s.st[p], s.chan[p], pc, s.on[p]) && PcOk(pc, p)
    ensures Inv1(s')
  {
    hide StateOk, PcOk, FitsProc, InvState, InvRun, LockedBy, LocksOf, InvLocks;
    ExecFacts(s, c, p, pc0);
    StateMoved(s, p, pc);
    Moved(s.run, s.pc, s.on, s.plock, s.lk, c, p, pc, s.pc[p := pc], s.plock, s.lk[l := None]);
  }

  /** Only process `i` has changed its state or channel. */
  predicate OnlyProc(s: State, s': State, i: nat) {
    && |s'.st| == |s.st| && |s'.chan| == |s.chan| && |s'.parent| == |s.parent| && |s'.killed| == |s.killed|
    && (forall q :: 0 <= q < |s.st| && q != i ==> s'.st[q] == s.st[q])
    && (forall q :: 0 <= q < |s.chan| && q != i ==> s'.chan[q] == s.chan[q])
  }

  /** A thread that holds the lock of process `i` changes the state of that process and
      drops the lock. */
  lemma ReleaseProcKeeps(s: State, s': State, c: nat, p: nat, pc0: Pc, i: nat, pc: Pc)
    requires Inv1(s) && Exec(s, c, p, pc0) && i < |s.st| && OnlyProc(s, s', i)
    requires s' == s.(st := s'.st, chan := s'.chan, parent := s'.parent, killed := s'.killed,
                      pc := s.pc[p := pc], plock := s.plock[i := None])
    requires StateOk(s'.st[i], s'.chan[i], s'.pc[i], s.on[i])
    requires LockedBy(pc0, p) == Some(i) && LockedBy(pc, p) == None && Fits(s.lk, c, LocksOf(pc))
    requires StateOk(s'.st[p], s'.chan[p], pc, s.on[p]) && PcOk(pc, p)
    ensures Inv1(s')
  {
    hide StateOk, PcOk, Fits, InvRun, LockedBy, LocksOf, InvLocks;
    ExecFacts(s, c, p, pc0);
    Moved(s.run, s.pc, s.on, s.plock, s.lk, c, p, pc, s.pc[p := pc], s.plock[i := None], s.lk);
  }

  // ---- the steps

  lemma WakeKeeps1(s: State, s': State, c: nat, p: nat, op: Op)
    requires Inv1(s) && Exec(s, c, p, At(op)) && NextOp(s, s', c, p, op) && op.Wake?
    ensures Inv1(s')
  {
    hide Inv1, InvState, InvRun, InvLocks, Fits, FitsProc;
    ExecFacts(s, c, p, At(op));
    var Wake(ch, i, k) := op;
    if i >= |s.st| {
      GotoKeeps(s, c, p, At(op), AfterWake(k));
    } else if i == p {
      GotoKeeps(s, c, p, At(op), At(Wake(ch, i + 1, k)));
    } else {
      AcquireProcKeeps(s, s', c, p, At(op), i, WakeLocked(ch, i, k));
    }
  }

  lemma SleepKeeps1(s: State, s': State, c: nat, p: nat, op: Op)
    requires Inv1(s) && Exec(s, c, p, At(op)) && NextOp(s, s', c, p, op) && (op.SleepAcq? || op.Reacquire?)
    ensures Inv1(s')
  {
    hide Inv1, InvState, InvRun, InvLocks, Fits, FitsProc;
    ExecFacts(s, c, p, At(op));
    match op
    case SleepAcq(ch, l) =>
      AcquireProcKeeps(s, s', c, p, At(op), p, SleepHold(ch, l));
    case Reacquire(l) =>
      AcquireLockKeeps(s, s', c, p, At(op), l, if l == WAIT then At(WaitScan(0, false)) else At(Ready));
  }

  lemma ForkKeeps1(s: State, s': State, c: nat, p: nat, op: Op)
    requires Inv1(s) && Exec(s, c, p, At(op)) && NextOp(s, s', c, p, op)
    requires (op.ForkScan? || op.ForkLink? || op.ForkStart? || op.Kill?)
    ensures Inv1(s')
  {
    hide Inv1, InvState, InvRun, InvLocks, Fits, FitsProc;
    ExecFacts(s, c, p, At(op));
    match op
    case ForkScan(i) =>
      if i >= |s.st| {
        NoneFits(s.lk, c);
        GotoKeeps(s, c, p, At(op), At(Ready));
      } else {
        AcquireProcKeeps(s, s', c, p, At(op), i, ForkLocked(i));
      }
    case ForkLink(np) =>
      AcquireLockKeeps(s, s', c, p, At(op), WAIT, ForkParent(np));
    case ForkStart(np) =>
      AcquireProcKeeps(s, s', c, p, At(op), np, ForkStartLocked(np));
    case Kill(i) =>
      if i >= |s.st| {
        NoneFits(s.lk, c);
        GotoKeeps(s, c, p, At(op), At(Ready));
      } else {
        AcquireProcKeeps(s, s', c, p, At(op), i, KillLocked(i));
      }
  }

  lemma ExitKeeps1(s: State, s': State, c: nat, p: nat, op: Op)
    requires Inv1(s) && Exec(s, c, p, At(op)) && NextOp(s, s', c, p, op)
    requires (op.ExitAcq? || op.Reparent? || op.ExitLock?)
    ensures Inv1(s')
  {
    hide Inv1, InvState, InvRun, InvLocks, Fits, FitsProc;
    ExecFacts(s, c, p, At(op));
    match op
    case ExitAcq =>
      AcquireLockKeeps(s, s', c, p, At(op), WAIT, At(Reparent(0)));
    case Reparent(j) =>
      var pc := if j >= |s.st| then At(Wake(ChanOf(s.parent[p]), 0, ExitParent))
                else if s.parent[j] == Some(p) then At(Wake(ProcChan(INIT), 0, Reparenting(j)))
                else At(Reparent(j + 1));
      GotoKeeps(s, c, p, At(op), pc);
      SetParentKeeps1(Goto(s, p, pc), s'.parent);
    case ExitLock =>
      AcquireProcKeeps(s, s', c, p, At(op), p, ExitZombie);
  }

  lemma WaitKeeps1(s: State, s': State, c: nat, p: nat, op: Op)
    requires Inv1(s) && Exec(s, c, p, At(op)) && NextOp(s, s', c, p, op)
    requires (op.WaitAcq? || op.WaitScan? || op.WaitLeave?)
    ensures Inv1(s')
  {
    hide Inv1, InvState, InvRun, InvLocks, Fits, FitsProc;
    ExecFacts(s, c, p, At(op));
    match op
    case WaitAcq =>
      AcquireLockKeeps(s, s', c, p, At(op), WAIT, At(WaitScan(0, false)));
    case WaitScan(i, h) =>
      NotHeld(s, c, p, At(op), p);
      if i < |s.st| && s.parent[i] == Some(p) {
        AcquireProcKeeps(s, s', c, p, At(op), i, WaitLocked(i));
      } else {
        var pc := if i < |s.st| then At(WaitScan(i + 1, h))
                  else if !h || s.killed[p] then At(WaitLeave) else At(SleepAcq(ProcChan(p), WAIT));
        GotoKeeps(s, c, p, At(op), pc);
      }
    case WaitLeave =>
      ReleaseLockKeeps(s, s', c, p, At(op), WAIT, At(Ready));
  }

  lemma NextOpKeeps1(s: State, s': State, c: nat, p: nat, op: Op)
    requires Inv1(s) && Exec(s, c, p, At(op)) && NextOp(s, s', c, p, op)
    ensures Inv1(s')
  {
    hide Inv1;
    match op
    case Ready =>
    case Wake(_, _, _) => WakeKeeps1(s, s', c, p, op);
    case SleepAcq(_, _) => SleepKeeps1(s, s', c, p, op);
    case Reacquire(_) => SleepKeeps1(s, s', c, p, op);
    case ForkScan(_) => ForkKeeps1(s, s', c, p, op);
    case ForkLink(_) => ForkKeeps1(s, s', c, p, op);
    case ForkStart(_) => ForkKeeps1(s, s', c, p, op);
    case Kill(_) => ForkKeeps1(s, s', c, p, op);
    case ExitAcq => ExitKeeps1(s, s', c, p, op);
    case Reparent(_) => ExitKeeps1(s, s', c, p, op);
    case ExitLock => ExitKeeps1(s, s', c, p, op);
    case WaitAcq => WaitKeeps1(s, s', c, p, op);
    case WaitScan(_, _) => WaitKeeps1(s, s', c, p, op);
    case WaitLeave => WaitKeeps1(s, s', c, p, op);
  }

  lemma NoneFits(lk: seq<Opt<nat>>, c: nat)
    requires Fits(lk, c, NoLocks)
    ensures Fits(lk, c, Clients)
  {
  }

  lemma NotHeld(s: State, c: nat, p: nat, pc: Pc, i: nat)
    requires Inv1(s) && Exec(s, c, p, pc) && LockedBy(pc, p) == None && i < |s.plock|
    ensures s.plock[i] != Some(c)
  {
  }

  lemma SetParentKeeps1(s: State, parent: seq<Opt<nat>>)
    requires Inv1(s) && |parent| == |s.parent|
    ensures Inv1(s.(parent := parent))
  {
  }

  /** A process whose lock another thread holds is not in the middle of sched. */
  lemma LockedOut(s: State, c: nat, p: nat, pc: Pc, i: nat)
    requires Inv1(s) && Exec(s, c, p, pc) && LockedBy(pc, p) == Some(i) && !pc.Sched? && pc != ExitRelease
    ensures i < |s.st| && (s.on[i].Some? ==> s.st[i] == RUNNING)
    ensures s.st[i] != RUNNING ==> s.on[i] == None && s.pc[i].Back? && i != p
  {
    ExecFacts(s, c, p, pc);
    assert StateOk(s.st[i], s.chan[i], s.pc[i], s.on[i]);
    assert i != p && s.on[i].Some? ==> ProcLock(s.run[s.on[i].v], s.pc) != Some(i);
  }

  /** A thread that holds its own lock sets its own state and channel. */
  lemma SelfKeeps(s: State, c: nat, p: nat, pc0: Pc, pc: Pc, st: PState, chan: Chan)
    requires Inv1(s) && Exec(s, c, p, pc0) && StateOk(st, chan, pc, s.on[p]) && PcOk(pc, p)
    requires LockedBy(pc, p) == LockedBy(pc0, p) && LocksOf(pc) == LocksOf(pc0)
    ensures Inv1(Goto(s, p, pc).(st := s.st[p := st], chan := s.chan[p := chan]))
  {
    hide StateOk, PcOk, Fits, FitsProc, InvRun, LockedBy, LocksOf, InvLocks;
    ExecFacts(s, c, p, pc0);
    Moved(s.run, s.pc, s.on, s.plock, s.lk, c, p, pc, s.pc[p := pc], s.plock, s.lk);
  }

  /** allocproc takes an unused entry. */
  lemma AllocKeeps1(s: State, c: nat, p: nat, i: nat)
    requires Inv1(s) && Exec(s, c, p, ForkLocked(i)) && i < |s.st| && s.st[i] == UNUSED
    ensures s.on[i] == None && i != p
    ensures Inv1(s.(st := s.st[i := USED], pc := s.pc[i := Back(ForkRet)][p := ForkFill(i)]))
  {
    hide Fits, FitsProc, InvRun, InvLocks, InvState, StateOk, PcOk;
    ExecFacts(s, c, p, ForkLocked(i));
    LockedOut(s, c, p, ForkLocked(i), i);
    OthersNotRun(s, c, i);
    StateAlloc(s, c, p, i);
    Moved(s.run, s.pc, s.on, s.plock, s.lk, c, p, ForkFill(i), s.pc[i := Back(ForkRet)][p := ForkFill(i)], s.plock,
          s.lk);
  }

  lemma StateAlloc(s: State, c: nat, p: nat, i: nat)
    requires Inv1(s) && Exec(s, c, p, ForkLocked(i)) && i < |s.st| && s.on[i] == None && i != p
    ensures InvState(s.st[i := USED], s.chan, s.pc[i := Back(ForkRet)][p := ForkFill(i)], s.on)
  {
    hide InvRun, InvLocks;
    ExecFacts(s, c, p, ForkLocked(i));
  }

  lemma OthersNotRun(s: State, c: nat, i: nat)
    requires Inv1(s) && i < |s.st| && s.on[i] == None
    ensures forall d :: 0 <= d < |s.run| ==> s.run[d] != Thread(i)
  {
  }

  /** swtch from a thread to the scheduler of its CPU. */
  lemma SwtchKeeps1(s: State, s': State, c: nat, p: nat, k: Cont, choice: bool)
    requires Inv1(s) && Exec(s, c, p, Sched(k)) && NextLocked(s, s', c, p, Sched(k), choice)
    ensures Inv1(s')
  {
    hide InvLocks, InvRun, InvState, FitsProc, Fits;
    ExecFacts(s, c, p, Sched(k));
    SchedChecks(s, c, p, k);
    SwtchRun(s, c, p, k);
    CpuMoved(s.run, s.pc, s.plock, s.lk, c, Returned(p), s.pc[p := Back(k)], s.plock);
  }

  /** None of sched's panics can happen. */
  lemma SchedChecks(s: State, c: nat, p: nat, k: Cont)
    requires Inv1(s) && Exec(s, c, p, Sched(k))
    ensures s.plock[p] == Some(c) && HoldsNone(s, c) && s.st[p] != RUNNING
  {
    hide InvLocks, InvRun, InvState;
    ExecFacts(s, c, p, Sched(k));
  }

  lemma SwtchRun(s: State, c: nat, p: nat, k: Cont)
    requires Inv1(s) && Exec(s, c, p, Sched(k))
    ensures InvRun(s.run[c := Returned(p)], s.on[p := None], s.cproc)
    ensures InvState(s.st, s.chan, s.pc[p := Back(k)], s.on[p := None])
  {
    hide InvLocks;
  }

  lemma CpuMoved(run: seq<Run>, pcs: seq<Pc>, plock: seq<Opt<nat>>, lk: seq<Opt<nat>>, c: nat, r: Run, pcs': seq<Pc>,
                 plock': seq<Opt<nat>>)
    requires InvLocks(run, pcs, plock, lk) && c < |run| && |pcs'| == |pcs|
    requires forall d, q :: 0 <= d < |run| && 0 <= q < |pcs| && d != c && run[d] == Thread(q) ==> pcs'[q] == pcs[q]
    requires SameOthers(plock, plock', c) && FitsProc(plock', c, ProcLock(r, pcs')) && Fits(lk, c, RunLocks(r, pcs'))
    ensures InvLocks(run[c := r], pcs', plock', lk)
  {
    var run' := run[c := r];
    forall d | 0 <= d < |run|
      ensures FitsProc(plock', d, ProcLock(run'[d], pcs')) && Fits(lk, d, RunLocks(run'[d], pcs'))
    {
      if d != c {
        assert ProcLock(run[d], pcs') == ProcLock(run[d], pcs);
        assert RunLocks(run[d], pcs') == RunLocks(run[d], pcs);
      }
    }
  }

  // ---- steps with a process lock held

  /** What the locked process of a fork in progress looks like. */
  predicate Infant(s: State, np: nat)
    requires Shape(s)
  {
    np < |s.st| && s.st[np] == USED && s.on[np] == None && s.pc[np] == Back(ForkRet)
  }

  lemma WakeLockedKeeps1(s: State, s': State, c: nat, p: nat, pc: Pc, choice: bool)
    requires Inv1(s) && Exec(s, c, p, pc) && NextLocked(s, s', c, p, pc, choice) && pc.WakeLocked?
    ensures Inv1(s')
  {
    hide Inv1, FitsProc, Fits;
    ExecFacts(s, c, p, pc);
    LockedOut(s, c, p, pc, pc.i);
    StateAt(s, pc.i);
    ReleaseProcKeeps(s, s', c, p, pc, pc.i, At(Wake(pc.ch, pc.i + 1, pc.k)));
  }

  lemma KillLockedKeeps1(s: State, s': State, c: nat, p: nat, i: nat, choice: bool)
    requires Inv1(s) && Exec(s, c, p, KillLocked(i)) && NextLocked(s, s', c, p, KillLocked(i), choice)
    ensures Inv1(s')
  {
    hide Inv1, FitsProc, Fits;
    ExecFacts(s, c, p, KillLocked(i));
    LockedOut(s, c, p, KillLocked(i), i);
    StateAt(s, i);
    NoneFits(s.lk, c);
    if choice {
      ReleaseProcKeeps(s, s', c, p, KillLocked(i), i, At(Ready));
    } else {
      ReleaseProcKeeps(s, s', c, p, KillLocked(i), i, At(Kill(i + 1)));
    }
  }

  lemma StateAt(s: State, i: nat)
    requires Inv1(s) && i < |s.st|
    ensures StateOk(s.st[i], s.chan[i], s.pc[i], s.on[i]) && PcOk(s.pc[i], i)
  {
  }

  lemma SelfLockedKeeps1(s: State, s': State, c: nat, p: nat, pc: Pc, choice: bool)
    requires Inv1(s) && Exec(s, c, p, pc) && NextLocked(s, s', c, p, pc, choice)
    requires pc.SleepHold? || pc.SleepSet? || pc.Yielding? || pc.ExitZombie? || pc.ExitRelease?
    ensures Inv1(s')
  {
    hide InvLocks, InvRun, InvState, FitsProc, Fits;
    ExecFacts(s, c, p, pc);
    match pc
    case SleepHold(ch, l) => ReleaseLockKeeps(s, s', c, p, pc, l, SleepSet(ch, l));
    case SleepSet(ch, l) => SelfKeeps(s, c, p, pc, Sched(Slept(ch, l)), SLEEPING, ch);
    case Yielding(op) =>
      assert s.chan[p := s.chan[p]] == s.chan;
      SelfKeeps(s, c, p, pc, Sched(Yielded(op)), RUNNABLE, s.chan[p]);
    case ExitZombie =>
      assert s.chan[p := s.chan[p]] == s.chan;
      SelfKeeps(s, c, p, pc, ExitRelease, ZOMBIE, s.chan[p]);
    case ExitRelease => ReleaseLockKeeps(s, s', c, p, pc, WAIT, Sched(Exited));
  }

  lemma ForkScanKeeps1(s: State, s': State, c: nat, p: nat, i: nat, choice: bool)
    requires Inv1(s) && Exec(s, c, p, ForkLocked(i)) && NextLocked(s, s', c, p, ForkLocked(i), choice)
    ensures Inv1(s')
  {
    hide Inv1, FitsProc, Fits;
    ExecFacts(s, c, p, ForkLocked(i));
    if s.st[i] == UNUSED {
      AllocKeeps1(s, c, p, i);
    } else {
      StateAt(s, i);
      ReleaseProcKeeps(s, s', c, p, ForkLocked(i), i, At(ForkScan(i + 1)));
    }
  }

  lemma ForkLockedKeeps1(s: State, s': State, c: nat, p: nat, pc: Pc, choice: bool)
    requires Inv1(s) && Exec(s, c, p, pc) && NextLocked(s, s', c, p, pc, choice)
    requires (pc.ForkFill? || pc.ForkStartLocked?) && Infant(s, pc.np)
    ensures Inv1(s')
  {
    hide Inv1, FitsProc, Fits;
    ExecFacts(s, c, p, pc);
    NoneFits(s.lk, c);
    StateAt(s, pc.np);
    if pc.ForkFill? && choice {
      ReleaseProcKeeps(s, s', c, p, pc, pc.np, At(ForkLink(pc.np)));
    } else {
      ReleaseProcKeeps(s, s', c, p, pc, pc.np, At(Ready));
    }
  }

  lemma ForkParentKeeps1(s: State, s': State, c: nat, p: nat, np: nat, choice: bool)
    requires Inv1(s) && Exec(s, c, p, ForkParent(np)) && NextLocked(s, s', c, p, ForkParent(np), choice)
    ensures Inv1(s')
  {
    hide Inv1, FitsProc, Fits;
    ExecFacts(s, c, p, ForkParent(np));
    SetParentKeeps1(s, s'.parent);
    ReleaseLockKeeps(s.(parent := s'.parent), s', c, p, ForkParent(np), WAIT, At(ForkStart(np)));
  }

  /** A zombie whose lock is held can be freed. */
  lemma ReapKeeps1(s: State, s': State, c: nat, p: nat, i: nat)
    requires Inv1(s) && Exec(s, c, p, WaitLocked(i)) && NextLocked(s, s', c, p, WaitLocked(i), true)
    requires i < |s.st| && s.st[i] == ZOMBIE
    ensures Inv1(s')
  {
    hide Inv1, FitsProc, Fits;
    ExecFacts(s, c, p, WaitLocked(i));
    LockedOut(s, c, p, WaitLocked(i), i);
    StateAt(s, i);
    ReleaseProcKeeps(s, s', c, p, WaitLocked(i), i, At(WaitLeave));
  }

  lemma WaitLockedKeeps1(s: State, s': State, c: nat, p: nat, i: nat, choice: bool)
    requires Inv1(s) && Exec(s, c, p, WaitLocked(i)) && NextLocked(s, s', c, p, WaitLocked(i), choice)
    ensures Inv1(s')
  {
    hide Inv1, FitsProc, Fits;
    ExecFacts(s, c, p, WaitLocked(i));
    if s.st[i] == ZOMBIE && choice {
      ReapKeeps1(s, s', c, p, i);
    } else {
      StateAt(s, i);
      ReleaseProcKeeps(s, s', c, p, WaitLocked(i), i,
                       if s.st[i] == ZOMBIE then At(WaitLeave) else At(WaitScan(i + 1, true)));
    }
  }

  lemma BackKeeps1(s: State, s': State, c: nat, p: nat, k: Cont, choice: bool)
    requires Inv1(s) && Exec(s, c, p, Back(k)) && NextLocked(s, s', c, p, Back(k), choice)
    ensures Inv1(s')
  {
    hide InvLocks, InvRun, InvState, FitsProc, Fits;
    ExecFacts(s, c, p, Back(k));
    NoneFits(s.lk, c);
    match k
    case Yielded(op) =>
      NoneFitsAny(s.lk, c, OpLocks(op));
      ReleaseProcKeeps(s, s', c, p, Back(k), p, At(op));
    case Slept(ch, l) => ReleaseProcKeeps(s, s', c, p, Back(k), p, At(Reacquire(l)));
    case ForkRet => ReleaseProcKeeps(s, s', c, p, Back(k), p, At(Ready));
  }

  lemma NoneFitsAny(lk: seq<Opt<nat>>, c: nat, k: Locks)
    requires Fits(lk, c, NoLocks) && !k.Only?
    ensures Fits(lk, c, k)
  {
  }

  lemma NextLockedKeeps1(s: State, s': State, c: nat, p: nat, pc: Pc, choice: bool)
    requires Inv1(s) && Exec(s, c, p, pc) && NextLocked(s, s', c, p, pc, choice)
    requires pc.ForkFill? || pc.ForkStartLocked? ==> Infant(s, pc.np)
    ensures Inv1(s')
  {
    hide Inv1;
    match pc
    case At(_) =>
    case WakeLocked(_, _, _) => WakeLockedKeeps1(s, s', c, p, pc, choice);
    case KillLocked(i) => KillLockedKeeps1(s, s', c, p, i, choice);
    case SleepHold(_, _) => SelfLockedKeeps1(s, s', c, p, pc, choice);
    case SleepSet(_, _) => SelfLockedKeeps1(s, s', c, p, pc, choice);
    case Yielding(_) => SelfLockedKeeps1(s, s', c, p, pc, choice);
    case ExitZombie => SelfLockedKeeps1(s, s', c, p, pc, choice);
    case ExitRelease => SelfLockedKeeps1(s, s', c, p, pc, choice);
    case ForkLocked(i) => ForkScanKeeps1(s, s', c, p, i, choice);
    case ForkFill(_) => ForkLockedKeeps1(s, s', c, p, pc, choice);
    case ForkParent(np) => ForkParentKeeps1(s, s', c, p, np, choice);
    case ForkStartLocked(_) => ForkLockedKeeps1(s, s', c, p, pc, choice);
    case WaitLocked(i) => WaitLockedKeeps1(s, s', c, p, i, choice);
    case Sched(k) => SwtchKeeps1(s, s', c, p, k, choice);
    case Back(k) => BackKeeps1(s, s', c, p, k, choice);
  }

  // ---- calls, preemption and the scheduler

  lemma CallKeeps1(s: State, s': State, c: nat, p: nat, e: Event)
    requires Inv1(s) && Exec(s, c, p, At(Ready)) && Call(s, s', c, p, e)
    ensures Inv1(s')
  {
    hide InvLocks, InvRun, InvState, FitsProc;
    ExecFacts(s, c, p, At(Ready));
    match e
    case ClientAcquire(l) =>
      assert s.pc[p := At(Ready)] == s.pc;
      Moved(s.run, s.pc, s.on, s.plock, s.lk, c, p, At(Ready), s.pc, s.plock, s'.lk);
    case ClientRelease(l) =>
      Moved(s.run, s.pc, s.on, s.plock, s.lk, c, p, At(Ready), s.pc, s.plock, s'.lk);
    case CallSleep(ch, l) => GotoKeeps(s, c, p, At(Ready), At(SleepAcq(ch, l)));
    case CallWakeup(ch) => GotoKeeps(s, c, p, At(Ready), At(Wake(ch, 0, Client)));
    case CallFork => GotoKeeps(s, c, p, At(Ready), At(ForkScan(0)));
    case CallKill => GotoKeeps(s, c, p, At(Ready), At(Kill(0)));
    case CallExit =>
      if p != INIT {
        GotoKeeps(s, c, p, At(Ready), At(ExitAcq));
      }
    case CallWait => GotoKeeps(s, c, p, At(Ready), At(WaitAcq));
    case Preempt =>
    case Continue(_) =>
  }

  lemma PreemptKeeps1(s: State, s': State, c: nat, p: nat, op: Op)
    requires Inv1(s) && Exec(s, c, p, At(op)) && HoldsNone(s, c) && AcquireProc(s, s', c, p, p, Yielding(op))
    ensures Inv1(s')
  {
    hide InvLocks, InvRun, InvState, FitsProc;
    ExecFacts(s, c, p, At(op));
    AcquireProcKeeps(s, s', c, p, At(op), p, Yielding(op));
  }

  lemma CpuFacts(s: State, c: nat)
    requires Inv1(s) && c < |s.run|
    ensures RunOk(s.run[c], |s.on|) && s.cproc[c] == CprocOf(s.run[c])
    ensures FitsProc(s.plock, c, ProcLock(s.run[c], s.pc)) && Fits(s.lk, c, RunLocks(s.run[c], s.pc))
  {
  }

  /** A runnable process whose lock the scheduler holds is executed by no CPU. */
  lemma Dispatchable(s: State, c: nat, i: nat)
    requires Inv1(s) && c < |s.run| && s.run[c] == Locked(i) && i < |s.st| && s.st[i] == RUNNABLE
    ensures s.on[i] == None && s.pc[i].Back? && s.pc[i] != Back(Exited)
  {
    StateAt(s, i);
    assert s.on[i].Some? ==> ProcLock(s.run[s.on[i].v], s.pc) != Some(i);
  }

  lemma DispatchRun(s: State, c: nat, i: nat)
    requires Inv1(s) && c < |s.run| && s.run[c] == Locked(i) && i < |s.st| && s.st[i] == RUNNABLE && s.on[i] == None
    requires s.pc[i].Back? && s.pc[i] != Back(Exited)
    ensures InvRun(s.run[c := Thread(i)], s.on[i := Some(c)], s.cproc[c := Some(i)])
    ensures InvState(s.st[i := RUNNING], s.chan, s.pc, s.on[i := Some(c)])
  {
    hide InvLocks;
  }

  lemma ScanRun(s: State, c: nat, r: Run)
    requires Inv1(s) && c < |s.run| && RunOk(r, |s.on|) && !s.run[c].Thread? && !r.Thread?
    ensures InvRun(s.run[c := r], s.on, s.cproc[c := CprocOf(r)])
  {
    hide InvLocks, InvState;
  }

  lemma ScanLockKeeps1(s: State, s': State, c: nat, i: nat)
    requires Inv1(s) && c < |s.run| && s.run[c] == Scan(i) && Schedule(s, s', c)
    ensures Inv1(s')
  {
    hide InvLocks, InvRun, InvState;
    CpuFacts(s, c);
    ScanRun(s, c, Locked(i));
    assert s.cproc[c := None] == s.cproc;
    CpuMoved(s.run, s.pc, s.plock, s.lk, c, Locked(i), s.pc, s.plock[i := Some(c)]);
  }

  lemma ScanPassKeeps1(s: State, s': State, c: nat, i: nat)
    requires Inv1(s) && c < |s.run| && s.run[c] == Locked(i) && i < |s.st| && s.st[i] != RUNNABLE && Schedule(s, s', c)
    ensures Inv1(s')
  {
    hide InvLocks, InvRun, InvState;
    CpuFacts(s, c);
    ScanRun(s, c, Scan((i + 1) % |s.st|));
    assert s.cproc[c := None] == s.cproc;
    CpuMoved(s.run, s.pc, s.plock, s.lk, c, Scan((i + 1) % |s.st|), s.pc, s.plock[i := None]);
  }

  lemma DispatchKeeps1(s: State, s': State, c: nat, i: nat)
    requires Inv1(s) && c < |s.run| && s.run[c] == Locked(i) && i < |s.st| && s.st[i] == RUNNABLE && Schedule(s, s', c)
    ensures Inv1(s')
  {
    hide InvLocks, InvRun, InvState;
    CpuFacts(s, c);
    Dispatchable(s, c, i);
    DispatchRun(s, c, i);
    CpuMoved(s.run, s.pc, s.plock, s.lk, c, Thread(i), s.pc, s.plock);
  }

  lemma ReturnedKeeps1(s: State, s': State, c: nat, p: nat)
    requires Inv1(s) && c < |s.run| && s.run[c] == Returned(p) && Schedule(s, s', c)
    ensures Inv1(s')
  {
    hide InvLocks, InvRun, InvState;
    CpuFacts(s, c);
    ScanRun(s, c, Scan((p + 1) % |s.st|));
    CpuMoved(s.run, s.pc, s.plock, s.lk, c, Scan((p + 1) % |s.st|), s.pc, s.plock[p := None]);
  }

  lemma ScheduleKeeps1(s: State, s': State, c: nat)
    requires Inv1(s) && c < |s.run| && Schedule(s, s', c)
    ensures Inv1(s')
  {
    hide InvLocks, InvRun, InvState;
    match s.run[c]
    case Scan(i) => ScanLockKeeps1(s, s', c, i);
    case Locked(i) =>
      if s.st[i] == RUNNABLE {
        DispatchKeeps1(s, s', c, i);
      } else {
        ScanPassKeeps1(s, s', c, i);
      }
    case Returned(p) => ReturnedKeeps1(s, s', c, p);
    case Thread(_) =>
  }
}
