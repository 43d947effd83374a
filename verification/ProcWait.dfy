/** Parents and children, sleepers and wakers (kernel/proc.c): the part of the invariant
    that spans processes, and what follows from it. */
module ProcWait {
  import opened Options
  import opened Proc
  import opened ProcLocks

  /** What a thread is in the middle of, as far as other processes are concerned. */
  datatype Note =
    | Plain
    | Forking(np: nat, linked: bool)      // has allocated np; parent pointer set or not
    | Leaving                             // in exit, before wait_lock
    | Sweeping(j: nat)                    // in reparent, entries below j done
    | Waking(ch: Chan, i: nat, k: Caller) // in wakeup, entries below i done
    | Announced                           // in exit, wakeup of the parent done
    | Gone                                // in exit, ZOMBIE
    | Scanning(i: nat, havekids: bool)    // in wait, entries below i seen
    | Child(i: nat)                       // in wait, at child i
    | Tired                               // in wait, about to release wait_lock and sleep
    | Falling(sch: Chan, l: nat)          // in sleep, has released l
    | Asleep(sch: Chan, l: nat)           // in sleep, at or after sched

  function OpNote(op: Op): Note {
    match op
    case Wake(ch, i, k) => Waking(ch, i, k)
    case SleepAcq(_, l) => if l == WAIT then Tired else Plain
    case ForkLink(np) => Forking(np, false)
    case ForkStart(np) => Forking(np, true)
    case ExitAcq => Leaving
    case Reparent(j) => Sweeping(j)
    case ExitLock => Announced
    case WaitScan(i, h) => Scanning(i, h)
    case _ => Plain
  }

  /** A thread that has yielded holds no lock, so that a wakeup it is in promises nothing. */
  function YieldNote(op: Op): Note {
    if op.Wake? then Plain else OpNote(op)
  }

  function ContNote(k: Cont): Note {
    match k
    case Yielded(op) => YieldNote(op)
    case Slept(ch, l) => Asleep(ch, l)
    case ForkRet => Plain
    case Exited => Gone
  }

  function NoteOf(pc: Pc): Note {
    match pc
    case At(op) => OpNote(op)
    case WakeLocked(ch, i, k) => Waking(ch, i, k)
    case SleepHold(_, l) => if l == WAIT then Tired else Plain
    case SleepSet(ch, l) => Falling(ch, l)
    case Yielding(op) => YieldNote(op)
    case ForkLocked(_) => Plain
    case ForkFill(np) => Forking(np, false)
    case ForkParent(np) => Forking(np, false)
    case ForkStartLocked(np) => Forking(np, true)
    case KillLocked(_) => Plain
    case ExitZombie => Announced
    case ExitRelease => Gone
    case WaitLocked(i) => Child(i)
    case Sched(k) => ContNote(k)
    case Back(k) => ContNote(k)
  }

  // ---- fork

  ghost predicate InfantOk(pcs: seq<Pc>, st: seq<PState>, on: seq<Opt<nat>>, parent: seq<Opt<nat>>, p: nat, np: nat,
                           linked: bool)
    requires |pcs| == |st| == |on| == |parent|
  {
    && np < |st| && st[np] == USED && on[np] == None && pcs[np] == Back(ForkRet)
    && parent[np] == if linked then Some(p) else None
  }

  ghost predicate InvFork(pcs: seq<Pc>, st: seq<PState>, on: seq<Opt<nat>>, parent: seq<Opt<nat>>)
    requires |pcs| == |st| == |on| == |parent|
  {
    && (forall p :: 0 <= p < |pcs| && NoteOf(pcs[p]).Forking? ==>
          InfantOk(pcs, st, on, parent, p, NoteOf(pcs[p]).np, NoteOf(pcs[p]).linked))
    && (forall p, q ::
          0 <= p < |pcs| && 0 <= q < |pcs| && NoteOf(pcs[p]).Forking? && NoteOf(pcs[q]).Forking? && p != q ==>
            NoteOf(pcs[p]).np != NoteOf(pcs[q]).np)
  }

  // ---- parents

  predicate Alive(st: PState) {
    st == SLEEPING || st == RUNNABLE || st == RUNNING || st == ZOMBIE
  }

  /** The entries below this one are no longer children of a process in exit. */
  function Swept(note: Note, n: nat): nat {
    match note
    case Sweeping(j) => j
    case Waking(_, _, k) => (match k case Client => 0 case ExitParent => n case Reparenting(j) => j + 1)
    case Announced => n
    case Gone => n
    case _ => 0
  }

  predicate InExit(note: Note) {
    match note
    case Leaving => true
    case Sweeping(_) => true
    case Waking(_, _, k) => k != Client
    case Announced => true
    case Gone => true
    case _ => false
  }

  /** The parent of `q` is another process that has not been freed; only init and a
      process that fork has not linked yet have none. */
  predicate ParentOk(st: seq<PState>, parent: seq<Opt<nat>>, q: nat)
    requires |st| == |parent| && q < |st|
  {
    && (parent[q].Some? ==>
          parent[q].v < |st| && parent[q].v != q && q != INIT && st[q] != UNUSED && Alive(st[parent[q].v]))
    && (q != INIT && Alive(st[q]) ==> parent[q].Some?)
  }

  predicate SweptOk(note: Note, parent: seq<Opt<nat>>, p: nat) {
    forall q :: 0 <= q < |parent| && q < Swept(note, |parent|) ==> parent[q] != Some(p)
  }

  ghost predicate InvParent(pcs: seq<Pc>, st: seq<PState>, parent: seq<Opt<nat>>)
    requires |pcs| == |st| == |parent| > 0
  {
    && (forall q :: 0 <= q < |st| ==> ParentOk(st, parent, q))
    && Alive(st[INIT]) && st[INIT] != ZOMBIE && !InExit(NoteOf(pcs[INIT]))
    && (forall p :: 0 <= p < |st| ==> SweptOk(NoteOf(pcs[p]), parent, p))
  }

  // ---- sleepers and wakers

  /** The process has released `l` to sleep on `ch` and nobody has woken it. */
  predicate Committed(note: Note, st: PState, ch: Chan, l: nat) {
    note == Falling(ch, l) || (note == Asleep(ch, l) && st == SLEEPING)
  }

  /** No process below `i`, except `w`, is committed to sleep on `ch` and a lock that CPU
      `c` holds. */
  ghost predicate NoneLeft(pcs: seq<Pc>, st: seq<PState>, lk: seq<Opt<nat>>, c: Opt<nat>, w: nat, ch: Chan, i: nat)
    requires |pcs| == |st|
  {
    forall q, l :: 0 <= q < i && q < |st| && q != w && 0 <= l < |lk| && c.Some? && lk[l] == c ==>
      !Committed(NoteOf(pcs[q]), st[q], ch, l)
  }

  ghost predicate InvWake(pcs: seq<Pc>, st: seq<PState>, on: seq<Opt<nat>>, parent: seq<Opt<nat>>, lk: seq<Opt<nat>>)
    requires |pcs| == |st| == |on| == |parent|
  {
    && (forall w :: 0 <= w < |st| && NoteOf(pcs[w]).Waking? ==>
          && NoneLeft(pcs, st, lk, on[w], w, NoteOf(pcs[w]).ch, NoteOf(pcs[w]).i)
          && (NoteOf(pcs[w]).k == ExitParent ==> NoteOf(pcs[w]).ch == ChanOf(parent[w])))
    && (forall w :: 0 <= w < |st| && NoteOf(pcs[w]) == Announced ==>
          NoneLeft(pcs, st, lk, on[w], w, ChanOf(parent[w]), |st|))
  }

  // ---- wait

  predicate HasChild(parent: seq<Opt<nat>>, p: nat) {
    exists q :: 0 <= q < |parent| && parent[q] == Some(p)
  }

  /** The entries below `i` hold no zombie child of `p`. */
  predicate NoZombie(st: seq<PState>, parent: seq<Opt<nat>>, p: nat, i: nat)
    requires |st| == |parent|
  {
    forall q :: 0 <= q < i && q < |st| && parent[q] == Some(p) ==> st[q] != ZOMBIE
  }

  predicate ScanOk(note: Note, st: seq<PState>, parent: seq<Opt<nat>>, p: nat)
    requires |st| == |parent|
  {
    match note
    case Scanning(i, h) =>
      NoZombie(st, parent, p, i) && (h ==> HasChild(parent, p))
        && (!h ==> forall q :: 0 <= q < i && q < |st| ==> parent[q] != Some(p))
    case Child(i) => NoZombie(st, parent, p, i) && i < |st| && parent[i] == Some(p)
    case Tired => NoZombie(st, parent, p, |st|) && HasChild(parent, p)
    case _ => true
  }

  /** Some exiting process is about to wake init for a child it has just handed over. */
  predicate WakesInit(note: Note) {
    note.Waking? && note.ch == ProcChan(INIT) && note.i == 0 && note.k.Reparenting?
  }

  ghost predicate InitWakeup(pcs: seq<Pc>) {
    exists w :: 0 <= w < |pcs| && WakesInit(NoteOf(pcs[w]))
  }

  /** A process asleep in wait has a child, and no zombie child unless its wakeup is
      under way. */
  ghost predicate RestOk(pcs: seq<Pc>, st: seq<PState>, parent: seq<Opt<nat>>, p: nat)
    requires |pcs| == |st| == |parent| && p < |st|
  {
    Committed(NoteOf(pcs[p]), st[p], ProcChan(p), WAIT) ==>
      HasChild(parent, p) && (NoZombie(st, parent, p, |st|) || (p == INIT && InitWakeup(pcs)))
  }

  ghost predicate InvWait(pcs: seq<Pc>, st: seq<PState>, parent: seq<Opt<nat>>)
    requires |pcs| == |st| == |parent|
  {
    && (forall p :: 0 <= p < |st| ==> ScanOk(NoteOf(pcs[p]), st, parent, p))
    && (forall p :: 0 <= p < |st| ==> RestOk(pcs, st, parent, p))
  }

  ghost predicate Inv(s: State) {
    && Shape(s) && Inv1(s)
    && InvFork(s.pc, s.st, s.on, s.parent)
    && InvParent(s.pc, s.st, s.parent)
    && InvWake(s.pc, s.st, s.on, s.parent, s.lk)
    && InvWait(s.pc, s.st, s.parent)
  }

  // ---- steps that concern nobody else

  predicate Going2(st: PState) {
    st == SLEEPING || st == RUNNABLE || st == RUNNING
  }

  /** The note stays, or is dropped, or the new one promises nothing yet. */
  ghost predicate QuietNote(s: State, s': State, q: nat)
    requires Shape(s) && Shape(s') && |s'.st| == |s.st| && q < |s.st|
  {
    var a, b := NoteOf(s.pc[q]), NoteOf(s'.pc[q]);
    || a == b
    || (!WakesInit(a) &&
        match b {
          case Plain => true
          case Waking(_, i, k) => k == Client && (i == 0 || HoldsNothing(s'.lk, s'.on[q]))
          case Scanning(i, h) => i == 0 && !h
          case Leaving => q != INIT
          case Sweeping(j) => j == 0 && q != INIT
          case Asleep(ch, l) => s'.st[q] == SLEEPING ==> Committed(a, s.st[q], ch, l)
          case _ => false
        })
  }

  ghost predicate HoldsNothing(lk: seq<Opt<nat>>, c: Opt<nat>) {
    forall l :: 0 <= l < |lk| ==> lk[l] != c
  }

  /** A step after which nothing that other processes rely on has changed. */
  ghost predicate Quiet(s: State, s': State)
    requires Shape(s)
  {
    && Shape(s') && |s'.st| == |s.st| && |s'.lk| == |s.lk| && s'.parent == s.parent
    && (forall q :: 0 <= q < |s.st| ==> QuietNote(s, s', q))
    && (forall q :: 0 <= q < |s.st| ==> s'.st[q] == s.st[q] || (Going2(s.st[q]) && Going2(s'.st[q])))
    && (forall q :: 0 <= q < |s.st| && s.st[q] == USED ==> s'.on[q] == s.on[q] && s'.pc[q] == s.pc[q])
    && (forall q :: 0 <= q < |s.st| && s'.st[q] == SLEEPING && NoteOf(s'.pc[q]).Asleep? ==>
          Committed(NoteOf(s.pc[q]), s.st[q], NoteOf(s'.pc[q]).sch, NoteOf(s'.pc[q]).l))
    && (forall w ::
          0 <= w < |s.st| && (NoteOf(s.pc[w]).Waking? || NoteOf(s.pc[w]) == Announced)
          && NoteOf(s'.pc[w]) == NoteOf(s.pc[w]) ==>
          && s'.on[w] == s.on[w]
          && forall l :: 0 <= l < |s.lk| && s'.lk[l].Some? && s'.lk[l] == s.on[w] ==> s.lk[l] == s.on[w])
  }

  lemma QuietFork(s: State, s': State)
    requires Inv(s) && Quiet(s, s')
    ensures InvFork(s'.pc, s'.st, s'.on, s'.parent)
  {
    hide NoteOf, Inv1, InvParent, InvWake, InvWait, Committed;
    forall p | 0 <= p < |s.st| && NoteOf(s'.pc[p]).Forking? ensures NoteOf(s'.pc[p]) == NoteOf(s.pc[p]) {
      assert QuietNote(s, s', p);
    }
  }

  lemma QuietParent(s: State, s': State)
    requires Inv(s) && Quiet(s, s')
    ensures InvParent(s'.pc, s'.st, s'.parent)
  {
    hide NoteOf, Inv1, InvFork, InvWake, InvWait, Committed;
    assert QuietNote(s, s', INIT);
    forall p | 0 <= p < |s.st| ensures SweptOk(NoteOf(s'.pc[p]), s'.parent, p) {
      assert QuietNote(s, s', p) && SweptOk(NoteOf(s.pc[p]), s.parent, p);
    }
    forall q | 0 <= q < |s.st| ensures ParentOk(s'.st, s'.parent, q) {
      assert ParentOk(s.st, s.parent, q);
    }
  }

  lemma QuietCommitted(s: State, s': State, q: nat, ch: Chan, l: nat)
    requires Shape(s) && Quiet(s, s') && q < |s.st| && Committed(NoteOf(s'.pc[q]), s'.st[q], ch, l)
    ensures Committed(NoteOf(s.pc[q]), s.st[q], ch, l)
  {
    hide NoteOf;
    assert QuietNote(s, s', q);
  }

  lemma QuietNoneLeft(s: State, s': State, w: nat, ch: Chan, i: nat)
    requires Shape(s) && Quiet(s, s') && w < |s.st|
    requires NoneLeft(s.pc, s.st, s.lk, s.on[w], w, ch, i) && s'.on[w] == s.on[w]
    requires forall l :: 0 <= l < |s.lk| && s'.lk[l].Some? && s'.lk[l] == s.on[w] ==> s.lk[l] == s.on[w]
    ensures NoneLeft(s'.pc, s'.st, s'.lk, s'.on[w], w, ch, i)
  {
    hide NoteOf, Quiet, Committed;
    QuietShape(s, s');
    forall q, l | 0 <= q < i && q < |s.st| && q != w && 0 <= l < |s.lk| && s'.on[w].Some? && s'.lk[l] == s'.on[w]
      ensures !Committed(NoteOf(s'.pc[q]), s'.st[q], ch, l)
    {
      if Committed(NoteOf(s'.pc[q]), s'.st[q], ch, l) {
        QuietCommitted(s, s', q, ch, l);
      }
    }
  }

  lemma QuietShape(s: State, s': State)
    requires Shape(s) && Quiet(s, s')
    ensures Shape(s') && |s'.st| == |s.st| && |s'.lk| == |s.lk| && s'.parent == s.parent
  {
  }

  lemma QuietWake(s: State, s': State)
    requires Inv(s) && Quiet(s, s')
    ensures InvWake(s'.pc, s'.st, s'.on, s'.parent, s'.lk)
  {
    hide NoteOf, Inv1, InvFork, InvParent, InvWait, NoneLeft;
    forall w | 0 <= w < |s.st| && (NoteOf(s'.pc[w]).Waking? || NoteOf(s'.pc[w]) == Announced)
      ensures NoteOf(s'.pc[w]).Waking? ==>
        && NoneLeft(s'.pc, s'.st, s'.lk, s'.on[w], w, NoteOf(s'.pc[w]).ch, NoteOf(s'.pc[w]).i)
        && (NoteOf(s'.pc[w]).k == ExitParent ==> NoteOf(s'.pc[w]).ch == ChanOf(s'.parent[w]))
      ensures NoteOf(s'.pc[w]) == Announced ==> NoneLeft(s'.pc, s'.st, s'.lk, s'.on[w], w, ChanOf(s'.parent[w]), |s.st|)
    {
      assert QuietNote(s, s', w);
      var a, b := NoteOf(s.pc[w]), NoteOf(s'.pc[w]);
      if a == b {
        QuietNoneLeft(s, s', w, if a.Waking? then a.ch else ChanOf(s.parent[w]), if a.Waking? then a.i else |s.st|);
      } else {
        NoneLeftNone(s'.pc, s'.st, s'.lk, s'.on[w], w, b.ch, b.i);
      }
    }
  }

  lemma NoneLeftNone(pcs: seq<Pc>, st: seq<PState>, lk: seq<Opt<nat>>, c: Opt<nat>, w: nat, ch: Chan, i: nat)
    requires |pcs| == |st| && (i == 0 || HoldsNothing(lk, c))
    ensures NoneLeft(pcs, st, lk, c, w, ch, i)
  {
  }

  lemma QuietWait(s: State, s': State)
    requires Inv(s) && Quiet(s, s')
    ensures InvWait(s'.pc, s'.st, s'.parent)
  {
    hide NoteOf, Inv1, InvFork, InvParent, InvWake, Committed;
    forall p | 0 <= p < |s.st| ensures ScanOk(NoteOf(s'.pc[p]), s'.st, s'.parent, p) {
      assert QuietNote(s, s', p);
      assert ScanOk(NoteOf(s.pc[p]), s.st, s.parent, p);
    }
    if InitWakeup(s.pc) {
      var w :| 0 <= w < |s.pc| && WakesInit(NoteOf(s.pc[w]));
      assert QuietNote(s, s', w);
      assert WakesInit(NoteOf(s'.pc[w]));
    }
    forall p | 0 <= p < |s.st| ensures RestOk(s'.pc, s'.st, s'.parent, p) {
      assert RestOk(s.pc, s.st, s.parent, p);
      if Committed(NoteOf(s'.pc[p]), s'.st[p], ProcChan(p), WAIT) {
        QuietCommitted(s, s', p, ProcChan(p), WAIT);
      }
    }
  }

  lemma QuietKeeps(s: State, s': State)
    requires Inv(s) && Inv1(s') && Quiet(s, s')
    ensures Inv(s')
  {
    hide Inv1, Quiet, InvFork, InvParent, InvWake, InvWait;
    QuietShape(s, s');
    QuietFork(s, s');
    QuietParent(s, s');
    QuietWake(s, s');
    QuietWait(s, s');
  }

  /** A step of the thread of `p` that is quiet as far as `p` goes, and changes other
      processes at most by waking them. */
  ghost predicate QuietStep(s: State, s': State, c: nat, p: nat)
    requires Shape(s) && p < |s.st|
  {
    && Shape(s') && |s'.st| == |s.st| && |s'.lk| == |s.lk| && s'.parent == s.parent && s'.on == s.on
    && (forall q :: 0 <= q < |s.st| && q != p ==> s'.pc[q] == s.pc[q])
    && (forall q :: 0 <= q < |s.st| ==> s'.st[q] == s.st[q] || (Going2(s.st[q]) && Going2(s'.st[q])))
    && (forall q :: 0 <= q < |s.st| && q != p && s'.st[q] == SLEEPING ==> s.st[q] == SLEEPING)
    && QuietNote(s, s', p)
    && (s'.st[p] == SLEEPING && NoteOf(s'.pc[p]).Asleep? ==>
          Committed(NoteOf(s.pc[p]), s.st[p], NoteOf(s'.pc[p]).sch, NoteOf(s'.pc[p]).l))
    && SameOthers(s.lk, s'.lk, c)
    && (NoteOf(s'.pc[p]).Waking? || NoteOf(s'.pc[p]) == Announced ==> s'.lk == s.lk)
  }

  lemma QuietStepIs(s: State, s': State, c: nat, p: nat, pc: Pc)
    requires Inv(s) && Exec(s, c, p, pc) && QuietStep(s, s', c, p)
    ensures Quiet(s, s')
  {
    hide NoteOf, InvFork, InvParent, InvWake, InvWait, InvLocks, InvState, QuietNote;
    ExecNotUsed(s, c, p, pc);
    forall q | 0 <= q < |s.st| ensures QuietNote(s, s', q) {
      if q != p {
        SameNote(s, s', q);
      }
    }
    assert forall w :: 0 <= w < |s.st| && w != p ==> s.on[w] != Some(c);
  }

  lemma SameNote(s: State, s': State, q: nat)
    requires Shape(s) && Shape(s') && |s'.st| == |s.st| && q < |s.st| && s'.pc[q] == s.pc[q]
    ensures QuietNote(s, s', q)
  {
  }

  lemma ExecNotUsed(s: State, c: nat, p: nat, pc: Pc)
    requires Inv(s) && Exec(s, c, p, pc)
    ensures s.st[p] != USED && s.st[p] != UNUSED && s.on[p] == Some(c)
    ensures StateOk(s.st[p], s.chan[p], pc, s.on[p]) && PcOk(pc, p)
  {
    hide InvFork, InvParent, InvWake, InvWait;
    ExecFacts(s, c, p, pc);
  }

  lemma QuietStepKeeps(s: State, s': State, c: nat, p: nat, pc: Pc)
    requires Inv(s) && Exec(s, c, p, pc) && QuietStep(s, s', c, p) && Inv1(s')
    ensures Inv(s')
  {
    hide Inv, Inv1, QuietStep, Quiet;
    QuietStepIs(s, s', c, p, pc);
    QuietKeeps(s, s');
  }

  lemma CallQuiet(s: State, s': State, c: nat, p: nat, e: Event)
    requires Inv(s) && Exec(s, c, p, At(Ready)) && Call(s, s', c, p, e)
    ensures s'.halt == Going ==> QuietStep(s, s', c, p)
  {
    hide InvFork, InvParent, InvWake, InvWait, Inv1;
  }

  lemma BackNote(k: Cont, p: nat)
    requires ContOk(k, p)
    ensures NoteOf(Back(k)) == NoteOf(Sched(k)) && !NoteOf(Back(k)).Waking? && NoteOf(Back(k)) != Announced
  {
  }

  /** swtch and dispatch change only which CPU runs the process. */
  ghost predicate Switched(s: State, s': State, p: nat)
    requires Shape(s)
  {
    && Shape(s') && |s'.st| == |s.st| && s'.lk == s.lk && s'.parent == s.parent && p < |s.st|
    && (forall q :: 0 <= q < |s.st| && q != p ==> s'.pc[q] == s.pc[q] && s'.on[q] == s.on[q] && s'.st[q] == s.st[q])
    && NoteOf(s'.pc[p]) == NoteOf(s.pc[p]) && !NoteOf(s.pc[p]).Waking? && NoteOf(s.pc[p]) != Announced
    && s.st[p] != USED && (s'.st[p] == s.st[p] || (Going2(s.st[p]) && s'.st[p] == RUNNING))
  }

  lemma SwitchedQuiet(s: State, s': State, p: nat)
    requires Shape(s) && Switched(s, s', p)
    ensures Quiet(s, s')
  {
    hide NoteOf;
  }

  lemma SwtchQuiet(s: State, s': State, c: nat, p: nat, k: Cont, choice: bool)
    requires Inv(s) && Exec(s, c, p, Sched(k)) && NextLocked(s, s', c, p, Sched(k), choice)
    ensures s'.halt == Going ==> Quiet(s, s')
  {
    hide InvFork, InvParent, InvWake, InvWait, Inv1, NoteOf, Quiet;
    ExecNotUsed(s, c, p, Sched(k));
    BackNote(k, p);
    if s'.halt == Going {
      SwitchedQuiet(s, s', p);
    }
  }

  lemma ScheduleQuiet(s: State, s': State, c: nat)
    requires Inv(s) && c < |s.run| && Schedule(s, s', c)
    ensures s'.halt == Going ==> Quiet(s, s')
  {
    hide InvFork, InvParent, InvWake, InvWait, Inv1, NoteOf;
    if s.run[c].Locked? && s.st[s.run[c].i] == RUNNABLE {
      var i := s.run[c].i;
      Dispatchable(s, c, i);
      StateAt(s, i);
      BackNote(s.pc[i].cont, i);
      SwitchedQuiet(s, s', i);
    }
  }

  // ---- quiet steps of threads

  /** The thread goes to `pc`; only its own locks change. */
  ghost predicate OnlyMoved(s: State, s': State, c: nat, p: nat, pc: Pc)
    requires Shape(s) && p < |s.st|
  {
    s' == Goto(s, p, pc).(plock := s'.plock, lk := s'.lk) && |s'.plock| == |s.plock| && SameOthers(s.lk, s'.lk, c)
  }

  lemma OnlyMovedQuiet(s: State, s': State, c: nat, p: nat, pc0: Pc, pc: Pc)
    requires Inv(s) && Exec(s, c, p, pc0) && OnlyMoved(s, s', c, p, pc) && QuietNote(s, s', p)
    requires NoteOf(pc).Waking? || NoteOf(pc) == Announced ==> s'.lk == s.lk
    requires !NoteOf(pc).Asleep?
    ensures QuietStep(s, s', c, p)
  {
    hide NoteOf, InvFork, InvParent, InvWake, InvWait, Inv1, QuietNote;
  }

  lemma AcquireMoves(s: State, s': State, c: nat, p: nat, i: nat, pc: Pc)
    requires Shape(s) && p < |s.st|
    ensures AcquireProc(s, s', c, p, i, pc) && s'.halt == Going ==> OnlyMoved(s, s', c, p, pc) && s'.lk == s.lk
    ensures AcquireLock(s, s', c, p, i, pc) && s'.halt == Going ==> OnlyMoved(s, s', c, p, pc)
    ensures s' == Goto(s, p, pc) ==> OnlyMoved(s, s', c, p, pc) && s'.lk == s.lk
  {
  }

  lemma ReleaseMoves(s: State, s': State, c: nat, p: nat, i: nat, pc: Pc)
    requires Shape(s) && p < |s.st| && i < |s.lk| && s.lk[i] == Some(c)
    ensures ReleaseLock(s, s', p, i, pc) ==> OnlyMoved(s, s', c, p, pc)
  {
  }

  lemma SleepOpQuiet(s: State, s': State, c: nat, p: nat, op: Op)
    requires Inv(s) && Exec(s, c, p, At(op)) && NextOp(s, s', c, p, op) && s'.halt == Going
    requires op.SleepAcq? || op.Reacquire? || op.WaitAcq? || op.ExitLock? || op.ExitAcq?
    ensures QuietStep(s, s', c, p)
  {
    hide InvFork, InvWake, InvWait, Inv1, QuietStep;
    match op
    case SleepAcq(ch, l) =>
      AcquireMoves(s, s', c, p, p, SleepHold(ch, l));
      OnlyMovedQuiet(s, s', c, p, At(op), SleepHold(ch, l));
    case Reacquire(l) =>
      var pc := if l == WAIT then At(WaitScan(0, false)) else At(Ready);
      AcquireMoves(s, s', c, p, l, pc);
      OnlyMovedQuiet(s, s', c, p, At(op), pc);
    case WaitAcq =>
      AcquireMoves(s, s', c, p, WAIT, At(WaitScan(0, false)));
      OnlyMovedQuiet(s, s', c, p, At(op), At(WaitScan(0, false)));
    case ExitLock =>
      AcquireMoves(s, s', c, p, p, ExitZombie);
      OnlyMovedQuiet(s, s', c, p, At(op), ExitZombie);
    case ExitAcq =>
      assert NoteOf(s.pc[p]) == Leaving;
      AcquireMoves(s, s', c, p, WAIT, At(Reparent(0)));
      OnlyMovedQuiet(s, s', c, p, At(op), At(Reparent(0)));
  }

  lemma ForkOpQuiet(s: State, s': State, c: nat, p: nat, op: Op)
    requires Inv(s) && Exec(s, c, p, At(op)) && NextOp(s, s', c, p, op) && s'.halt == Going
    requires op.ForkScan? || op.ForkLink? || op.ForkStart? || op.Kill?
    ensures QuietStep(s, s', c, p)
  {
    hide InvFork, InvParent, InvWake, InvWait, Inv1, QuietStep;
    match op
    case ForkScan(i) =>
      var pc := if i >= |s.st| then At(Ready) else ForkLocked(i);
      AcquireMoves(s, s', c, p, i, pc);
      OnlyMovedQuiet(s, s', c, p, At(op), pc);
    case ForkLink(np) =>
      AcquireMoves(s, s', c, p, WAIT, ForkParent(np));
      OnlyMovedQuiet(s, s', c, p, At(op), ForkParent(np));
    case ForkStart(np) =>
      AcquireMoves(s, s', c, p, np, ForkStartLocked(np));
      OnlyMovedQuiet(s, s', c, p, At(op), ForkStartLocked(np));
    case Kill(i) =>
      var pc := if i >= |s.st| then At(Ready) else KillLocked(i);
      AcquireMoves(s, s', c, p, i, pc);
      OnlyMovedQuiet(s, s', c, p, At(op), pc);
  }

  /** wakeup locks the next process, or ends for a caller outside exit. */
  lemma WakeOpQuiet(s: State, s': State, c: nat, p: nat, op: Op)
    requires Inv(s) && Exec(s, c, p, At(op)) && NextOp(s, s', c, p, op) && s'.halt == Going
    requires op.Wake? && (if op.i >= |s.st| then op.k == Client else op.i != p)
    ensures QuietStep(s, s', c, p)
  {
    hide InvFork, InvParent, InvWake, InvWait, Inv1, QuietStep;
    var pc := if op.i >= |s.st| then At(Ready) else WakeLocked(op.ch, op.i, op.k);
    AcquireMoves(s, s', c, p, op.i, pc);
    OnlyMovedQuiet(s, s', c, p, At(op), pc);
  }

  lemma WaitLeaveQuiet(s: State, s': State, c: nat, p: nat)
    requires Inv(s) && Exec(s, c, p, At(WaitLeave)) && NextOp(s, s', c, p, WaitLeave) && s'.halt == Going
    ensures QuietStep(s, s', c, p)
  {
    hide InvFork, InvParent, InvWake, InvWait, InvRun, InvState, QuietStep;
    ExecFacts(s, c, p, At(WaitLeave));
    ReleaseMoves(s, s', c, p, WAIT, At(Ready));
    OnlyMovedQuiet(s, s', c, p, At(WaitLeave), At(Ready));
  }

  lemma PreemptQuiet(s: State, s': State, c: nat, p: nat, op: Op)
    requires Inv(s) && Exec(s, c, p, At(op)) && HoldsNone(s, c) && AcquireProc(s, s', c, p, p, Yielding(op))
    requires s'.halt == Going
    ensures QuietStep(s, s', c, p)
  {
    hide InvFork, InvParent, InvWake, InvWait, InvRun, InvState, QuietStep;
    ExecFacts(s, c, p, At(op));
    AcquireMoves(s, s', c, p, p, Yielding(op));
    OnlyMovedQuiet(s, s', c, p, At(op), Yielding(op));
  }

  // ---- quiet steps with a process lock held

  lemma SelfQuiet(s: State, s': State, c: nat, p: nat, pc: Pc, choice: bool)
    requires Inv(s) && Exec(s, c, p, pc) && NextLocked(s, s', c, p, pc, choice)
    requires pc.SleepSet? || pc.Yielding? || pc.ExitRelease?
    ensures QuietStep(s, s', c, p)
  {
    hide InvFork, InvParent, InvWake, InvWait, InvRun, InvState;
    ExecFacts(s, c, p, pc);
  }

  lemma BackQuiet(s: State, s': State, c: nat, p: nat, k: Cont, choice: bool)
    requires Inv(s) && Exec(s, c, p, Back(k)) && NextLocked(s, s', c, p, Back(k), choice) && s'.halt == Going
    ensures QuietStep(s, s', c, p)
  {
    hide InvFork, InvParent, InvWake, InvWait, InvRun, InvState;
    ExecFacts(s, c, p, Back(k));
  }

  lemma OthersQuiet(s: State, s': State, c: nat, p: nat, pc: Pc, choice: bool)
    requires Inv(s) && Exec(s, c, p, pc) && NextLocked(s, s', c, p, pc, choice)
    requires pc.KillLocked? || (pc.ForkLocked? && pc.i < |s.st| && s.st[pc.i] != UNUSED) || (pc.ForkFill? && choice)
    ensures QuietStep(s, s', c, p)
  {
    hide InvFork, InvParent, InvWake, InvWait, InvRun, InvState;
    ExecFacts(s, c, p, pc);
  }
}
