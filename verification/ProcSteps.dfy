/** The steps of kernel/proc.c that other processes depend on, one lemma each. */
module ProcSteps {
  import opened Options
  import opened Proc
  import opened ProcLocks
  import opened ProcWait

  /** Points in exit, wait and fork that hold wait_lock. */
  predicate WaitNote(note: Note) {
    match note
    case Sweeping(_) => true
    case Waking(_, _, k) => k != Client
    case Announced => true
    case Scanning(_, _) => true
    case Child(_) => true
    case Tired => true
    case _ => false
  }

  lemma WaitNoteLocks(pc: Pc, p: nat)
    requires PcOk(pc, p) && WaitNote(NoteOf(pc))
    ensures LocksOf(pc) == Only(WAIT) && !pc.Back?
  {
  }

  /** While one thread holds wait_lock, no other is at such a point. */
  lemma OneHolder(s: State, c: nat, p: nat, pc: Pc)
    requires Inv(s) && Exec(s, c, p, pc) && LocksOf(pc) == Only(WAIT)
    ensures s.lk[WAIT] == Some(c)
    ensures forall q :: 0 <= q < |s.st| && q != p ==> !WaitNote(NoteOf(s.pc[q]))
  {
    hide NoteOf, InvFork, InvParent, InvWake, InvWait, LocksOf, WaitNote, PcOk;
    ExecFacts(s, c, p, pc);
    forall q | 0 <= q < |s.st| && q != p && WaitNote(NoteOf(s.pc[q])) ensures false {
      StateAt(s, q);
      WaitNoteLocks(s.pc[q], q);
      ExecFacts(s, s.on[q].v, q, s.pc[q]);
    }
  }

  // ---- what stays true when one process moves

  /** Notes of all but `p` stay; nobody new is committed to sleep. */
  ghost predicate Moves(s: State, s': State, p: nat)
    requires Shape(s)
  {
    && Shape(s') && |s'.st| == |s.st| && |s'.lk| == |s.lk| && p < |s.st|
    && s'.on == s.on && s'.lk == s.lk
    && (forall q :: 0 <= q < |s.st| && q != p ==> s'.pc[q] == s.pc[q])
    && !NoteOf(s'.pc[p]).Falling? && !NoteOf(s'.pc[p]).Asleep?
    && (forall q :: 0 <= q < |s.st| && q != p && s'.st[q] == SLEEPING ==> s.st[q] == SLEEPING)
  }

  /** The wakers other than `p` lose nothing. */
  lemma OtherWakers(s: State, s': State, p: nat)
    requires Inv(s) && Moves(s, s', p)
    requires forall w :: 0 <= w < |s.st| && w != p
                         && (NoteOf(s.pc[w]) == Announced
                             || (NoteOf(s.pc[w]).Waking? && NoteOf(s.pc[w]).k == ExitParent))
                         ==> s'.parent[w] == s.parent[w]
    requires NoteOf(s'.pc[p]).Waking? ==>
      && NoneLeft(s'.pc, s'.st, s'.lk, s'.on[p], p, NoteOf(s'.pc[p]).ch, NoteOf(s'.pc[p]).i)
      && (NoteOf(s'.pc[p]).k == ExitParent ==> NoteOf(s'.pc[p]).ch == ChanOf(s'.parent[p]))
    requires NoteOf(s'.pc[p]) == Announced ==> NoneLeft(s'.pc, s'.st, s'.lk, s'.on[p], p, ChanOf(s'.parent[p]), |s.st|)
    ensures InvWake(s'.pc, s'.st, s'.on, s'.parent, s'.lk)
  {
    hide NoteOf, InvFork, InvParent, InvWait, Inv1, NoneLeft;
    forall w | 0 <= w < |s.st| && w != p && (NoteOf(s'.pc[w]).Waking? || NoteOf(s'.pc[w]) == Announced)
      ensures NoteOf(s'.pc[w]).Waking? ==>
        && NoneLeft(s'.pc, s'.st, s'.lk, s'.on[w], w, NoteOf(s'.pc[w]).ch, NoteOf(s'.pc[w]).i)
        && (NoteOf(s'.pc[w]).k == ExitParent ==> NoteOf(s'.pc[w]).ch == ChanOf(s'.parent[w]))
      ensures NoteOf(s'.pc[w]) == Announced ==> NoneLeft(s'.pc, s'.st, s'.lk, s'.on[w], w, ChanOf(s'.parent[w]), |s.st|)
    {
      var a := NoteOf(s.pc[w]);
      NoneLeftMoves(s, s', p, w, if a.Waking? then a.ch else ChanOf(s.parent[w]), if a.Waking? then a.i else |s.st|);
    }
  }

  lemma NoneLeftMoves(s: State, s': State, p: nat, w: nat, ch: Chan, i: nat)
    requires Shape(s) && Moves(s, s', p) && w < |s.st| && NoneLeft(s.pc, s.st, s.lk, s.on[w], w, ch, i)
    ensures NoneLeft(s'.pc, s'.st, s'.lk, s'.on[w], w, ch, i)
  {
    hide NoteOf;
  }

  /** Infants of other processes are left alone. */
  lemma ForkSame(s: State, s': State, c: nat, p: nat, pc: Pc)
    requires Inv(s) && Exec(s, c, p, pc) && Moves(s, s', p)
    requires NoteOf(s'.pc[p]).Forking? ==> NoteOf(s'.pc[p]) == NoteOf(s.pc[p])
    requires forall q :: 0 <= q < |s.st| && s.st[q] == USED ==> s'.st[q] == USED && s'.parent[q] == s.parent[q]
    ensures InvFork(s'.pc, s'.st, s'.on, s'.parent)
  {
    hide NoteOf, InvParent, InvWake, InvWait, Inv1;
    ExecNotUsed(s, c, p, pc);
  }

  lemma NotInit(s: State, p: nat)
    requires Inv(s) && p < |s.st| && InExit(NoteOf(s.pc[p]))
    ensures p != INIT
  {
    hide NoteOf, InvFork, InvWake, InvWait, Inv1, InExit;
  }

  // ---- wakeup

  /** One turn of wakeup's loop: `i` is done, because it is the caller itself, or because
      its lock was held and a sleeper on the channel made runnable. */
  lemma TurnKeeps(s: State, s': State, c: nat, p: nat, pc: Pc, ch: Chan, i: nat, k: Caller)
    requires Inv(s) && Exec(s, c, p, pc) && NoteOf(pc) == Waking(ch, i, k) && i < |s.st|
    requires Moves(s, s', p) && s'.pc[p] == At(Wake(ch, i + 1, k)) && s'.parent == s.parent
    requires forall q :: 0 <= q < |s.st| ==> s'.st[q] == s.st[q] || (s.st[q] == SLEEPING && s'.st[q] == RUNNABLE)
    requires i == p || forall l :: 0 <= l < |s.lk| ==> !Committed(NoteOf(s.pc[i]), s'.st[i], ch, l)
    requires Inv1(s') && (k != Client ==> s.lk[WAIT] == s.on[p] == Some(c))
    ensures Inv(s')
  {
    hide NoteOf, Inv1;
    assert NoteOf(s'.pc[p]) == Waking(ch, i + 1, k) by { WakeNote(ch, i + 1, k); }
    ForkSame(s, s', c, p, pc);
    TurnWoken(s, s', p, ch, i, k);
    OtherWakers(s, s', p);
    TurnParent(s, s', p, ch, i, k);
    TurnWait(s, s', c, p, ch, i, k);
  }

  lemma WakeNote(ch: Chan, i: nat, k: Caller)
    ensures NoteOf(At(Wake(ch, i, k))) == Waking(ch, i, k)
  {
  }

  lemma TurnWoken(s: State, s': State, p: nat, ch: Chan, i: nat, k: Caller)
    requires Inv(s) && Moves(s, s', p) && NoteOf(s.pc[p]) == Waking(ch, i, k)
    requires forall q :: 0 <= q < |s.st| ==> s'.st[q] == s.st[q] || (s.st[q] == SLEEPING && s'.st[q] == RUNNABLE)
    requires i == p || i >= |s.st| || forall l :: 0 <= l < |s.lk| ==> !Committed(NoteOf(s.pc[i]), s'.st[i], ch, l)
    ensures NoneLeft(s'.pc, s'.st, s'.lk, s'.on[p], p, ch, i + 1)
    ensures k == ExitParent ==> ch == ChanOf(s.parent[p])
  {
    hide NoteOf, Inv1, InvFork, InvParent, InvWait;
    assert NoneLeft(s.pc, s.st, s.lk, s.on[p], p, ch, i);
  }

  lemma TurnParent(s: State, s': State, p: nat, ch: Chan, i: nat, k: Caller)
    requires Inv(s) && Moves(s, s', p) && NoteOf(s.pc[p]) == Waking(ch, i, k)
    requires NoteOf(s'.pc[p]) == Waking(ch, i + 1, k)
    requires s'.parent == s.parent
    requires forall q :: 0 <= q < |s.st| ==> s'.st[q] == s.st[q] || (s.st[q] == SLEEPING && s'.st[q] == RUNNABLE)
    ensures InvParent(s'.pc, s'.st, s'.parent)
  {
    hide NoteOf, Inv1, InvFork, InvWake, InvWait;
    forall q | 0 <= q < |s.st| ensures ParentOk(s'.st, s'.parent, q) && SweptOk(NoteOf(s'.pc[q]), s'.parent, q) {
      assert ParentOk(s.st, s.parent, q) && SweptOk(NoteOf(s.pc[q]), s.parent, q);
    }
  }

  lemma TurnWait(s: State, s': State, c: nat, p: nat, ch: Chan, i: nat, k: Caller)
    requires Inv(s) && Moves(s, s', p) && NoteOf(s.pc[p]) == Waking(ch, i, k)
    requires NoteOf(s'.pc[p]) == Waking(ch, i + 1, k)
    requires s'.parent == s.parent && NoneLeft(s'.pc, s'.st, s'.lk, s'.on[p], p, ch, i + 1)
    requires forall q :: 0 <= q < |s.st| ==> s'.st[q] == s.st[q] || (s.st[q] == SLEEPING && s'.st[q] == RUNNABLE)
    requires k != Client ==> s.lk[WAIT] == s.on[p] == Some(c)
    ensures InvWait(s'.pc, s'.st, s'.parent)
  {
    hide NoteOf, Inv1, InvFork, InvWake;
    forall q | 0 <= q < |s.st| ensures ScanOk(NoteOf(s'.pc[q]), s'.st, s'.parent, q) {
      assert ScanOk(NoteOf(s.pc[q]), s.st, s.parent, q);
    }
    forall q | 0 <= q < |s.st| ensures RestOk(s'.pc, s'.st, s'.parent, q) {
      assert RestOk(s.pc, s.st, s.parent, q);
      if q == INIT && InitWakeup(s.pc) {
        var w :| 0 <= w < |s.pc| && WakesInit(NoteOf(s.pc[w]));
        if w != p {
          assert WakesInit(NoteOf(s'.pc[w]));
        } else {
          NotInit(s, p);
        }
      }
    }
  }

  lemma WakeSkipKeeps(s: State, s': State, c: nat, p: nat, op: Op)
    requires Inv(s) && Exec(s, c, p, At(op)) && NextOp(s, s', c, p, op) && op.Wake? && op.i == p && Inv1(s')
    ensures Inv(s')
  {
    hide Inv, Inv1;
    InvShape(s);
    WaitHeld(s, c, p, At(op));
    TurnKeeps(s, s', c, p, At(op), op.ch, op.i, op.k);
  }

  lemma InvShape(s: State)
    requires Inv(s)
    ensures Shape(s)
  {
  }

  lemma WaitHeld(s: State, c: nat, p: nat, pc: Pc)
    requires Inv(s) && Exec(s, c, p, pc)
    ensures s.on[p] == Some(c)
    ensures LocksOf(pc) == Only(WAIT) ==> s.lk[WAIT] == Some(c)
  {
    hide InvFork, InvParent, InvWake, InvWait;
    ExecFacts(s, c, p, pc);
  }

  /** A sleeper whose lock the waker holds is woken if it sleeps on the channel. */
  lemma WakeLockedKeeps(s: State, s': State, c: nat, p: nat, pc: Pc, choice: bool)
    requires Inv(s) && Exec(s, c, p, pc) && NextLocked(s, s', c, p, pc, choice) && pc.WakeLocked? && Inv1(s')
    ensures Inv(s')
  {
    hide Inv, Inv1;
    InvShape(s);
    WaitHeld(s, c, p, pc);
    NotCommitted(s, c, p, pc);
    assert s'.st[pc.i] == WokenOn(s.st[pc.i], s.chan[pc.i], pc.ch);
    TurnKeeps(s, s', c, p, pc, pc.ch, pc.i, pc.k);
  }

  function WokenOn(st: PState, chan: Chan, ch: Chan): PState {
    if st == SLEEPING && chan == ch then RUNNABLE else st
  }

  lemma NotCommitted(s: State, c: nat, p: nat, pc: Pc)
    requires Inv(s) && Exec(s, c, p, pc) && pc.WakeLocked?
    ensures pc.i < |s.st| && pc.i != p
    ensures forall l :: 0 <= l < |s.lk| ==>
      !Committed(NoteOf(s.pc[pc.i]), WokenOn(s.st[pc.i], s.chan[pc.i], pc.ch), pc.ch, l)
  {
    hide InvFork, InvParent, InvWake, InvWait, InvLocks, InvRun, InvState;
    ExecFacts(s, c, p, pc);
    LockedOut(s, c, p, pc, pc.i);
    NotFalling(s, c, p, pc);
    StateAt(s, pc.i);
  }

  lemma NotFalling(s: State, c: nat, p: nat, pc: Pc)
    requires Inv(s) && Exec(s, c, p, pc) && pc.WakeLocked? && pc.i < |s.st|
    ensures !s.pc[pc.i].SleepSet?
  {
    hide InvFork, InvParent, InvWake, InvWait;
    ExecFacts(s, c, p, pc);
    StateAt(s, pc.i);
    assert s.on[pc.i].Some? ==> ProcLock(s.run[s.on[pc.i].v], s.pc) != Some(pc.i);
  }

  // ---- ends of wakeup in exit

  /** A step of `p` alone, after which its note asks for no more than before. */
  ghost predicate Alone(s: State, s': State, p: nat)
    requires Shape(s)
  {
    Moves(s, s', p) && s'.parent == s.parent && s'.st == s.st && !WakesInit(NoteOf(s.pc[p]))
  }

  lemma AloneParent(s: State, s': State, p: nat)
    requires Inv(s) && Alone(s, s', p) && (p == INIT ==> !InExit(NoteOf(s'.pc[p])))
    requires SweptOk(NoteOf(s'.pc[p]), s.parent, p)
    ensures InvParent(s'.pc, s'.st, s'.parent)
  {
    hide NoteOf, Inv1, InvFork, InvWake, InvWait, InExit;
  }

  lemma AloneWait(s: State, s': State, p: nat)
    requires Inv(s) && Alone(s, s', p) && ScanOk(NoteOf(s'.pc[p]), s.st, s.parent, p)
    ensures InvWait(s'.pc, s'.st, s'.parent)
  {
    hide NoteOf, Inv1, InvFork, InvParent, InvWake;
    forall q | 0 <= q < |s.st| ensures RestOk(s'.pc, s'.st, s'.parent, q) {
      assert RestOk(s.pc, s.st, s.parent, q);
      if InitWakeup(s.pc) {
        var w :| 0 <= w < |s.pc| && WakesInit(NoteOf(s.pc[w]));
        assert WakesInit(NoteOf(s'.pc[w]));
      }
    }
  }

  lemma AloneKeeps(s: State, s': State, c: nat, p: nat, pc: Pc)
    requires Inv(s) && Exec(s, c, p, pc) && Alone(s, s', p) && Inv1(s') && (p == INIT ==> !InExit(NoteOf(s'.pc[p])))
    requires SweptOk(NoteOf(s'.pc[p]), s.parent, p)
    requires ScanOk(NoteOf(s'.pc[p]), s.st, s.parent, p) && !NoteOf(s'.pc[p]).Forking?
    requires NoteOf(s'.pc[p]).Waking? ==> NoteOf(s'.pc[p]).i == 0
    requires NoteOf(s'.pc[p]).Waking? && NoteOf(s'.pc[p]).k == ExitParent ==> NoteOf(s'.pc[p]).ch == ChanOf(s.parent[p])
    requires NoteOf(s'.pc[p]) == Announced ==> NoneLeft(s'.pc, s'.st, s'.lk, s'.on[p], p, ChanOf(s'.parent[p]), |s.st|)
    ensures Inv(s')
  {
    hide NoteOf, Inv1, InExit, ScanOk, SweptOk;
    ForkSame(s, s', c, p, pc);
    OtherWakers(s, s', p);
    AloneParent(s, s', p);
    AloneWait(s, s', p);
  }

  lemma SweptFacts(s: State, p: nat)
    requires Inv(s) && p < |s.st|
    ensures SweptOk(NoteOf(s.pc[p]), s.parent, p)
    ensures ScanOk(NoteOf(s.pc[p]), s.st, s.parent, p)
    ensures p == INIT ==> !InExit(NoteOf(s.pc[p]))
  {
    hide NoteOf, Inv1, InvFork, InvWake, InExit, ScanOk, SweptOk;
  }

  lemma WakeEndKeeps(s: State, s': State, c: nat, p: nat, op: Op)
    requires Inv(s) && Exec(s, c, p, At(op)) && NextOp(s, s', c, p, op) && op.Wake? && op.i >= |s.st| && op.k != Client
    requires Inv1(s')
    ensures Inv(s')
  {
    hide Inv1, InvFork, InvParent, InvWait;
    SweptFacts(s, p);
    NotInit(s, p);
    if op.k == ExitParent {
      NoneLeftEnd(s, s', p, op.ch, op.i);
    }
    AloneKeeps(s, s', c, p, At(op));
  }

  lemma NoneLeftEnd(s: State, s': State, p: nat, ch: Chan, i: nat)
    requires Inv(s) && Moves(s, s', p) && NoteOf(s.pc[p]) == Waking(ch, i, ExitParent) && i >= |s.st| && s'.st == s.st
    requires s'.parent == s.parent
    ensures NoneLeft(s'.pc, s'.st, s'.lk, s'.on[p], p, ChanOf(s'.parent[p]), |s.st|)
  {
    hide NoteOf, Inv1, InvFork, InvParent, InvWait;
    assert NoneLeft(s.pc, s.st, s.lk, s.on[p], p, ch, i);
  }

  // ---- reparent

  /** An entry that is not a child, or the end of the table. */
  lemma SweepKeeps(s: State, s': State, c: nat, p: nat, j: nat)
    requires Inv(s) && Exec(s, c, p, At(Reparent(j))) && NextOp(s, s', c, p, Reparent(j)) && Inv1(s')
    requires j >= |s.st| || s.parent[j] != Some(p)
    ensures Inv(s')
  {
    hide Inv1, InvFork, InvParent, InvWait, InvWake;
    SweptFacts(s, p);
    NotInit(s, p);
    AloneKeeps(s, s', c, p, At(Reparent(j)));
  }

  /** A child is handed to init, which is woken next. */
  lemma HandOverKeeps(s: State, s': State, c: nat, p: nat, j: nat)
    requires Inv(s) && Exec(s, c, p, At(Reparent(j))) && NextOp(s, s', c, p, Reparent(j)) && Inv1(s')
    requires j < |s.st| && s.parent[j] == Some(p)
    ensures Inv(s')
  {
    hide Inv1, InvFork, InvParent, InvWait, InvWake;
    NotInit(s, p);
    OneHolder(s, c, p, At(Reparent(j)));
    HandOverFork(s, s', c, p, j);
    HandOverParent(s, s', p, j);
    OtherWakers(s, s', p);
    HandOverWait(s, s', p, j);
  }

  ghost predicate HandOver(s: State, s': State, p: nat, j: nat)
    requires Shape(s)
  {
    && Moves(s, s', p) && j < |s.st| && s.parent[j] == Some(p) && p != INIT
    && s'.parent == s.parent[j := Some(INIT)] && s'.st == s.st
    && NoteOf(s.pc[p]) == Sweeping(j) && NoteOf(s'.pc[p]) == Waking(ProcChan(INIT), 0, Reparenting(j))
  }

  lemma HandOverFork(s: State, s': State, c: nat, p: nat, j: nat)
    requires Inv(s) && Exec(s, c, p, At(Reparent(j))) && HandOver(s, s', p, j)
    ensures InvFork(s'.pc, s'.st, s'.on, s'.parent)
  {
    hide NoteOf, InvParent, InvWake, InvWait, Inv1;
    ExecNotUsed(s, c, p, At(Reparent(j)));
  }

  lemma HandOverParent(s: State, s': State, p: nat, j: nat)
    requires Inv(s) && HandOver(s, s', p, j)
    ensures InvParent(s'.pc, s'.st, s'.parent)
  {
    hide NoteOf, InvFork, InvWake, InvWait, Inv1;
    assert ParentOk(s.st, s.parent, j);
    forall q | 0 <= q < |s.st| ensures ParentOk(s'.st, s'.parent, q) && SweptOk(NoteOf(s'.pc[q]), s'.parent, q) {
      assert ParentOk(s.st, s.parent, q) && SweptOk(NoteOf(s.pc[q]), s.parent, q);
    }
  }

  lemma HandOverWait(s: State, s': State, p: nat, j: nat)
    requires Inv(s) && HandOver(s, s', p, j)
    requires forall q :: 0 <= q < |s.st| && q != p ==> !WaitNote(NoteOf(s.pc[q]))
    ensures InvWait(s'.pc, s'.st, s'.parent)
  {
    hide NoteOf, InvFork, InvWake, InvParent, Inv1;
    assert WakesInit(NoteOf(s'.pc[p]));
    forall q | 0 <= q < |s.st| ensures RestOk(s'.pc, s'.st, s'.parent, q) {
      assert RestOk(s.pc, s.st, s.parent, q);
      if q == INIT {
        assert s'.parent[j] == Some(INIT);
      } else if q != p && HasChild(s.parent, q) {
        var x :| 0 <= x < |s.parent| && s.parent[x] == Some(q);
        assert s'.parent[x] == Some(q);
      }
    }
  }

  // ---- becoming a zombie

  lemma ZombieKeeps(s: State, s': State, c: nat, p: nat, choice: bool)
    requires Inv(s) && Exec(s, c, p, ExitZombie) && NextLocked(s, s', c, p, ExitZombie, choice) && Inv1(s')
    ensures Inv(s')
  {
    hide Inv1, InvFork, InvParent, InvWait, InvWake;
    NotInit(s, p);
    OneHolder(s, c, p, ExitZombie);
    ExecNotUsed(s, c, p, ExitZombie);
    ForkSame(s, s', c, p, ExitZombie);
    OtherWakers(s, s', p);
    ZombieParent(s, s', p);
    ZombieWait(s, s', c, p);
  }

  ghost predicate Dies(s: State, s': State, p: nat)
    requires Shape(s)
  {
    && Moves(s, s', p) && p != INIT && s'.parent == s.parent && s'.st == s.st[p := ZOMBIE] && s.st[p] == RUNNING
    && NoteOf(s.pc[p]) == Announced && NoteOf(s'.pc[p]) == Gone
  }

  lemma ZombieParent(s: State, s': State, p: nat)
    requires Inv(s) && Dies(s, s', p)
    ensures InvParent(s'.pc, s'.st, s'.parent)
  {
    hide NoteOf, InvFork, InvWake, InvWait, Inv1;
    forall q | 0 <= q < |s.st| ensures ParentOk(s'.st, s'.parent, q) && SweptOk(NoteOf(s'.pc[q]), s'.parent, q) {
      assert ParentOk(s.st, s.parent, q) && SweptOk(NoteOf(s.pc[q]), s.parent, q);
    }
  }

  /** The parent of a new zombie is not asleep in wait: it was woken under wait_lock, and
      nobody can have gone to sleep on wait_lock since. */
  lemma ZombieWait(s: State, s': State, c: nat, p: nat)
    requires Inv(s) && Dies(s, s', p) && s.on[p] == Some(c) && s.lk[WAIT] == Some(c)
    requires forall q :: 0 <= q < |s.st| && q != p ==> !WaitNote(NoteOf(s.pc[q]))
    ensures InvWait(s'.pc, s'.st, s'.parent)
  {
    hide NoteOf, InvFork, InvParent, Inv1;
    assert NoneLeft(s.pc, s.st, s.lk, s.on[p], p, ChanOf(s.parent[p]), |s.st|);
    forall q | 0 <= q < |s.st| ensures RestOk(s'.pc, s'.st, s'.parent, q) {
      assert RestOk(s.pc, s.st, s.parent, q);
    }
  }

  // ---- going to sleep

  /** Releasing the lock on the way to sleep commits the thread to sleep. */
  lemma FallKeeps(s: State, s': State, c: nat, p: nat, ch: Chan, l: nat, choice: bool)
    requires Inv(s) && Exec(s, c, p, SleepHold(ch, l)) && NextLocked(s, s', c, p, SleepHold(ch, l), choice) && Inv1(s')
    ensures Inv(s')
  {
    hide Inv1, InvFork, InvParent, InvWait, InvWake;
    ExecNotUsed(s, c, p, SleepHold(ch, l));
    FallFork(s, s', p, ch, l);
    FallParent(s, s', p, ch, l);
    FallWake(s, s', p, ch, l);
    FallWait(s, s', p, ch, l);
  }

  ghost predicate Falls(s: State, s': State, p: nat, ch: Chan, l: nat)
    requires Shape(s)
  {
    && Shape(s') && |s'.st| == |s.st| && p < |s.st| && l < |s.lk| && s'.lk == s.lk[l := None]
    && s'.on == s.on && s'.parent == s.parent && s'.st == s.st && s.st[p] == RUNNING
    && (forall q :: 0 <= q < |s.st| && q != p ==> s'.pc[q] == s.pc[q])
    && NoteOf(s.pc[p]) == (if l == WAIT then Tired else Plain) && NoteOf(s'.pc[p]) == Falling(ch, l)
    && SleepOk(ch, l, p)
  }

  lemma FallFork(s: State, s': State, p: nat, ch: Chan, l: nat)
    requires Inv(s) && Falls(s, s', p, ch, l)
    ensures InvFork(s'.pc, s'.st, s'.on, s'.parent)
  {
    hide NoteOf, InvParent, InvWake, InvWait, Inv1;
  }

  lemma FallParent(s: State, s': State, p: nat, ch: Chan, l: nat)
    requires Inv(s) && Falls(s, s', p, ch, l)
    ensures InvParent(s'.pc, s'.st, s'.parent)
  {
    hide NoteOf, InvFork, InvWake, InvWait, Inv1;
  }

  lemma FallWake(s: State, s': State, p: nat, ch: Chan, l: nat)
    requires Inv(s) && Falls(s, s', p, ch, l)
    ensures InvWake(s'.pc, s'.st, s'.on, s'.parent, s'.lk)
  {
    hide NoteOf, InvFork, InvParent, InvWait, Inv1;
    forall w, x, i | 0 <= w < |s.st| && NoneLeft(s.pc, s.st, s.lk, s.on[w], w, x, i)
      ensures NoneLeft(s'.pc, s'.st, s'.lk, s'.on[w], w, x, i)
    {
    }
  }

  lemma FallWait(s: State, s': State, p: nat, ch: Chan, l: nat)
    requires Inv(s) && Falls(s, s', p, ch, l)
    ensures InvWait(s'.pc, s'.st, s'.parent)
  {
    hide NoteOf, InvFork, InvParent, InvWake, Inv1;
    assert ScanOk(NoteOf(s.pc[p]), s.st, s.parent, p);
    forall q | 0 <= q < |s.st| ensures RestOk(s'.pc, s'.st, s'.parent, q) {
      assert RestOk(s.pc, s.st, s.parent, q);
      if InitWakeup(s.pc) {
        var w :| 0 <= w < |s.pc| && WakesInit(NoteOf(s.pc[w]));
        assert WakesInit(NoteOf(s'.pc[w]));
      }
    }
  }

  // ---- wait

  lemma ScanKeeps(s: State, s': State, c: nat, p: nat, i: nat, h: bool)
    requires Inv(s) && Exec(s, c, p, At(WaitScan(i, h))) && NextOp(s, s', c, p, WaitScan(i, h)) && Inv1(s')
    requires s'.halt == Going
    ensures Inv(s')
  {
    hide Inv, Inv1, NextOp, ScanOk, NoteOf, Alone;
    ScanStep(s, s', c, p, i, h);
    AloneKeeps(s, s', c, p, At(WaitScan(i, h)));
  }

  lemma ScanStep(s: State, s': State, c: nat, p: nat, i: nat, h: bool)
    requires Inv(s) && Exec(s, c, p, At(WaitScan(i, h))) && NextOp(s, s', c, p, WaitScan(i, h)) && s'.halt == Going
    ensures Alone(s, s', p) && ScanOk(NoteOf(s'.pc[p]), s.st, s.parent, p)
    ensures NoteOf(s'.pc[p]).Plain? || NoteOf(s'.pc[p]).Child? || NoteOf(s'.pc[p]).Scanning? || NoteOf(s'.pc[p]).Tired?
  {
    hide Inv1, InvFork, InvParent, InvWait, InvWake, ScanOk;
    SweptFacts(s, p);
    ScanMore(s, p, i, h);
  }

  lemma ScanMore(s: State, p: nat, i: nat, h: bool)
    requires Shape(s) && ScanOk(Scanning(i, h), s.st, s.parent, p)
    ensures ScanOk(Plain, s.st, s.parent, p)
    ensures i < |s.st| && s.parent[i] == Some(p) ==> ScanOk(Child(i), s.st, s.parent, p)
    ensures i < |s.st| && s.parent[i] != Some(p) ==> ScanOk(Scanning(i + 1, h), s.st, s.parent, p)
    ensures i >= |s.st| && h ==> ScanOk(Tired, s.st, s.parent, p)
  {
  }

  /** A child that is no zombie, or whose status could not be copied out. */
  lemma ChildKeeps(s: State, s': State, c: nat, p: nat, i: nat, choice: bool)
    requires Inv(s) && Exec(s, c, p, WaitLocked(i)) && NextLocked(s, s', c, p, WaitLocked(i), choice) && Inv1(s')
    requires i < |s.st| && (s.st[i] != ZOMBIE || !choice)
    ensures Inv(s')
  {
    hide Inv1, InvFork, InvParent, InvWait, InvWake;
    SweptFacts(s, p);
    AloneKeeps(s, s', c, p, WaitLocked(i));
  }

  /** A zombie child is freed. */
  lemma ReapKeeps(s: State, s': State, c: nat, p: nat, i: nat)
    requires Inv(s) && Exec(s, c, p, WaitLocked(i)) && NextLocked(s, s', c, p, WaitLocked(i), true) && Inv1(s')
    requires i < |s.st| && s.st[i] == ZOMBIE
    ensures Inv(s')
  {
    hide Inv1, InvFork, InvParent, InvWait, InvWake;
    SweptFacts(s, p);
    OneHolder(s, c, p, WaitLocked(i));
    LockedOut(s, c, p, WaitLocked(i), i);
    StateAt(s, i);
    ReapFork(s, s', c, p, i);
    ReapParent(s, s', p, i);
    OtherWakers(s, s', p);
    ReapWait(s, s', p, i);
  }

  ghost predicate Reaps(s: State, s': State, p: nat, i: nat)
    requires Shape(s)
  {
    && Moves(s, s', p) && i < |s.st| && i != p && s.parent[i] == Some(p) && s.st[i] == ZOMBIE
    && s'.parent == s.parent[i := None] && s'.st == s.st[i := UNUSED]
    && NoteOf(s.pc[p]) == Child(i) && NoteOf(s'.pc[p]) == Plain && NoteOf(s.pc[i]) == Gone
  }

  lemma ReapFork(s: State, s': State, c: nat, p: nat, i: nat)
    requires Inv(s) && Exec(s, c, p, WaitLocked(i)) && Reaps(s, s', p, i)
    ensures InvFork(s'.pc, s'.st, s'.on, s'.parent)
  {
    hide NoteOf, InvParent, InvWake, InvWait, Inv1, InvFork;
    ForkSame(s, s', c, p, WaitLocked(i));
  }

  lemma ReapParent(s: State, s': State, p: nat, i: nat)
    requires Inv(s) && Reaps(s, s', p, i)
    ensures InvParent(s'.pc, s'.st, s'.parent)
  {
    hide NoteOf, InvFork, InvWake, InvWait, Inv1;
    assert SweptOk(NoteOf(s.pc[i]), s.parent, i) && ParentOk(s.st, s.parent, i);
    forall q | 0 <= q < |s.st| ensures ParentOk(s'.st, s'.parent, q) && SweptOk(NoteOf(s'.pc[q]), s'.parent, q) {
      assert ParentOk(s.st, s.parent, q) && SweptOk(NoteOf(s.pc[q]), s.parent, q);
    }
  }

  lemma ReapWait(s: State, s': State, p: nat, i: nat)
    requires Inv(s) && Reaps(s, s', p, i)
    requires forall q :: 0 <= q < |s.st| && q != p ==> !WaitNote(NoteOf(s.pc[q]))
    ensures InvWait(s'.pc, s'.st, s'.parent)
  {
    hide NoteOf, InvFork, InvWake, InvParent, Inv1;
    forall q | 0 <= q < |s.st| ensures RestOk(s'.pc, s'.st, s'.parent, q) {
      assert RestOk(s.pc, s.st, s.parent, q);
      if q != p && HasChild(s.parent, q) {
        var x :| 0 <= x < |s.parent| && s.parent[x] == Some(q);
        assert s'.parent[x] == Some(q);
      }
    }
  }

  // ---- fork

  /** allocproc found entry `i` unused. */
  lemma AllocKeeps(s: State, s': State, c: nat, p: nat, i: nat, choice: bool)
    requires Inv(s) && Exec(s, c, p, ForkLocked(i)) && NextLocked(s, s', c, p, ForkLocked(i), choice) && Inv1(s')
    requires i < |s.st| && s.st[i] == UNUSED
    ensures Inv(s')
  {
    hide Inv1, InvFork, InvParent, InvWait, InvWake;
    ExecNotUsed(s, c, p, ForkLocked(i));
    AllocKeeps1(s, c, p, i);
    StateAt(s, i);
    AllocFork(s, s', p, i);
    AllocParent(s, s', p, i);
    AllocWake(s, s', p, i);
    AllocWait(s, s', p, i);
  }

  ghost predicate Allocs(s: State, s': State, p: nat, i: nat)
    requires Shape(s)
  {
    && Shape(s') && |s'.st| == |s.st| && p < |s.st| && i < |s.st| && i != p
    && s'.lk == s.lk && s'.on == s.on && s'.parent == s.parent && s'.st == s.st[i := USED] && s.st[i] == UNUSED
    && (forall q :: 0 <= q < |s.st| && q != p && q != i ==> s'.pc[q] == s.pc[q])
    && s.on[i] == None && s'.pc[i] == Back(ForkRet) && (NoteOf(s.pc[i]) == Plain || NoteOf(s.pc[i]) == Gone)
    && NoteOf(s'.pc[i]) == Plain && NoteOf(s.pc[p]) == Plain && NoteOf(s'.pc[p]) == Forking(i, false)
    && s.st[p] == RUNNING
  }

  lemma AllocFork(s: State, s': State, p: nat, i: nat)
    requires Inv(s) && Allocs(s, s', p, i)
    ensures InvFork(s'.pc, s'.st, s'.on, s'.parent)
  {
    hide NoteOf, InvWake, InvWait, Inv1;
    assert ParentOk(s.st, s.parent, i);
  }

  lemma AllocParent(s: State, s': State, p: nat, i: nat)
    requires Inv(s) && Allocs(s, s', p, i)
    ensures InvParent(s'.pc, s'.st, s'.parent)
  {
    hide NoteOf, InvFork, InvWake, InvWait, Inv1;
    forall q | 0 <= q < |s.st| ensures ParentOk(s'.st, s'.parent, q) && SweptOk(NoteOf(s'.pc[q]), s'.parent, q) {
      assert ParentOk(s.st, s.parent, q) && SweptOk(NoteOf(s.pc[q]), s.parent, q);
    }
  }

  lemma AllocWake(s: State, s': State, p: nat, i: nat)
    requires Inv(s) && Allocs(s, s', p, i)
    ensures InvWake(s'.pc, s'.st, s'.on, s'.parent, s'.lk)
  {
    hide NoteOf, InvFork, InvParent, InvWait, Inv1;
    forall w, x, k | 0 <= w < |s.st| && NoneLeft(s.pc, s.st, s.lk, s.on[w], w, x, k)
      ensures NoneLeft(s'.pc, s'.st, s'.lk, s'.on[w], w, x, k)
    {
    }
  }

  lemma AllocWait(s: State, s': State, p: nat, i: nat)
    requires Inv(s) && Allocs(s, s', p, i)
    ensures InvWait(s'.pc, s'.st, s'.parent)
  {
    hide NoteOf, InvFork, InvWake, InvParent, Inv1;
    forall q | 0 <= q < |s.st|
      ensures RestOk(s'.pc, s'.st, s'.parent, q) && ScanOk(NoteOf(s'.pc[q]), s'.st, s'.parent, q) {
      assert RestOk(s.pc, s.st, s.parent, q) && ScanOk(NoteOf(s.pc[q]), s.st, s.parent, q);
      if InitWakeup(s.pc) {
        var w :| 0 <= w < |s.pc| && WakesInit(NoteOf(s.pc[w]));
        assert WakesInit(NoteOf(s'.pc[w]));
      }
    }
  }

  /** The infant of a fork, which nobody else is forking. */
  lemma InfantFacts(s: State, p: nat)
    requires Inv(s) && p < |s.st| && NoteOf(s.pc[p]).Forking?
    ensures InfantOk(s.pc, s.st, s.on, s.parent, p, NoteOf(s.pc[p]).np, NoteOf(s.pc[p]).linked)
  {
    hide NoteOf, InvParent, InvWake, InvWait, Inv1;
  }

  /** A step of `p` that ends with its infant in a new state. */
  ghost predicate Raises(s: State, s': State, p: nat, np: nat, linked: bool, st: PState, o: Opt<nat>, note: Note)
    requires Shape(s)
  {
    && Moves(s, s', p) && np < |s.st| && np != p && s.st[np] == USED && s.on[np] == None && s.pc[np] == Back(ForkRet)
    && s.parent[np] == (if linked then Some(p) else None)
    && s'.st == s.st[np := st] && s'.parent == s.parent[np := o] && s.st[p] == RUNNING
    && NoteOf(s.pc[p]) == Forking(np, linked) && NoteOf(s'.pc[p]) == note && NoteOf(s.pc[np]) == Plain
  }

  lemma RaiseFork(s: State, s': State, p: nat, np: nat, linked: bool, st: PState, o: Opt<nat>, note: Note)
    requires Inv(s) && Raises(s, s', p, np, linked, st, o, note)
    requires note == Plain || (note == Forking(np, true) && st == USED && o == Some(p))
    ensures InvFork(s'.pc, s'.st, s'.on, s'.parent)
  {
    hide NoteOf, InvParent, InvWake, InvWait, Inv1;
  }

  lemma RaiseWake(s: State, s': State, p: nat, np: nat, linked: bool, st: PState, o: Opt<nat>, note: Note)
    requires Inv(s) && Raises(s, s', p, np, linked, st, o, note) && !note.Waking? && note != Announced
    ensures InvWake(s'.pc, s'.st, s'.on, s'.parent, s'.lk)
  {
    hide NoteOf, InvFork, InvParent, InvWait, InvWake, Inv1;
    OtherWakers(s, s', p);
  }

  lemma RaiseWait(s: State, s': State, p: nat, np: nat, linked: bool, st: PState, o: Opt<nat>, note: Note)
    requires Inv(s) && Raises(s, s', p, np, linked, st, o, note) && !WaitNote(note) && st != ZOMBIE
    requires s'.parent == s.parent
    ensures InvWait(s'.pc, s'.st, s'.parent)
  {
    hide NoteOf, InvFork, InvWake, InvParent, Inv1;
    forall q | 0 <= q < |s.st|
      ensures RestOk(s'.pc, s'.st, s'.parent, q) && ScanOk(NoteOf(s'.pc[q]), s'.st, s'.parent, q) {
      assert RestOk(s.pc, s.st, s.parent, q) && ScanOk(NoteOf(s.pc[q]), s.st, s.parent, q);
      if InitWakeup(s.pc) {
        var w :| 0 <= w < |s.pc| && WakesInit(NoteOf(s.pc[w]));
        assert WakesInit(NoteOf(s'.pc[w]));
      }
    }
  }

  /** A new child under wait_lock: nobody else is in the middle of wait. */
  lemma LinkWait(s: State, s': State, p: nat, np: nat)
    requires Inv(s) && Raises(s, s', p, np, false, USED, Some(p), Forking(np, true))
    requires forall q :: 0 <= q < |s.st| && q != p ==> !WaitNote(NoteOf(s.pc[q]))
    ensures InvWait(s'.pc, s'.st, s'.parent)
  {
    hide NoteOf, InvFork, InvWake, InvParent, Inv1;
    forall q | 0 <= q < |s.st| ensures RestOk(s'.pc, s'.st, s'.parent, q) {
      assert RestOk(s.pc, s.st, s.parent, q);
      if HasChild(s.parent, q) {
        var x :| 0 <= x < |s.parent| && s.parent[x] == Some(q);
        assert s'.parent[x] == Some(q);
      }
    }
  }

  lemma FailParent(s: State, s': State, p: nat, np: nat)
    requires Inv(s) && Raises(s, s', p, np, false, UNUSED, None, Plain)
    ensures InvParent(s'.pc, s'.st, s'.parent)
  {
    hide NoteOf, InvFork, InvWake, InvWait, Inv1;
    forall q | 0 <= q < |s.st| ensures ParentOk(s'.st, s'.parent, q) && SweptOk(NoteOf(s'.pc[q]), s'.parent, q) {
      assert ParentOk(s.st, s.parent, q) && SweptOk(NoteOf(s.pc[q]), s.parent, q);
    }
  }

  /** fork runs out of memory and frees the new process again. */
  lemma FailKeeps(s: State, s': State, c: nat, p: nat, np: nat)
    requires Inv(s) && Exec(s, c, p, ForkFill(np)) && NextLocked(s, s', c, p, ForkFill(np), false) && Inv1(s')
    ensures Inv(s')
  {
    hide Inv1, InvFork, InvParent, InvWait, InvWake;
    ExecNotUsed(s, c, p, ForkFill(np));
    InfantFacts(s, p);
    assert s'.parent == s.parent;
    RaiseFork(s, s', p, np, false, UNUSED, None, Plain);
    FailParent(s, s', p, np);
    RaiseWake(s, s', p, np, false, UNUSED, None, Plain);
    RaiseWait(s, s', p, np, false, UNUSED, None, Plain);
  }

  lemma LinkParent(s: State, s': State, p: nat, np: nat)
    requires Inv(s) && RaisesUnlocked(s, s', p, np)
    ensures InvParent(s'.pc, s'.st, s'.parent)
  {
    hide NoteOf, InvFork, InvWake, InvWait, Inv1;
    assert ParentOk(s.st, s.parent, np);
    forall q | 0 <= q < |s.st| ensures ParentOk(s'.st, s'.parent, q) && SweptOk(NoteOf(s'.pc[q]), s'.parent, q) {
      assert ParentOk(s.st, s.parent, q) && SweptOk(NoteOf(s.pc[q]), s.parent, q);
    }
  }

  /** fork sets the parent pointer and drops wait_lock. */
  ghost predicate RaisesUnlocked(s: State, s': State, p: nat, np: nat)
    requires Shape(s)
  {
    Raises(s, s'.(lk := s.lk), p, np, false, USED, Some(p), Forking(np, true)) && s'.lk == s.lk[WAIT := None]
  }

  lemma LinkKeeps(s: State, s': State, c: nat, p: nat, np: nat, choice: bool)
    requires Inv(s) && Exec(s, c, p, ForkParent(np)) && NextLocked(s, s', c, p, ForkParent(np), choice) && Inv1(s')
    ensures Inv(s')
  {
    hide Inv1, InvFork, InvParent, InvWait, InvWake;
    ExecNotUsed(s, c, p, ForkParent(np));
    InfantFacts(s, p);
    OneHolder(s, c, p, ForkParent(np));
    var s1 := s'.(lk := s.lk);
    assert s'.st == s.st[np := USED];
    RaiseFork(s, s1, p, np, false, USED, Some(p), Forking(np, true));
    LinkParent(s, s', p, np);
    RaiseWake(s, s1, p, np, false, USED, Some(p), Forking(np, true));
    DropLock(s1, s'.lk, WAIT);
    LinkWait(s, s1, p, np);
  }

  lemma DropLock(s: State, lk: seq<Opt<nat>>, l: nat)
    requires Shape(s) && InvWake(s.pc, s.st, s.on, s.parent, s.lk) && l < |s.lk| && lk == s.lk[l := None]
    ensures InvWake(s.pc, s.st, s.on, s.parent, lk)
  {
    hide NoteOf;
    forall w, x, k | 0 <= w < |s.st| && NoneLeft(s.pc, s.st, s.lk, s.on[w], w, x, k)
      ensures NoneLeft(s.pc, s.st, lk, s.on[w], w, x, k)
    {
    }
  }

  lemma StartParent(s: State, s': State, p: nat, np: nat)
    requires Inv(s) && Raises(s, s', p, np, true, RUNNABLE, Some(p), Plain)
    ensures InvParent(s'.pc, s'.st, s'.parent)
  {
    hide NoteOf, InvFork, InvWake, InvWait, Inv1;
    assert ParentOk(s.st, s.parent, np);
    forall q | 0 <= q < |s.st| ensures ParentOk(s'.st, s'.parent, q) && SweptOk(NoteOf(s'.pc[q]), s'.parent, q) {
      assert ParentOk(s.st, s.parent, q) && SweptOk(NoteOf(s.pc[q]), s.parent, q);
    }
  }

  /** fork makes the new process runnable. */
  lemma StartKeeps(s: State, s': State, c: nat, p: nat, np: nat, choice: bool)
    requires Inv(s) && Exec(s, c, p, ForkStartLocked(np)) && NextLocked(s, s', c, p, ForkStartLocked(np), choice)
    requires Inv1(s')
    ensures Inv(s')
  {
    hide Inv1, InvFork, InvParent, InvWait, InvWake;
    ExecNotUsed(s, c, p, ForkStartLocked(np));
    InfantFacts(s, p);
    assert s'.parent == s.parent == s.parent[np := Some(p)];
    RaiseFork(s, s', p, np, true, RUNNABLE, Some(p), Plain);
    StartParent(s, s', p, np);
    RaiseWake(s, s', p, np, true, RUNNABLE, Some(p), Plain);
    RaiseWait(s, s', p, np, true, RUNNABLE, Some(p), Plain);
  }
}
