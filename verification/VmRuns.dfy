/** Every run of processes over physical memory (kernel/proc.c, kernel/vm.c, kernel/exec.c):
    they are created, grow, shrink, fork, exec, write to their memory and are freed, in any
    order and with memory running out at any point. */
module VmRuns {
  import opened Bytes
  import opened PageTable
  import opened PageOwner
  import opened VmSpec
  import opened VmMap
  import opened VmFree
  import opened VmUser
  import opened VmCopy
  import B = VmBytes
  import opened VmFork
  import X = VmExec

  /** p->sz and the frame of p->trapframe. */
  datatype Task = Task(size: nat, tf: nat)

  /** Physical memory, and the processes by the frame of their root page table. */
  datatype State = State(m: Mem, tasks: map<nat, Task>, panicked: bool)

  datatype Event =
    | Create
    | Grow(r: nat, newsz: nat, xperm: nat)
    | Shrink(r: nat, newsz: nat)
    | Fork(r: nat)
    | Exec(r: nat, segs: seq<X.Seg>, args: seq<seq<Byte>>, stack: nat)
    | Store(r: nat, va: nat, src: seq<Byte>)
    | Free(r: nat)

  /** An event that can happen: to a process that exists, with a size that growproc would
      pass on. */
  predicate Enabled(s: State, e: Event) {
    match e
    case Create => true
    case Grow(r, newsz, xperm) => r in s.tasks && s.tasks[r].size <= newsz && XpermOk(xperm)
    case Shrink(r, newsz) => r in s.tasks && newsz <= s.tasks[r].size
    case Fork(r) => r in s.tasks
    case Exec(r, segs, _, _) => r in s.tasks && X.SegsOk(segs)
    case Store(r, _, _) => r in s.tasks
    case Free(r) => r in s.tasks
  }

  predicate InMemory(s: State, r: nat) {
    r in s.tasks && r < |s.m.page| && Up(s.tasks[r].size) <= MAXVPN
  }

  /** allocproc's use of memory: a trapframe and a page table. */
  function Created(s: State, tramp: nat): State {
    if s.m.free == [] || s.m.free[0] >= |s.m.page| then s
    else
      var tf := s.m.free[0];
      match ProcPagetable(Taken(s.m), tramp, tf)
      case Made(m, c) => s.(m := m, tasks := s.tasks[c := Task(0, tf)])
      case NotMade(m) => if tf < |m.page| then s.(m := Freed(m, tf)) else s.(panicked := true)
      case MadePanic => s.(panicked := true)
  }

  /** freeproc's use of memory. */
  function Dropped(s: State, r: nat): State
    requires InMemory(s, r)
  {
    var tf := s.tasks[r].tf;
    if tf >= |s.m.page| then s.(panicked := true)
    else
      match FreePagetable(Freed(s.m, tf), r, Up(s.tasks[r].size))
      case Done(m) => s.(m := m, tasks := s.tasks - {r})
      case Panic => s.(panicked := true)
  }

  function Grown(s: State, r: nat, newsz: nat, xperm: nat): State
    requires InMemory(s, r)
  {
    match Uvmalloc(s.m, r, s.tasks[r].size, newsz, xperm).0
    case Bad => s.(panicked := true)
    case Failed(m) => s.(m := m)
    case Got(m) => s.(m := m, tasks := s.tasks[r := s.tasks[r].(size := newsz)])
  }

  function Shrunk(s: State, r: nat, newsz: nat): State
    requires InMemory(s, r)
  {
    match Uvmdealloc(s.m, r, s.tasks[r].size, newsz).0
    case Panic => s.(panicked := true)
    case Done(m) => s.(m := m, tasks := s.tasks[r := s.tasks[r].(size := newsz)])
  }

  function Split(s: State, tramp: nat, r: nat): State
    requires InMemory(s, r)
  {
    match VmFork.Fork(s.m, r, Up(s.tasks[r].size), tramp)
    case ForkPanic => s.(panicked := true)
    case ForkFailed(m) => s.(m := m)
    case Forked(m, c, tf) => s.(m := m, tasks := s.tasks[c := Task(s.tasks[r].size, tf)])
  }

  function Replaced(s: State, tramp: nat, r: nat, segs: seq<X.Seg>, args: seq<seq<Byte>>, stack: nat): State
    requires InMemory(s, r)
  {
    match X.Exec(s.m, r, Up(s.tasks[r].size), tramp, s.tasks[r].tf, segs, args, stack)
    case ExecPanic => s.(panicked := true)
    case Refused(m) => s.(m := m)
    case Replaced(m, root, size, _) => s.(m := m, tasks := (s.tasks - {r})[root := Task(size, s.tasks[r].tf)])
  }

  predicate Next(s: State, s': State, tramp: nat, e: Event) {
    && !s.panicked && Enabled(s, e) && (e.Create? || InMemory(s, e.r))
    && s' == match e
             case Create => Created(s, tramp)
             case Grow(r, newsz, xperm) => Grown(s, r, newsz, xperm)
             case Shrink(r, newsz) => Shrunk(s, r, newsz)
             case Fork(r) => Split(s, tramp, r)
             case Exec(r, segs, args, stack) => Replaced(s, tramp, r, segs, args, stack)
             case Store(r, va, src) => s.(m := B.Copyout(s.m, r, va, src, 0).m)
             case Free(r) => Dropped(s, r)
  }

  // ---- the invariant

  ghost predicate IsTrapframe(tasks: map<nat, Task>, f: nat) {
    exists r :: r in tasks && tasks[r].tf == f
  }

  /** The kernel holds its own frames and the trapframes, each of one process. */
  ghost predicate HeldOk(tasks: map<nat, Task>, kernel: set<nat>, owner: Owners) {
    && (forall f :: (f in owner && owner[f].Held?) <==> (f in kernel || IsTrapframe(tasks, f)))
    && (forall r :: r in tasks ==> tasks[r].tf !in kernel)
    && (forall r, q :: r in tasks && q in tasks && r != q ==> tasks[r].tf != tasks[q].tf)
  }

  ghost predicate Spaces(m: Mem, tasks: map<nat, Task>) {
    forall r :: r in tasks ==> Space(m, r, Up(tasks[r].size))
  }

  ghost predicate Inv(s: State, kernel: set<nat>, owner: Owners) {
    !s.panicked && Owned(s.m, s.tasks.Keys, owner) && Spaces(s.m, s.tasks) && HeldOk(s.tasks, kernel, owner)
  }

  /** The process at `q` has its memory as it was, byte for byte. */
  ghost predicate SameSpace(m: Mem, m': Mem, q: nat) {
    && |m'.page| == |m.page|
    && (forall u :: 0 <= u < NV ==> P0(m', q, u) == P0(m, q, u))
    && (forall u :: 0 <= u < TRAPFRAME && P0(m, q, u) != 0 && Frame(P0(m, q, u)) < |m.page| ==>
          m'.page[Frame(P0(m, q, u))] == m.page[Frame(P0(m, q, u))])
  }

  /** All processes but the one at `r` are as they were. */
  ghost predicate Isolated(s: State, s': State, r: nat) {
    forall q :: q in s.tasks && q != r ==> q in s'.tasks && s'.tasks[q] == s.tasks[q] && SameSpace(s.m, s'.m, q)
  }

  // ---- who holds what

  ghost predicate HeldSame(owner: Owners, owner': Owners) {
    forall f :: (f in owner && owner[f].Held?) <==> (f in owner' && owner'[f].Held?)
  }

  lemma HeldKept(tasks: map<nat, Task>, kernel: set<nat>, owner: Owners, owner': Owners)
    requires HeldOk(tasks, kernel, owner) && HeldSame(owner, owner')
    ensures HeldOk(tasks, kernel, owner')
  {
    hide IsTrapframe;
  }

  lemma SameTrapframes(tasks: map<nat, Task>, r: nat, t: Task, f: nat)
    requires r in tasks && t.tf == tasks[r].tf
    ensures IsTrapframe(tasks[r := t], f) <==> IsTrapframe(tasks, f)
  {
    if IsTrapframe(tasks, f) {
      var q :| q in tasks && tasks[q].tf == f;
      assert tasks[r := t][q].tf == f;
    }
    if IsTrapframe(tasks[r := t], f) {
      var q :| q in tasks[r := t] && tasks[r := t][q].tf == f;
      assert tasks[q].tf == f;
    }
  }

  /** A process changes its size. */
  lemma HeldResized(tasks: map<nat, Task>, kernel: set<nat>, owner: Owners, r: nat, t: Task)
    requires HeldOk(tasks, kernel, owner) && r in tasks && t.tf == tasks[r].tf
    ensures HeldOk(tasks[r := t], kernel, owner)
  {
    hide IsTrapframe;
    forall f
      ensures (f in owner && owner[f].Held?) <==> (f in kernel || IsTrapframe(tasks[r := t], f))
    {
      SameTrapframes(tasks, r, t, f);
    }
  }

  /** A new process with a frame that nobody had. */
  lemma HeldNew(tasks: map<nat, Task>, kernel: set<nat>, owner: Owners, owner': Owners, c: nat, t: Task)
    requires HeldOk(tasks, kernel, owner) && c !in tasks && t.tf !in owner && HeldSame(owner[t.tf := Held], owner')
    ensures HeldOk(tasks[c := t], kernel, owner')
  {
    forall f
      ensures (f in owner' && owner'[f].Held?) <==> (f in kernel || IsTrapframe(tasks[c := t], f))
    {
      if f == t.tf {
        assert tasks[c := t][c].tf == f;
      } else {
        MoreTrapframes(tasks, c, t, f);
      }
    }
    forall r | r in tasks
      ensures tasks[r].tf != t.tf
    {
      assert IsTrapframe(tasks, tasks[r].tf);
    }
  }

  lemma MoreTrapframes(tasks: map<nat, Task>, c: nat, t: Task, f: nat)
    requires c !in tasks && f != t.tf
    ensures IsTrapframe(tasks[c := t], f) <==> IsTrapframe(tasks, f)
  {
    if IsTrapframe(tasks, f) {
      var q :| q in tasks && tasks[q].tf == f;
      assert tasks[c := t][q].tf == f;
    }
  }

  /** A process goes, and its trapframe with it. */
  lemma HeldGone(tasks: map<nat, Task>, kernel: set<nat>, owner: Owners, owner': Owners, r: nat)
    requires HeldOk(tasks, kernel, owner) && r in tasks && HeldSame(owner - {tasks[r].tf}, owner')
    ensures HeldOk(tasks - {r}, kernel, owner')
  {
    forall f
      ensures (f in owner' && owner'[f].Held?) <==> (f in kernel || IsTrapframe(tasks - {r}, f))
    {
      if f != tasks[r].tf && IsTrapframe(tasks, f) {
        var q :| q in tasks && tasks[q].tf == f;
        assert (tasks - {r})[q].tf == f;
      }
    }
  }

  /** A process gets a new root. */
  lemma HeldMoved(tasks: map<nat, Task>, kernel: set<nat>, owner: Owners, owner': Owners, r: nat, root: nat, t: Task)
    requires HeldOk(tasks, kernel, owner) && r in tasks && root !in tasks && t.tf == tasks[r].tf
    requires HeldSame(owner, owner')
    ensures HeldOk((tasks - {r})[root := t], kernel, owner')
  {
    var tasks' := (tasks - {r})[root := t];
    forall f
      ensures IsTrapframe(tasks', f) <==> IsTrapframe(tasks, f)
    {
      if IsTrapframe(tasks, f) {
        var q :| q in tasks && tasks[q].tf == f;
        assert tasks'[if q == r then root else q].tf == f;
      }
      if IsTrapframe(tasks', f) {
        var q :| q in tasks' && tasks'[q].tf == f;
        assert tasks[if q == root then r else q].tf == f;
      }
    }
  }

  // ---- steps

  /** The frames of process `q` are among those that hold what they held. */
  ghost predicate Keeps(owner: Owners, o1: Owners, q: nat) {
    forall g :: g in owner && owner[g].Part? && owner[g].root == q ==> g in o1 && o1[g] == owner[g]
  }

  lemma SpaceStays(m: Mem, m': Mem, roots: set<nat>, owner: Owners, o1: Owners, q: nat)
    requires Owned(m, roots, owner) && q in roots && SameData(m, m', o1) && Keeps(owner, o1, q)
    requires forall u :: 0 <= u < NV ==> P0(m', q, u) == P0(m, q, u)
    ensures SameSpace(m, m', q)
  {
    hide P0, Frame, Valid, Leafy, UserBit;
    forall u | 0 <= u < TRAPFRAME && P0(m, q, u) != 0 && Frame(P0(m, q, u)) < |m.page|
      ensures m'.page[Frame(P0(m, q, u))] == m.page[Frame(P0(m, q, u))]
    {
      assert Ent0(m, owner, q, u);
    }
  }

  lemma SpaceOf(m: Mem, m': Mem, q: nat, n: nat)
    requires SameSpace(m, m', q) && Space(m, q, n)
    ensures Space(m', q, n)
  {
    hide P0;
  }

  /** Every process but `r`, from the entries and the data that stay. */
  lemma OthersStay(m: Mem, m': Mem, tasks: map<nat, Task>, owner: Owners, o1: Owners, r: nat)
    requires Owned(m, tasks.Keys, owner) && SameData(m, m', o1)
    requires forall q :: q in tasks && q != r ==> Keeps(owner, o1, q)
    requires forall q, u :: q in tasks && q != r && 0 <= u < NV ==> P0(m', q, u) == P0(m, q, u)
    ensures forall q :: q in tasks && q != r ==> SameSpace(m, m', q)
  {
    hide P0, Owned, SameData, Keeps, SameSpace;
    forall q | q in tasks && q != r
      ensures SameSpace(m, m', q)
    {
      SpaceStays(m, m', tasks.Keys, owner, o1, q);
    }
  }

  lemma SpacesStay(m: Mem, m': Mem, tasks: map<nat, Task>, q: nat)
    requires Spaces(m, tasks) && q in tasks && SameSpace(m, m', q)
    ensures Space(m', q, Up(tasks[q].size))
  {
    hide P0, SameSpace, Space, Up;
    SpaceOf(m, m', q, Up(tasks[q].size));
  }

  /** Only tables were added, or nothing: all processes stay as they are. */
  lemma SteppedStays(s: State, m': Mem, kernel: set<nat>, owner: Owners, owner': Owners, r: nat)
    requires Inv(s, kernel, owner) && Stepped(s.m, m', s.tasks.Keys, owner, owner', r)
    ensures Inv(s.(m := m'), kernel, owner') && forall q :: q in s.tasks ==> SameSpace(s.m, m', q)
  {
    hide P0, Owned, SameSpace, HeldOk, Up, Space;
    HeldKept(s.tasks, kernel, owner, owner');
    forall q | q in s.tasks
      ensures SameSpace(s.m, m', q) && Space(m', q, Up(s.tasks[q].size))
    {
      SpaceStays(s.m, m', s.tasks.Keys, owner, owner, q);
      SpacesStay(s.m, m', s.tasks, q);
    }
  }

  /** Nothing has changed hands. */
  lemma RestoredStays(s: State, m': Mem, kernel: set<nat>, owner: Owners)
    requires Inv(s, kernel, owner) && X.Restored(s.m, m', s.tasks.Keys, owner)
    ensures Inv(s.(m := m'), kernel, owner) && forall q :: q in s.tasks ==> SameSpace(s.m, m', q)
  {
    hide P0, Owned, SameSpace, HeldOk, Up, Space;
    forall q | q in s.tasks
      ensures SameSpace(s.m, m', q) && Space(m', q, Up(s.tasks[q].size))
    {
      SpaceStays(s.m, m', s.tasks.Keys, owner, owner, q);
      SpacesStay(s.m, m', s.tasks, q);
    }
  }

  lemma InvFacts(s: State, kernel: set<nat>, owner: Owners, r: nat)
    requires Inv(s, kernel, owner) && r in s.tasks
    ensures Space(s.m, r, Up(s.tasks[r].size)) && Image(s.m, r, Up(s.tasks[r].size)) && InMemory(s, r)
    ensures Up(s.tasks[r].size) <= TRAPFRAME && s.tasks[r].tf in owner && owner[s.tasks[r].tf].Held?
    ensures s.tasks[r].tf < |s.m.page|
  {
    hide P0, Up;
    RootBound(s.m, s.tasks.Keys, owner, r);
    assert IsTrapframe(s.tasks, s.tasks[r].tf);
  }

  lemma InvOf(s: State, kernel: set<nat>, owner: Owners)
    requires !s.panicked && Owned(s.m, s.tasks.Keys, owner) && HeldOk(s.tasks, kernel, owner)
    requires forall q :: q in s.tasks ==> Space(s.m, q, Up(s.tasks[q].size))
    ensures Inv(s, kernel, owner)
  {
  }

  lemma GrowKeeps(s: State, kernel: set<nat>, owner: Owners, r: nat, newsz: nat, xperm: nat) returns (owner': Owners)
    requires Inv(s, kernel, owner) && Enabled(s, Grow(r, newsz, xperm)) && InMemory(s, r)
    ensures Inv(Grown(s, r, newsz, xperm), kernel, owner') && Isolated(s, Grown(s, r, newsz, xperm), r)
  {
    hide P0, Owned, Inv, Image, Grew, Stepped, Up, Uvmalloc, SameSpace, Space;
    InvFacts(s, kernel, owner, r);
    assert Owned(s.m, s.tasks.Keys, owner) by { InvOwned(s, kernel, owner); }
    owner' := UvmallocWorks(s.m, s.tasks.Keys, owner, r, s.tasks[r].size, newsz, xperm);
    var x := Uvmalloc(s.m, r, s.tasks[r].size, newsz, xperm).0;
    if x.Got? {
      GrewKeeps(s, x.m, kernel, owner, owner', r, newsz, xperm);
    } else {
      SteppedStays(s, x.m, kernel, owner, owner', r);
    }
  }

  lemma InvOwned(s: State, kernel: set<nat>, owner: Owners)
    requires Inv(s, kernel, owner)
    ensures Owned(s.m, s.tasks.Keys, owner) && Spaces(s.m, s.tasks) && HeldOk(s.tasks, kernel, owner) && !s.panicked
  {
  }

  lemma GrewKeeps(s: State, m': Mem, kernel: set<nat>, owner: Owners, owner': Owners, r: nat, newsz: nat, xperm: nat)
    requires Inv(s, kernel, owner) && r in s.tasks && Image(m', r, Up(newsz))
    requires Grew(s.m, m', s.tasks.Keys, owner, owner', r, Up(s.tasks[r].size), Up(newsz), 18 + xperm)
    ensures var s' := s.(m := m', tasks := s.tasks[r := s.tasks[r].(size := newsz)]);
      Inv(s', kernel, owner') && Isolated(s, s', r)
  {
    hide P0, Owned, SameSpace, HeldOk, Up, NewPage;
    var s' := s.(m := m', tasks := s.tasks[r := s.tasks[r].(size := newsz)]);
    OthersStay(s.m, m', s.tasks, owner, owner, r);
    HeldKept(s.tasks, kernel, owner, owner');
    HeldResized(s.tasks, kernel, owner', r, s'.tasks[r]);
    assert s'.tasks.Keys == s.tasks.Keys;
    forall q | q in s'.tasks
      ensures Space(m', q, Up(s'.tasks[q].size))
    {
      if q != r {
        SpacesStay(s.m, m', s.tasks, q);
      }
    }
    InvOf(s', kernel, owner');
  }

  lemma ShrinkKeeps(s: State, kernel: set<nat>, owner: Owners, r: nat, newsz: nat) returns (owner': Owners)
    requires Inv(s, kernel, owner) && Enabled(s, Shrink(r, newsz)) && InMemory(s, r)
    ensures Inv(Shrunk(s, r, newsz), kernel, owner') && Isolated(s, Shrunk(s, r, newsz), r)
  {
    hide P0, Owned, Inv, Image, Drops, Up, Uvmdealloc, SameSpace, Space;
    InvFacts(s, kernel, owner, r);
    InvOwned(s, kernel, owner);
    UvmdeallocWorks(s.m, s.tasks.Keys, owner, r, s.tasks[r].size, newsz);
    owner' := Shed(owner, r, Up(newsz), Up(s.tasks[r].size) - Up(newsz));
    DropsKeep(s, Uvmdealloc(s.m, r, s.tasks[r].size, newsz).0.m, kernel, owner, r, newsz);
  }

  lemma DropsKeep(s: State, m': Mem, kernel: set<nat>, owner: Owners, r: nat, newsz: nat)
    requires Inv(s, kernel, owner) && r in s.tasks && Image(m', r, Up(newsz))
    requires Up(newsz) <= Up(s.tasks[r].size) <= TRAPFRAME
    requires Drops(s.m, m', s.tasks.Keys, owner, r, Up(newsz), Up(s.tasks[r].size) - Up(newsz))
    ensures var s' := s.(m := m', tasks := s.tasks[r := s.tasks[r].(size := newsz)]);
      Inv(s', kernel, Shed(owner, r, Up(newsz), Up(s.tasks[r].size) - Up(newsz))) && Isolated(s, s', r)
  {
    hide P0, Owned, SameSpace, HeldOk, Up;
    var s' := s.(m := m', tasks := s.tasks[r := s.tasks[r].(size := newsz)]);
    var owner' := Shed(owner, r, Up(newsz), Up(s.tasks[r].size) - Up(newsz));
    OthersStay(s.m, m', s.tasks, owner, owner', r);
    HeldKept(s.tasks, kernel, owner, owner');
    HeldResized(s.tasks, kernel, owner', r, s'.tasks[r]);
    assert s'.tasks.Keys == s.tasks.Keys;
    forall q | q in s'.tasks
      ensures Space(m', q, Up(s'.tasks[q].size))
    {
      if q != r {
        SpacesStay(s.m, m', s.tasks, q);
      }
    }
    InvOf(s', kernel, owner');
  }

  lemma StoreKeeps(s: State, kernel: set<nat>, owner: Owners, r: nat, va: nat, src: seq<Byte>)
    requires Inv(s, kernel, owner) && InMemory(s, r)
    ensures var s' := s.(m := B.Copyout(s.m, r, va, src, 0).m); Inv(s', kernel, owner) && Isolated(s, s', r)
  {
    hide P0, P1, P2, Owned, Inv, B.Copyout, Up, SameSpace, Space;
    InvOwned(s, kernel, owner);
    var done := B.CopyoutWrites(s.m, s.tasks.Keys, owner, r, va, src, 0);
    WroteKeeps(s, B.Copyout(s.m, r, va, src, 0).m, kernel, owner, r, va, src, done);
  }

  lemma WroteKeeps(s: State, m': Mem, kernel: set<nat>, owner: Owners, r: nat, va: nat, src: seq<Byte>, done: nat)
    requires Inv(s, kernel, owner) && r in s.tasks && Owned(m', s.tasks.Keys, owner)
    requires B.WroteUser(s.m, m', s.tasks.Keys, r, va, src, 0, done) && B.SpareOthers(s.m, m', owner, r)
    ensures Inv(s.(m := m'), kernel, owner) && Isolated(s, s.(m := m'), r)
  {
    hide P0, P1, P2, Owned, Up, SameSpace, HeldOk, B.Readable, B.UserByte;
    var o1 := Others(owner, r);
    assert SameData(s.m, m', o1);
    OthersStay(s.m, m', s.tasks, owner, o1, r);
    forall q | q in s.tasks
      ensures Space(m', q, Up(s.tasks[q].size))
    {
      FlatSpace(s.m, m', s.tasks.Keys, q, Up(s.tasks[q].size));
    }
    InvOf(s.(m := m'), kernel, owner);
  }

  lemma FlatSpace(m: Mem, m': Mem, roots: set<nat>, q: nat, n: nat)
    requires SameTables(m, m', roots) && q in roots && Space(m, q, n)
    ensures Space(m', q, n)
  {
    hide P0, P1, P2;
  }

  lemma ForkKeeps(s: State, kernel: set<nat>, owner: Owners, tramp: nat, r: nat) returns (owner': Owners)
    requires Inv(s, kernel, owner) && InMemory(s, r) && tramp < |s.m.page|
    ensures var s' := Split(s, tramp, r);
      Inv(s', kernel, owner') && forall q :: q in s.tasks ==>
        q in s'.tasks && s'.tasks[q] == s.tasks[q] && SameSpace(s.m, s'.m, q)
  {
    hide P0, Owned, Inv, Image, Up, VmFork.Fork, SameSpace, Space, Child, SameFlat, SameData;
    InvFacts(s, kernel, owner, r);
    InvOwned(s, kernel, owner);
    owner' := ForkWorks(s.m, s.tasks.Keys, owner, r, Up(s.tasks[r].size), tramp);
    var x := VmFork.Fork(s.m, r, Up(s.tasks[r].size), tramp);
    if x.Forked? {
      ChildKeeps(s, x.m, kernel, owner, owner', r, x.child, x.tf);
    } else {
      owner' := owner;
      RestoredStays(s, x.m, kernel, owner);
    }
  }

  lemma ChildKeeps(s: State, m': Mem, kernel: set<nat>, owner: Owners, owner': Owners, r: nat, c: nat, tf: nat)
    requires Inv(s, kernel, owner) && r in s.tasks
    requires Child(s.m, m', s.tasks.Keys, owner, owner', r, Up(s.tasks[r].size), c, tf)
    ensures var s' := s.(m := m', tasks := s.tasks[c := Task(s.tasks[r].size, tf)]);
      Inv(s', kernel, owner') && forall q :: q in s.tasks ==>
        q in s'.tasks && s'.tasks[q] == s.tasks[q] && SameSpace(s.m, m', q)
  {
    hide P0, Owned, SameSpace, HeldOk, Up, PageCopied, Space;
    var s' := s.(m := m', tasks := s.tasks[c := Task(s.tasks[r].size, tf)]);
    assert s'.tasks.Keys == s.tasks.Keys + {c};
    assert HeldSame(owner[tf := Held], owner') by {
      assert forall f :: f in owner' && owner'[f].Held? ==> f in Others(owner', c);
      assert forall f :: f in owner[tf := Held] ==> f in Others(owner', c);
    }
    HeldNew(s.tasks, kernel, owner, owner', c, s'.tasks[c]);
    forall q | q in s.tasks
      ensures SameSpace(s.m, m', q) && Space(m', q, Up(s.tasks[q].size))
    {
      SpaceStays(s.m, m', s.tasks.Keys, owner, owner, q);
      SpacesStay(s.m, m', s.tasks, q);
    }
    InvOf(s', kernel, owner');
  }

  lemma ExecKeeps(s: State, kernel: set<nat>, owner: Owners, tramp: nat, e: Event) returns (owner': Owners)
    requires Inv(s, kernel, owner) && e.Exec? && InMemory(s, e.r) && Enabled(s, e) && tramp < |s.m.page|
    ensures var s' := Replaced(s, tramp, e.r, e.segs, e.args, e.stack); Inv(s', kernel, owner') && Isolated(s, s', e.r)
  {
    hide P0, Owned, Inv, Image, Up, X.Exec, SameSpace, Space, X.Took, X.Restored;
    var r := e.r;
    InvFacts(s, kernel, owner, r);
    InvOwned(s, kernel, owner);
    owner' := X.ExecWorks(s.m, s.tasks.Keys, owner, r, Up(s.tasks[r].size), tramp, s.tasks[r].tf, e.segs, e.args,
                          e.stack);
    var x := X.Exec(s.m, r, Up(s.tasks[r].size), tramp, s.tasks[r].tf, e.segs, e.args, e.stack);
    if x.Replaced? {
      TookKeeps(s, x.m, kernel, owner, owner', r, x.root, x.size);
    } else {
      owner' := owner;
      RestoredStays(s, x.m, kernel, owner);
    }
  }

  lemma TookKeeps(s: State, m': Mem, kernel: set<nat>, owner: Owners, owner': Owners, r: nat, root: nat, size: nat)
    requires Inv(s, kernel, owner) && r in s.tasks && X.Took(s.m, m', s.tasks.Keys, owner, owner', r, root, Up(size))
    ensures var s' := s.(m := m', tasks := (s.tasks - {r})[root := Task(size, s.tasks[r].tf)]);
      Inv(s', kernel, owner') && Isolated(s, s', r)
  {
    hide P0, Owned, SameSpace, HeldOk, Up, Space;
    var s' := s.(m := m', tasks := (s.tasks - {r})[root := Task(size, s.tasks[r].tf)]);
    assert s'.tasks.Keys == s.tasks.Keys - {r} + {root};
    assert HeldSame(owner, owner') by {
      assert forall f :: f in owner' && owner'[f].Held? ==> f in Others(owner', root);
      assert forall f :: f in owner && owner[f].Held? ==> f in Others(owner, r);
    }
    HeldMoved(s.tasks, kernel, owner, owner', r, root, s'.tasks[root]);
    OthersStay(s.m, m', s.tasks, owner, Others(owner, r), r);
    forall q | q in s'.tasks
      ensures Space(m', q, Up(s'.tasks[q].size))
    {
      if q != root {
        SpacesStay(s.m, m', s.tasks, q);
      }
    }
    InvOf(s', kernel, owner');
  }

  lemma FreeKeeps(s: State, kernel: set<nat>, owner: Owners, r: nat) returns (owner': Owners)
    requires Inv(s, kernel, owner) && InMemory(s, r)
    ensures var s' := Dropped(s, r); Inv(s', kernel, owner') && Isolated(s, s', r)
  {
    hide P0, P1, P2, Owned, Inv, Image, Up, FreePagetable, SameSpace, Space, Gone, HeldOk, SameTables, Freed;
    InvFacts(s, kernel, owner, r);
    InvOwned(s, kernel, owner);
    var tf := s.tasks[r].tf;
    FreedOwned(s.m, s.tasks.Keys, owner, tf);
    var m1 := Freed(s.m, tf);
    FlatSpace(s.m, m1, s.tasks.Keys, r, Up(s.tasks[r].size));
    FreePagetableWorks(m1, s.tasks.Keys, owner - {tf}, r, Up(s.tasks[r].size));
    owner' := Others(owner - {tf}, r);
    FreedData(s.m, owner, tf);
    GoneKeeps(s, m1, FreePagetable(m1, r, Up(s.tasks[r].size)).m, kernel, owner, r);
  }

  lemma GoneKeeps(s: State, m1: Mem, m': Mem, kernel: set<nat>, owner: Owners, r: nat)
    requires Inv(s, kernel, owner) && r in s.tasks && SameTables(s.m, m1, s.tasks.Keys)
    requires SameData(s.m, m1, owner - {s.tasks[r].tf}) && Gone(m1, m', s.tasks.Keys, owner - {s.tasks[r].tf}, r)
    requires s.tasks[r].tf in owner && owner[s.tasks[r].tf].Held?
    ensures var s' := s.(m := m', tasks := s.tasks - {r});
      Inv(s', kernel, Others(owner - {s.tasks[r].tf}, r)) && Isolated(s, s', r)
  {
    hide P0, P1, P2, Owned, SameSpace, HeldOk, Up, Space;
    var s' := s.(m := m', tasks := s.tasks - {r});
    var o1 := Others(owner - {s.tasks[r].tf}, r);
    assert s'.tasks.Keys == s.tasks.Keys - {r};
    HeldGone(s.tasks, kernel, owner, o1, r);
    assert SameData(s.m, m', o1);
    OthersStay(s.m, m', s.tasks, owner, o1, r);
    forall q | q in s'.tasks
      ensures Space(m', q, Up(s'.tasks[q].size))
    {
      SpacesStay(s.m, m', s.tasks, q);
    }
    InvOf(s', kernel, o1);
  }

  lemma CreateKeeps(s: State, kernel: set<nat>, owner: Owners, tramp: nat) returns (owner': Owners)
    requires Inv(s, kernel, owner) && tramp < |s.m.page|
    ensures var s' := Created(s, tramp);
      Inv(s', kernel, owner') && forall q :: q in s.tasks ==>
        q in s'.tasks && s'.tasks[q] == s.tasks[q] && SameSpace(s.m, s'.m, q)
  {
    hide P0, P1, P2, Owned, Inv, Up, ProcPagetable, SameSpace, Space, Beside, SameTables, Taken, Freed, SameFlat,
      SameData;
    InvOwned(s, kernel, owner);
    owner' := owner;
    SelfRestored(s, kernel, owner);
    RestoredStays(s, s.m, kernel, owner);
    if s.m.free != [] && s.m.free[0] < |s.m.page| {
      var tf := s.m.free[0];
      TakenOwned(s.m, s.tasks.Keys, owner);
      TakenData(s.m, owner);
      FlatOf(s.m, Taken(s.m), s.tasks.Keys);
      var m1, o1 := Taken(s.m), owner[tf := Held];
      var o2 := ProcPagetableWorks(m1, s.tasks.Keys, o1, tramp, tf);
      var x := ProcPagetable(m1, tramp, tf);
      if x.Made? {
        owner' := o2;
        MadeKeeps(s, m1, x.m, kernel, owner, o2, x.root, tf);
      } else {
        NotMadeKeeps(s, m1, x.m, kernel, owner, tf);
      }
    }
  }

  lemma SelfRestored(s: State, kernel: set<nat>, owner: Owners)
    requires Inv(s, kernel, owner)
    ensures X.Restored(s.m, s.m, s.tasks.Keys, owner)
  {
    hide P0, Owned;
  }

  lemma MadeKeeps(s: State, m1: Mem, m': Mem, kernel: set<nat>, owner: Owners, owner': Owners, c: nat, tf: nat)
    requires Inv(s, kernel, owner) && SameFlat(s.m, m1, s.tasks.Keys) && SameData(s.m, m1, owner) && tf !in owner
    requires Beside(m1, m', s.tasks.Keys, owner[tf := Held], owner', c) && Space(m', c, 0)
    ensures var s' := s.(m := m', tasks := s.tasks[c := Task(0, tf)]);
      Inv(s', kernel, owner') && forall q :: q in s.tasks ==>
        q in s'.tasks && s'.tasks[q] == s.tasks[q] && SameSpace(s.m, m', q)
  {
    hide P0, Owned, SameSpace, HeldOk, Space;
    var s' := s.(m := m', tasks := s.tasks[c := Task(0, tf)]);
    assert s'.tasks.Keys == s.tasks.Keys + {c};
    assert HeldSame(owner[tf := Held], owner') by {
      assert forall f :: f in owner' && owner'[f].Held? ==> f in Others(owner', c);
      assert forall f :: f in owner[tf := Held] ==> f in Others(owner', c);
    }
    HeldNew(s.tasks, kernel, owner, owner', c, s'.tasks[c]);
    assert SameData(s.m, m', owner);
    forall q | q in s.tasks
      ensures SameSpace(s.m, m', q) && Space(m', q, Up(s.tasks[q].size))
    {
      SpaceStays(s.m, m', s.tasks.Keys, owner, owner, q);
      SpacesStay(s.m, m', s.tasks, q);
    }
    assert Up(0) == 0;
    InvOf(s', kernel, owner');
  }

  lemma NotMadeKeeps(s: State, m1: Mem, m2: Mem, kernel: set<nat>, owner: Owners, tf: nat)
    requires Inv(s, kernel, owner) && SameFlat(s.m, m1, s.tasks.Keys) && SameData(s.m, m1, owner) && tf !in owner
    requires Owned(m2, s.tasks.Keys, owner[tf := Held]) && SameFlat(m1, m2, s.tasks.Keys)
    requires SameData(m1, m2, owner[tf := Held])
    ensures tf < |m2.page|
    ensures var s' := s.(m := Freed(m2, tf));
      Inv(s', kernel, owner) && forall q :: q in s.tasks ==> SameSpace(s.m, s'.m, q)
  {
    hide P0, P1, P2, Owned, SameSpace, HeldOk, Space, SameFlat, SameData, SameTables, Freed, Inv;
    TfFree(m1, m2, s.tasks.Keys, owner, tf);
    FlatOf(m2, Freed(m2, tf), s.tasks.Keys);
    DataLess(m1, m2, owner, tf);
    DataTwice(s.m, m1, m2, owner);
    DataTwice(s.m, m2, Freed(m2, tf), owner);
    SameFlatTwice(s.m, m1, m2, s.tasks.Keys);
    SameFlatTwice(s.m, m2, Freed(m2, tf), s.tasks.Keys);
    RestoredStays(s, Freed(m2, tf), kernel, owner);
  }

  lemma TrampolineIn(s: State, kernel: set<nat>, owner: Owners, tramp: nat)
    requires Inv(s, kernel, owner) && tramp in kernel
    ensures tramp < |s.m.page|
  {
    hide P0, P1, P2, Ent0, Ent1, Ent2;
    assert tramp in owner;
  }

  /** Every step keeps the invariant and leaves the memory of all processes alone but that
      of the one it is about; fork leaves the parent's alone too. */
  lemma NextKeeps(s: State, s': State, kernel: set<nat>, owner: Owners, tramp: nat, e: Event) returns (owner': Owners)
    requires Inv(s, kernel, owner) && tramp in kernel && Next(s, s', tramp, e)
    ensures Inv(s', kernel, owner')
    ensures forall q :: q in s.tasks && (e.Create? || e.Fork? || q != e.r) ==>
              q in s'.tasks && s'.tasks[q] == s.tasks[q] && SameSpace(s.m, s'.m, q)
  {
    hide Inv, SameSpace, Created, Grown, Shrunk, Split, Replaced, Dropped, B.Copyout, InMemory;
    TrampolineIn(s, kernel, owner, tramp);
    match e
    case Create => owner' := CreateKeeps(s, kernel, owner, tramp);
    case Grow(r, newsz, xperm) => owner' := GrowKeeps(s, kernel, owner, r, newsz, xperm);
    case Shrink(r, newsz) => owner' := ShrinkKeeps(s, kernel, owner, r, newsz);
    case Fork(r) => owner' := ForkKeeps(s, kernel, owner, tramp, r);
    case Exec(_, _, _, _) => owner' := ExecKeeps(s, kernel, owner, tramp, e);
    case Store(r, va, src) =>
      StoreKeeps(s, kernel, owner, r, va, src);
      owner' := owner;
    case Free(r) => owner' := FreeKeeps(s, kernel, owner, r);
  }

  // ---- runs

  ghost function Kept(kernel: set<nat>): Owners {
    map f | f in kernel :: Held
  }

  /** What kinit leaves: no process, and every frame outside the kernel once on the free
      list. */
  ghost predicate Boot(s: State, kernel: set<nat>) {
    && s.tasks == map[] && !s.panicked && |s.m.page| <= 0x100_0000
    && FreeOk(s.m.free, Kept(kernel), |s.m.page|)
  }

  lemma BootInv(s: State, kernel: set<nat>)
    requires Boot(s, kernel)
    ensures Inv(s, kernel, Kept(kernel))
  {
    hide P0, P1, P2, FreeOk;
    assert Owned(s.m, {}, Kept(kernel));
    assert s.tasks.Keys == {};
    assert forall f :: !IsTrapframe(s.tasks, f);
  }

  ghost predicate Run(ss: seq<State>, es: seq<Event>, kernel: set<nat>, tramp: nat) {
    && |ss| == |es| + 1 && Boot(ss[0], kernel) && tramp in kernel
    && forall k :: 0 <= k < |es| ==> Next(ss[k], ss[k + 1], tramp, es[k])
  }

  lemma {:induction false} RunInv(ss: seq<State>, es: seq<Event>, kernel: set<nat>, tramp: nat, k: nat)
    returns (owner: Owners)
    requires Run(ss, es, kernel, tramp) && k < |ss|
    ensures Inv(ss[k], kernel, owner)
    decreases k
  {
    hide Inv, Next, Boot;
    if k == 0 {
      BootInv(ss[0], kernel);
      owner := Kept(kernel);
    } else {
      owner := RunInv(ss, es, kernel, tramp, k - 1);
      assert Next(ss[k - 1], ss[k - 1 + 1], tramp, es[k - 1]);
      owner := NextKeeps(ss[k - 1], ss[k], kernel, owner, tramp, es[k - 1]);
    }
  }

  /** In every run no panic of the memory code is reached, every process has exactly the
      pages of its size and the two top ones, and every frame is on the free list once or
      held by the kernel, a trapframe, or part of exactly one process. */
  lemma MemoryInvariant(ss: seq<State>, es: seq<Event>, kernel: set<nat>, tramp: nat, k: nat) returns (owner: Owners)
    requires Run(ss, es, kernel, tramp) && k < |ss|
    ensures !ss[k].panicked && Owned(ss[k].m, ss[k].tasks.Keys, owner)
    ensures forall r :: r in ss[k].tasks ==> Space(ss[k].m, r, Up(ss[k].tasks[r].size))
    ensures forall f :: (f in owner && owner[f].Held?) <==> (f in kernel || IsTrapframe(ss[k].tasks, f))
  {
    hide P0, Owned, Space, Up, IsTrapframe;
    owner := RunInv(ss, es, kernel, tramp, k);
  }

  /** Conservation.  Whenever no process is left, whatever has happened and failed before,
      the free list holds every frame outside the kernel, each once. */
  lemma AllFramesReturn(ss: seq<State>, es: seq<Event>, kernel: set<nat>, tramp: nat, k: nat)
    requires Run(ss, es, kernel, tramp) && k < |ss| && ss[k].tasks == map[]
    ensures forall f :: 0 <= f < |ss[k].m.page| ==> (f in ss[k].m.free <==> f !in kernel)
    ensures forall a, b :: 0 <= a < b < |ss[k].m.free| ==> ss[k].m.free[a] != ss[k].m.free[b]
  {
    hide P0, P1, P2, Ent0, Ent1, Ent2, Run;
    var owner := RunInv(ss, es, kernel, tramp, k);
    var s := ss[k];
    assert forall f :: f in owner ==> owner[f].Held?;
    assert forall f :: !IsTrapframe(s.tasks, f);
    assert forall f :: f in owner <==> f in kernel;
  }

  /** Isolation.  No step changes a mapping or a byte of a process that it is not about. */
  lemma Isolation(ss: seq<State>, es: seq<Event>, kernel: set<nat>, tramp: nat, k: nat, q: nat)
    requires Run(ss, es, kernel, tramp) && k < |es| && q in ss[k].tasks
    requires es[k].Create? || es[k].Fork? || q != es[k].r
    ensures q in ss[k + 1].tasks && ss[k + 1].tasks[q] == ss[k].tasks[q] && SameSpace(ss[k].m, ss[k + 1].m, q)
  {
    hide Inv, Next, Boot, SameSpace;
    var owner := RunInv(ss, es, kernel, tramp, k);
    var o' := NextKeeps(ss[k], ss[k + 1], kernel, owner, tramp, es[k]);
  }
}
