/** Address spaces of processes (kernel/proc.c, proc_pagetable to freeproc, and fork's use
    of memory): a failed fork gives back every frame it took. */
module VmFork {
  import opened Bytes
  import opened PageTable
  import opened PageOwner
  import opened VmSpec
  import opened VmMap
  import opened VmFree
  import opened VmUser
  import opened VmCopy

  // ---- trampoline and trapframe

  /** PTE_R | PTE_X and PTE_R | PTE_W. */
  const RX := 10
  const RW := 6

  lemma NoUser(f: nat, perm: nat)
    requires perm == RX || perm == RW
    ensures PermOk(perm) && !UserBit(PteOf(f, perm))
  {
    Divide(PteOf(f, perm), 64 * f, perm + 1, 16);
    Divide(64 * f, 32 * f, 0, 2);
  }

  /** One of the top pages got an entry, or lost it; only tables may have been added. */
  ghost predicate TopSet(m: Mem, m': Mem, roots: set<nat>, owner: Owners, owner': Owners, r: nat, v: nat, pte: nat) {
    && v < NV && Owned(m', roots, owner') && SameData(m, m', owner) && MoreTables(owner, owner', r)
    && forall s, u :: s in roots && 0 <= u < NV ==> P0(m', s, u) == if s == r && u == v then pte else P0(m, s, u)
  }

  lemma TopSetIs(m: Mem, m1: Mem, m2: Mem, roots: set<nat>, owner: Owners, o1: Owners, r: nat, v: nat, pte: nat, t: nat)
    requires Stepped(m, m1, roots, owner, o1, r) && v < NV && LeafOnly(m1, m2, roots, r, v, pte) && Owned(m2, roots, o1)
    requires t < |m1.page| && m2 == SetPte(m1, t, v % 512, pte) && t in o1 && o1[t] == Part(r, Low(v / 512))
    ensures TopSet(m, m2, roots, owner, o1, r, v, pte)
  {
    hide P0, P1, P2, Owned, PutWord;
  }

  lemma MapTop(m: Mem, roots: set<nat>, owner: Owners, r: nat, v: nat, f: nat, perm: nat)
    returns (owner': Owners)
    requires Owned(m, roots, owner) && r in roots && TRAPFRAME <= v < MAXVPN && P0(m, r, v) == 0
    requires f < |m.page| && (perm == RX || perm == RW)
    ensures r < |m.page|
    ensures var x := MapOne(m, r, v, f, perm);
      && !x.Remap?
      && (x.Mapped? ==> TopSet(m, x.m, roots, owner, owner', r, v, PteOf(f, perm)))
      && (x.NoMemory? ==> Stepped(m, x.m, roots, owner, owner', r))
  {
    hide Owned, P0, P1, P2, Stepped, Walk, SetPte, PteOf, Frame, Valid, Leafy, UserBit;
    owner' := WalkFinds(m, roots, owner, r, v, true);
    var w := Walk(m, r, v, true);
    if w.Slot? {
      SteppedOwned(m, w.m, roots, owner, owner', r, v);
      SlotEntry(w.m, roots, owner', r, v);
      PointerTo(0);
      NoUser(f, perm);
      PteFacts(f, perm);
      MapTopOwned(w.m, roots, owner', r, v, PteOf(f, perm));
      TopSetIs(m, w.m, SetPte(w.m, w.t, v % 512, PteOf(f, perm)), roots, owner, owner', r, v, PteOf(f, perm), w.t);
    }
  }

  lemma UnmapTop(m: Mem, roots: set<nat>, owner: Owners, r: nat, v: nat)
    requires Owned(m, roots, owner) && r in roots && TRAPFRAME <= v < MAXVPN && P0(m, r, v) != 0
    ensures r < |m.page|
    ensures var x := UnmapOne(m, r, v, false); x.Done? && TopSet(m, x.m, roots, owner, owner, r, v, 0)
  {
    hide Owned, P0, P1, P2, Stepped, Walk, SetPte, Frame, Valid, Leafy, UserBit;
    var o := WalkFinds(m, roots, owner, r, v, false);
    MappedFacts(m, roots, owner, r, v);
    SlotEntry(m, roots, owner, r, v);
    LeafFlags(P0(m, r, v));
    MapTopOwned(m, roots, owner, r, v, 0);
    NoStep(m, roots, owner, r);
    TopSetIs(m, m, SetPte(m, Frame(P1(m, r, v / 512)), v % 512, 0), roots, owner, owner, r, v, 0,
             Frame(P1(m, r, v / 512)));
  }

  // ---- proc_freepagetable

  /** An address space with `n` user pages, trampoline and trapframe. */
  ghost predicate Space(m: Mem, r: nat, n: nat) {
    Image(m, r, n) && P0(m, r, TRAMPOLINE) != 0 && P0(m, r, TRAPFRAME) != 0
  }

  function FreePagetable(m: Mem, r: nat, n: nat): UnmapResult
    requires r < |m.page| && n <= MAXVPN
  {
    var x := UnmapOne(m, r, TRAMPOLINE, false);
    if x.Panic? then x
    else
      var y := UnmapOne(x.m, r, TRAPFRAME, false);
      if y.Panic? then y else Uvmfree(y.m, r, n)
  }

  lemma TopImage(m: Mem, m': Mem, roots: set<nat>, owner: Owners, owner': Owners, r: nat, v: nat, pte: nat)
    requires TopSet(m, m', roots, owner, owner', r, v, pte) && v >= TRAPFRAME && r in roots
    ensures Owned(m', roots, owner') && P0(m', r, v) == pte
    ensures forall n :: 0 <= n && Image(m, r, n) ==> Image(m', r, n)
    ensures forall u :: 0 <= u < NV && u != v ==> P0(m', r, u) == P0(m, r, u)
    ensures SameFlat(m, m', roots - {r})
  {
    hide P0, Owned;
    forall n | 0 <= n && Image(m, r, n) ensures Image(m', r, n) {
      forall u | 0 <= u < TRAPFRAME ensures P0(m', r, u) == P0(m, r, u) {
      }
    }
  }

  /** proc_freepagetable gives back the whole address space and touches no other. */
  lemma FreePagetableWorks(m: Mem, roots: set<nat>, owner: Owners, r: nat, n: nat)
    requires Owned(m, roots, owner) && r in roots && Space(m, r, n)
    ensures r < |m.page| && FreePagetable(m, r, n).Done? && Gone(m, FreePagetable(m, r, n).m, roots, owner, r)
  {
    hide Owned, P0, UnmapOne, Uvmfree, Gone, TopSet, SameFlat, SameData;
    UnmapTop(m, roots, owner, r, TRAMPOLINE);
    var m1 := UnmapOne(m, r, TRAMPOLINE, false).m;
    TopImage(m, m1, roots, owner, owner, r, TRAMPOLINE, 0);
    UnmapTop(m1, roots, owner, r, TRAPFRAME);
    var m2 := UnmapOne(m1, r, TRAPFRAME, false).m;
    TopImage(m1, m2, roots, owner, owner, r, TRAPFRAME, 0);
    UvmfreeWorks(m2, roots, owner, r, n);
    var m3 := Uvmfree(m2, r, n).m;
    SameFlatTwice(m, m1, m2, roots - {r});
    TopData(m, m1, m2, roots, owner, r);
    GoneSince(m, m2, m3, roots, owner, r);
  }

  lemma TopData(m: Mem, m1: Mem, m2: Mem, roots: set<nat>, owner: Owners, r: nat)
    requires TopSet(m, m1, roots, owner, owner, r, TRAMPOLINE, 0)
    requires TopSet(m1, m2, roots, owner, owner, r, TRAPFRAME, 0)
    ensures SameData(m, m2, Others(owner, r))
  {
    hide P0, Owned;
  }

  lemma GoneSince(m: Mem, m2: Mem, m3: Mem, roots: set<nat>, owner: Owners, r: nat)
    requires Gone(m2, m3, roots, owner, r) && SameFlat(m, m2, roots - {r}) && SameData(m, m2, Others(owner, r))
    ensures Gone(m, m3, roots, owner, r)
  {
    hide P0, Owned, Others;
  }

  // ---- proc_pagetable

  datatype Made = Made(m: Mem, root: nat) | NotMade(m: Mem) | MadePanic

  function FreeEmpty(m: Mem, r: nat): Made
    requires r < |m.page|
  {
    var x := FreeFrom(m, r, 2, 0);
    if x.Done? then NotMade(x.m) else MadePanic
  }

  /** proc_pagetable once the root is there. */
  function MapTops(m1: Mem, r: nat, tramp: nat, tf: nat): Made
    requires r < |m1.page|
  {
    var x := MapOne(m1, r, TRAMPOLINE, tramp, RX);
    match x
    case Remap => MadePanic
    case NoMemory(m2) => FreeEmpty(m2, r)
    case Mapped(m2) =>
      var y := MapOne(m2, r, TRAPFRAME, tf, RW);
      match y
      case Remap => MadePanic
      case Mapped(m3) => Made(m3, r)
      case NoMemory(m3) =>
        var z := UnmapOne(m3, r, TRAMPOLINE, false);
        if z.Panic? then MadePanic else FreeEmpty(z.m, r)
  }

  /** proc_pagetable with the frames of the trampoline code and of the trapframe. */
  function ProcPagetable(m: Mem, tramp: nat, tf: nat): Made {
    if m.free == [] || m.free[0] >= |m.page| then NotMade(m) else MapTops(Zeroed(m), m.free[0], tramp, tf)
  }

  /** A new address space `r` beside those of `roots`; nothing of theirs has changed. */
  ghost predicate Beside(m: Mem, m': Mem, roots: set<nat>, owner: Owners, owner': Owners, r: nat) {
    && r !in roots && Owned(m', roots + {r}, owner') && Others(owner', r) == owner
    && SameFlat(m, m', roots) && SameData(m, m', owner)
  }

  /** Once the new address space is gone, everything is as it was. */
  lemma BesideGone(m: Mem, m1: Mem, m2: Mem, roots: set<nat>, owner: Owners, o1: Owners, r: nat)
    requires Beside(m, m1, roots, owner, o1, r) && Gone(m1, m2, roots + {r}, o1, r)
    ensures Owned(m2, roots, owner) && SameFlat(m, m2, roots) && SameData(m, m2, owner)
  {
    hide P0, Owned, Others;
    assert roots + {r} - {r} == roots;
  }

  lemma BesideStep(m: Mem, m1: Mem, m2: Mem, roots: set<nat>, owner: Owners, o1: Owners, o2: Owners, r: nat)
    requires Beside(m, m1, roots, owner, o1, r) && Stepped(m1, m2, roots + {r}, o1, o2, r)
    ensures Beside(m, m2, roots, owner, o2, r)
  {
    hide P0, Owned;
  }

  lemma BesideTop(m: Mem, m1: Mem, m2: Mem, roots: set<nat>, owner: Owners, o1: Owners, o2: Owners, r: nat, v: nat,
                  pte: nat)
    requires Beside(m, m1, roots, owner, o1, r) && TopSet(m1, m2, roots + {r}, o1, o2, r, v, pte)
    ensures Beside(m, m2, roots, owner, o2, r)
  {
    hide P0, Owned;
  }

  /** uvmcreate. */
  lemma CreateWorks(m: Mem, roots: set<nat>, owner: Owners)
    requires Owned(m, roots, owner) && m.free != []
    ensures var r := m.free[0];
      && r < |m.page| && Beside(m, Zeroed(m), roots, owner, owner[r := Held][r := Part(r, Root)], r)
      && NoMaps(Zeroed(m), r)
  {
    hide P0, P1, P2, Owned, Filled, Zeroed, FreeOk;
    ZeroedOwned(m, roots, owner);
    var r, m1, o1 := m.free[0], Zeroed(m), owner[m.free[0] := Held];
    AddRoot(m1, roots, o1, r);
    NoHolder(m, roots, owner, r);
    var o2 := o1[r := Part(r, Root)];
    assert Others(o2, r) == owner;
  }

  /** A frame that is free is nobody's root. */
  lemma NoHolder(m: Mem, roots: set<nat>, owner: Owners, r: nat)
    requires Owned(m, roots, owner) && r !in owner
    ensures forall g :: g in owner && owner[g].Part? ==> owner[g].root != r
  {
    hide P0, P1, P2, FreeOk;
    forall g | g in owner && owner[g].Part? ensures owner[g].root != r {
      assert PartOk(m, roots, g, owner[g].root, owner[g].use);
    }
  }

  lemma EmptyImage(m: Mem, r: nat)
    requires NoMaps(m, r)
    ensures Image(m, r, 0) && P0(m, r, TRAMPOLINE) == 0 && P0(m, r, TRAPFRAME) == 0
  {
    hide P0;
  }

  /** freewalk on the new, empty address space puts everything back. */
  lemma FreeEmptyWorks(m: Mem, m1: Mem, roots: set<nat>, owner: Owners, o1: Owners, r: nat)
    requires Beside(m, m1, roots, owner, o1, r) && NoMaps(m1, r)
    ensures r < |m1.page| && FreeEmpty(m1, r).NotMade?
    ensures var m2 := FreeEmpty(m1, r).m; Owned(m2, roots, owner) && SameFlat(m, m2, roots) && SameData(m, m2, owner)
  {
    hide P0, P2, Owned, FreeFrom, Gone, Others;
    FreewalkFrees(m1, roots + {r}, o1, r, 0);
    BesideGone(m, m1, FreeFrom(m1, r, 2, 0).m, roots, owner, o1, r);
  }

  lemma StillNone(m: Mem, m': Mem, roots: set<nat>, owner: Owners, owner': Owners, r: nat)
    requires Stepped(m, m', roots, owner, owner', r) && NoMaps(m, r) && r in roots
    ensures NoMaps(m', r)
  {
    hide P0, Owned;
  }

  lemma TopOnly(m: Mem, m1: Mem, roots: set<nat>, owner: Owners, o1: Owners, r: nat, pte: nat)
    requires NoMaps(m, r) && r in roots && TopSet(m, m1, roots, owner, o1, r, TRAMPOLINE, pte)
    ensures P0(m1, r, TRAMPOLINE) == pte && forall u :: 0 <= u < NV && u != TRAMPOLINE ==> P0(m1, r, u) == 0
  {
    hide P0, Owned;
  }

  lemma TopCleared(m: Mem, m1: Mem, roots: set<nat>, owner: Owners, o1: Owners, r: nat)
    requires r in roots && TopSet(m, m1, roots, owner, o1, r, TRAMPOLINE, 0)
    requires forall u :: 0 <= u < NV && u != TRAMPOLINE ==> P0(m, r, u) == 0
    ensures NoMaps(m1, r)
  {
    hide P0, Owned;
  }

  lemma NewSpace(m1: Mem, m2: Mem, roots: set<nat>, o1: Owners, o2: Owners, r: nat, pte: nat)
    requires r in roots && TopSet(m1, m2, roots, o1, o2, r, TRAPFRAME, pte) && pte != 0 && P0(m1, r, TRAMPOLINE) != 0
    requires forall u :: 0 <= u < NV && u != TRAMPOLINE ==> P0(m1, r, u) == 0
    ensures Space(m2, r, 0)
  {
    hide P0, Owned;
  }

  /** proc_pagetable makes an address space without user pages, or fails and gives back
      every frame. */
  lemma ProcPagetableWorks(m: Mem, roots: set<nat>, owner: Owners, tramp: nat, tf: nat)
    returns (owner': Owners)
    requires Owned(m, roots, owner) && tramp < |m.page| && tf < |m.page|
    ensures var x := ProcPagetable(m, tramp, tf);
      && !x.MadePanic?
      && (x.Made? ==> Beside(m, x.m, roots, owner, owner', x.root) && Space(x.m, x.root, 0))
      && (x.NotMade? ==> Owned(x.m, roots, owner) && SameFlat(m, x.m, roots) && SameData(m, x.m, owner))
  {
    hide Owned, P0, MapTops, Zeroed, Beside, Stepped, TopSet, NoMaps, Space, SameFlat, SameData;
    owner' := owner;
    FreeIs(m, roots, owner);
    if m.free == [] {
      NoMore(m, roots, owner, 0);
    } else {
      var r := m.free[0];
      CreateWorks(m, roots, owner);
      var m1, o1 := Zeroed(m), owner[r := Held][r := Part(r, Root)];
      BesideOwned(m, m1, roots, owner, o1, r);
      EmptyImage(m1, r);
      owner' := SecondHalf(m, m1, roots, owner, o1, r, tramp, tf);
    }
  }

  lemma BesideOwned(m: Mem, m1: Mem, roots: set<nat>, owner: Owners, o1: Owners, r: nat)
    requires Beside(m, m1, roots, owner, o1, r)
    ensures Owned(m1, roots + {r}, o1) && |m1.page| == |m.page| && r !in roots
  {
  }

  lemma SecondHalf(m: Mem, m1: Mem, roots: set<nat>, owner: Owners, o1: Owners, r: nat, tramp: nat, tf: nat)
    returns (owner': Owners)
    requires Beside(m, m1, roots, owner, o1, r) && NoMaps(m1, r) && tramp < |m.page| && tf < |m.page| && r < |m1.page|
    ensures var x := MapTops(m1, r, tramp, tf);
      && !x.MadePanic?
      && (x.Made? ==> x.root == r && Beside(m, x.m, roots, owner, owner', r) && Space(x.m, r, 0))
      && (x.NotMade? ==> Owned(x.m, roots, owner) && SameFlat(m, x.m, roots) && SameData(m, x.m, owner))
  {
    hide Owned, P0, MapOne, UnmapOne, FreeEmpty, Beside, Stepped, TopSet, NoMaps, Space, SameFlat, SameData;
    var all := roots + {r};
    BesideOwned(m, m1, roots, owner, o1, r);
    EmptyImage(m1, r);
    var o2 := MapTop(m1, all, o1, r, TRAMPOLINE, tramp, RX);
    var x := MapOne(m1, r, TRAMPOLINE, tramp, RX);
    owner' := o2;
    if x.NoMemory? {
      BesideStep(m, m1, x.m, roots, owner, o1, o2, r);
      StillNone(m1, x.m, all, o1, o2, r);
      FreeEmptyWorks(m, x.m, roots, owner, o2, r);
    } else {
      var m2 := x.m;
      TopOnly(m1, m2, all, o1, o2, r, PteOf(tramp, RX));
      NoUser(tramp, RX);
      PteFacts(tramp, RX);
      BesideTop(m, m1, m2, roots, owner, o1, o2, r, TRAMPOLINE, PteOf(tramp, RX));
      BesideOwned(m, m2, roots, owner, o2, r);
      owner' := MapTop(m2, all, o2, r, TRAPFRAME, tf, RW);
      var y := MapOne(m2, r, TRAPFRAME, tf, RW);
      if y.Mapped? {
        BesideTop(m, m2, y.m, roots, owner, o2, owner', r, TRAPFRAME, PteOf(tf, RW));
        NoUser(tf, RW);
        PteFacts(tf, RW);
        NewSpace(m2, y.m, all, o2, owner', r, PteOf(tf, RW));
      } else {
        BackOutTop(m, m2, y.m, roots, owner, o2, owner', r);
      }
    }
  }

  lemma BackOutTop(m: Mem, m2: Mem, m3: Mem, roots: set<nat>, owner: Owners, o2: Owners, o3: Owners, r: nat)
    requires Beside(m, m2, roots, owner, o2, r) && Stepped(m2, m3, roots + {r}, o2, o3, r)
    requires P0(m2, r, TRAMPOLINE) != 0 && forall u :: 0 <= u < NV && u != TRAMPOLINE ==> P0(m2, r, u) == 0
    ensures r < |m3.page| && UnmapOne(m3, r, TRAMPOLINE, false).Done?
    ensures var m4 := UnmapOne(m3, r, TRAMPOLINE, false).m;
      FreeEmpty(m4, r).NotMade?
      && var m5 := FreeEmpty(m4, r).m; Owned(m5, roots, owner) && SameFlat(m, m5, roots) && SameData(m, m5, owner)
  {
    hide Owned, P0, UnmapOne, FreeEmpty, Beside, TopSet, NoMaps, SameData;
    BesideStep(m, m2, m3, roots, owner, o2, o3, r);
    BesideOwned(m, m3, roots, owner, o3, r);
    UnmapTop(m3, roots + {r}, o3, r, TRAMPOLINE);
    var m4 := UnmapOne(m3, r, TRAMPOLINE, false).m;
    TopCleared(m3, m4, roots + {r}, o3, o3, r);
    BesideTop(m, m3, m4, roots, owner, o3, o3, r, TRAMPOLINE, 0);
    FreeEmptyWorks(m, m4, roots, owner, o3, r);
  }

  // ---- fork

  datatype Forked = Forked(m: Mem, child: nat, tf: nat) | ForkFailed(m: Mem) | ForkPanic

  /** fork once the trapframe is there. */
  function AfterTrapframe(m0: Mem, parent: nat, n: nat, tramp: nat, tf: nat): Forked
    requires n <= MAXVPN
  {
    var x := ProcPagetable(m0, tramp, tf);
    match x
    case MadePanic => ForkPanic
    case NotMade(m1) => if tf < |m1.page| then ForkFailed(Freed(m1, tf)) else ForkPanic
    case Made(m1, c) =>
      if !(parent < |m1.page| && c < |m1.page|) then ForkPanic
      else
        var y := Uvmcopy(m1, parent, c, n);
        match y
        case Bad => ForkPanic
        case Got(m2) => Forked(m2, c, tf)
        case Failed(m2) =>
          if !(tf < |m2.page| && c < |m2.page|) then ForkPanic
          else
            var z := FreePagetable(Freed(m2, tf), c, 0);
            if z.Done? then ForkFailed(z.m) else ForkPanic
  }

  /** fork's use of memory: a trapframe, a page table, and a copy of the parent's `n`
      pages; freeproc on every failure. */
  function Fork(m: Mem, parent: nat, n: nat, tramp: nat): Forked
    requires n <= MAXVPN
  {
    if m.free == [] || m.free[0] >= |m.page| then ForkFailed(m)
    else AfterTrapframe(Taken(m), parent, n, tramp, m.free[0])
  }

  /** The child: its own address space, each page a copy of the parent's, and a trapframe
      page; all other address spaces are as they were. */
  ghost predicate Child(m: Mem, m': Mem, roots: set<nat>, owner: Owners, owner': Owners, parent: nat, n: nat, c: nat,
                        tf: nat) {
    && c !in roots && tf !in owner && Owned(m', roots + {c}, owner') && Others(owner', c) == owner[tf := Held]
    && SameFlat(m, m', roots) && SameData(m, m', owner) && Space(m', c, n)
    && n <= NV && forall u :: 0 <= u < n ==> PageCopied(m', parent, c, u)
  }

  lemma TfFree(m: Mem, m1: Mem, roots: set<nat>, owner: Owners, tf: nat)
    requires tf !in owner && Owned(m1, roots, owner[tf := Held])
    ensures tf < |m1.page| && Owned(Freed(m1, tf), roots, owner) && SameTables(m1, Freed(m1, tf), roots)
    ensures SameData(m1, Freed(m1, tf), owner)
  {
    hide P0, P1, P2, Owned, SameTables;
    FreedOwned(m1, roots, owner[tf := Held], tf);
    assert owner[tf := Held] - {tf} == owner;
  }

  lemma FlatOf(m: Mem, m': Mem, roots: set<nat>)
    requires SameTables(m, m', roots)
    ensures SameFlat(m, m', roots)
  {
    hide P0, P1, P2;
  }

  lemma DataTwice(m: Mem, m1: Mem, m2: Mem, owner: Owners)
    requires SameData(m, m1, owner) && SameData(m1, m2, owner)
    ensures SameData(m, m2, owner)
  {
  }

  lemma DataLess(m: Mem, m': Mem, owner: Owners, tf: nat)
    requires SameData(m, m', owner[tf := Held]) && tf !in owner
    ensures SameData(m, m', owner)
  {
  }

  /** The parent keeps its image while the child's is made. */
  lemma ParentImage(m: Mem, m': Mem, roots: set<nat>, parent: nat, n: nat)
    requires SameFlat(m, m', roots) && parent in roots && Image(m, parent, n)
    ensures Image(m', parent, n)
  {
    hide P0;
  }

  /** A failed fork returns every frame it took and leaves all address spaces as they
      were; a successful one makes an exact copy of the parent's pages. */
  lemma ForkWorks(m: Mem, roots: set<nat>, owner: Owners, parent: nat, n: nat, tramp: nat)
    returns (owner': Owners)
    requires Owned(m, roots, owner) && parent in roots && Image(m, parent, n) && tramp < |m.page|
    ensures parent < |m.page|
    ensures var x := Fork(m, parent, n, tramp);
      && !x.ForkPanic?
      && (x.ForkFailed? ==> Owned(x.m, roots, owner) && SameFlat(m, x.m, roots) && SameData(m, x.m, owner))
      && (x.Forked? ==> Child(m, x.m, roots, owner, owner', parent, n, x.child, x.tf))
  {
    hide Owned, P0, AfterTrapframe, Taken, SameFlat, SameData, SameTables, Image, Child;
    owner' := owner;
    RootBound(m, roots, owner, parent);
    ImageBound(m, parent, n);
    FreeIs(m, roots, owner);
    if m.free == [] {
      NoMore(m, roots, owner, 0);
    } else {
      var tf, o1 := m.free[0], owner[m.free[0] := Held];
      TakenOwned(m, roots, owner);
      FlatOf(m, Taken(m), roots);
      TakenData(m, owner);
      ParentImage(m, Taken(m), roots, parent, n);
      owner' := ForkRest(m, Taken(m), roots, owner, parent, n, tramp, tf);
    }
  }

  lemma ImageBound(m: Mem, r: nat, n: nat)
    requires Image(m, r, n)
    ensures n <= TRAPFRAME
  {
  }

  lemma TakenData(m: Mem, owner: Owners)
    requires m.free != [] && m.free[0] < |m.page| && m.free[0] !in owner
    ensures SameData(m, Taken(m), owner) && |Taken(m).page| == |m.page|
  {
  }

  lemma ForkRest(m: Mem, m0: Mem, roots: set<nat>, owner: Owners, parent: nat, n: nat, tramp: nat, tf: nat)
    returns (owner': Owners)
    requires tf !in owner && Owned(m0, roots, owner[tf := Held]) && SameFlat(m, m0, roots) && SameData(m, m0, owner)
    requires parent in roots && Image(m0, parent, n) && n <= TRAPFRAME && tramp < |m0.page| && tf < |m0.page|
    ensures var x := AfterTrapframe(m0, parent, n, tramp, tf);
      && !x.ForkPanic?
      && (x.ForkFailed? ==> Owned(x.m, roots, owner) && SameFlat(m, x.m, roots) && SameData(m, x.m, owner))
      && (x.Forked? ==> Child(m, x.m, roots, owner, owner', parent, n, x.child, x.tf))
  {
    hide Owned, P0, ProcPagetable, Beside, Space, SameFlat, SameData, SameTables, Image, Uvmcopy, FreePagetable, Freed,
      Child;
    var o0 := owner[tf := Held];
    owner' := ProcPagetableWorks(m0, roots, o0, tramp, tf);
    var x := ProcPagetable(m0, tramp, tf);
    if x.NotMade? {
      FailedEarly(m, m0, x.m, roots, owner, tf);
    } else {
      var c, all := x.root, roots + {x.root};
      BesideOwned(m0, x.m, roots, o0, owner', c);
      BesideFlat(m0, x.m, roots, o0, owner', c);
      ParentImage(m0, x.m, roots, parent, n);
      SpaceImage(x.m, c, 0);
      var o2 := UvmcopyWorks(x.m, all, owner', parent, c, n);
      var y := Uvmcopy(x.m, parent, c, n);
      if y.Got? {
        ChildIs(m, m0, x.m, y.m, roots, owner, owner', o2, parent, n, c, tf);
        owner' := o2;
      } else {
        BesideStep(m0, x.m, y.m, roots, o0, owner', o2, c);
        StillSpace(x.m, y.m, all, owner', o2, c);
        FailedLate(m, m0, y.m, roots, owner, o2, c, tf);
      }
    }
  }

  lemma BesideFlat(m: Mem, m1: Mem, roots: set<nat>, owner: Owners, o1: Owners, r: nat)
    requires Beside(m, m1, roots, owner, o1, r)
    ensures SameFlat(m, m1, roots) && SameData(m, m1, owner)
  {
  }

  lemma SpaceImage(m: Mem, r: nat, n: nat)
    requires Space(m, r, n)
    ensures Image(m, r, n)
  {
  }

  lemma StillSpace(m: Mem, m': Mem, roots: set<nat>, owner: Owners, owner': Owners, r: nat)
    requires Stepped(m, m', roots, owner, owner', r) && r in roots && Space(m, r, 0)
    ensures Space(m', r, 0)
  {
    hide P0, Owned;
  }

  lemma FailedEarly(m: Mem, m0: Mem, m1: Mem, roots: set<nat>, owner: Owners, tf: nat)
    requires tf !in owner && Owned(m1, roots, owner[tf := Held]) && SameFlat(m, m0, roots) && SameFlat(m0, m1, roots)
    requires SameData(m, m0, owner) && SameData(m0, m1, owner[tf := Held])
    ensures tf < |m1.page| && Owned(Freed(m1, tf), roots, owner) && SameFlat(m, Freed(m1, tf), roots)
    ensures SameData(m, Freed(m1, tf), owner)
  {
    hide Owned, P0, SameFlat, SameData, SameTables, Freed;
    TfFree(m, m1, roots, owner, tf);
    FlatOf(m1, Freed(m1, tf), roots);
    SameFlatTwice(m, m0, m1, roots);
    SameFlatTwice(m, m1, Freed(m1, tf), roots);
    DataLess(m0, m1, owner, tf);
    DataTwice(m, m0, m1, owner);
    DataTwice(m, m1, Freed(m1, tf), owner);
  }

  lemma ChildIs(m: Mem, m0: Mem, m1: Mem, m2: Mem, roots: set<nat>, owner: Owners, o1: Owners, o2: Owners,
                parent: nat, n: nat, c: nat, tf: nat)
    requires tf !in owner && SameFlat(m, m0, roots) && SameData(m, m0, owner) && parent in roots
    requires Beside(m0, m1, roots, owner[tf := Held], o1, c) && Space(m1, c, 0)
    requires Cloned(m1, m2, roots + {c}, o1, o2, parent, c, 0, n) && Image(m2, c, n)
    ensures Child(m, m2, roots, owner, o2, parent, n, c, tf)
  {
    hide P0, Owned, Frame;
    assert Others(o2, c) == Others(o1, c);
  }

  /** freeproc after uvmcopy has failed. */
  lemma FailedLate(m: Mem, m0: Mem, m2: Mem, roots: set<nat>, owner: Owners, o2: Owners, c: nat, tf: nat)
    requires tf !in owner && SameFlat(m, m0, roots) && SameData(m, m0, owner)
    requires Beside(m0, m2, roots, owner[tf := Held], o2, c) && Space(m2, c, 0)
    ensures tf < |m2.page| && c < |m2.page| && FreePagetable(Freed(m2, tf), c, 0).Done?
    ensures var m4 := FreePagetable(Freed(m2, tf), c, 0).m;
      Owned(m4, roots, owner) && SameFlat(m, m4, roots) && SameData(m, m4, owner)
  {
    hide Owned, P0, FreePagetable, Freed, SameTables, Gone;
    var all := roots + {c};
    HeldIn(owner, o2, c, tf);
    FreedOwned(m2, all, o2, tf);
    var m3 := Freed(m2, tf);
    SpaceKept(m2, m3, all, c);
    FreePagetableWorks(m3, all, o2 - {tf}, c, 0);
    FreedData(m2, o2, tf);
    var m4 := FreePagetable(m3, c, 0).m;
    LateFacts(m, m0, m2, m3, m4, roots, owner, o2, c, tf);
  }

  lemma HeldIn(owner: Owners, o2: Owners, c: nat, tf: nat)
    requires Others(o2, c) == owner[tf := Held]
    ensures tf in o2 && o2[tf].Held?
  {
    assert tf in Others(o2, c);
  }

  lemma SpaceKept(m: Mem, m': Mem, roots: set<nat>, r: nat)
    requires SameTables(m, m', roots) && r in roots && Space(m, r, 0)
    ensures Space(m', r, 0)
  {
    hide P0, P1, P2;
  }

  lemma FreedData(m: Mem, owner: Owners, f: nat)
    requires f < |m.page|
    ensures SameData(m, Freed(m, f), owner - {f})
  {
  }

  lemma LateFacts(m: Mem, m0: Mem, m2: Mem, m3: Mem, m4: Mem, roots: set<nat>, owner: Owners, o2: Owners, c: nat,
                  tf: nat)
    requires tf !in owner && SameFlat(m, m0, roots) && SameData(m, m0, owner)
    requires Beside(m0, m2, roots, owner[tf := Held], o2, c) && SameTables(m2, m3, roots + {c})
    requires SameData(m2, m3, o2 - {tf})
    requires Gone(m3, m4, roots + {c}, o2 - {tf}, c)
    ensures Owned(m4, roots, owner) && SameFlat(m, m4, roots) && SameData(m, m4, owner)
  {
    hide Owned, P0, P1, P2;
    assert roots + {c} - {c} == roots;
    OthersLess(owner, o2, c, tf);
    assert forall g :: g in owner ==> g in Others(o2, c);
  }

  lemma OthersLess(owner: Owners, o2: Owners, c: nat, tf: nat)
    requires Others(o2, c) == owner[tf := Held] && tf !in owner
    ensures Others(o2 - {tf}, c) == owner
  {
    assert Others(o2 - {tf}, c) == Others(o2, c) - {tf};
    assert owner[tf := Held] - {tf} == owner;
  }
}
