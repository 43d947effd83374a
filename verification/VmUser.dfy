/** User memory (kernel/vm.c): uvmalloc, uvmdealloc, uvmcopy and uvmfree, and what they
    leave behind when memory runs out. */
module VmUser {
  import opened PageTable
  import opened PageOwner
  import opened VmSpec
  import opened VmMap

  /** PGROUNDUP, in pages. */
  function Up(size: nat): nat {
    (size + 4095) / 4096
  }

  /** The user part of an address space is exactly its first `n` pages. */
  ghost predicate Image(m: Mem, r: nat, n: nat) {
    && n <= TRAPFRAME && AllMapped(m, r, 0, n) && Unmapped(m, r, n, TRAPFRAME - n)
  }

  // ---- there are more virtual pages than frames

  ghost function FramesOf(m: Mem, r: nat, n: nat): set<nat>
    requires n <= NV
  {
    if n == 0 then {} else FramesOf(m, r, n - 1) + {Frame(P0(m, r, n - 1))}
  }

  lemma {:induction false} FramesCount(m: Mem, roots: set<nat>, owner: Owners, r: nat, n: nat)
    requires Owned(m, roots, owner) && r in roots && n <= TRAPFRAME && AllMapped(m, r, 0, n)
    ensures |FramesOf(m, r, n)| == n
    ensures forall f :: f in FramesOf(m, r, n) ==> f < |m.page| && exists u :: 0 <= u < n && Frame(P0(m, r, u)) == f
  {
    hide P0, Owned, Frame;
    if n > 0 {
      FramesCount(m, roots, owner, r, n - 1);
      MappedFacts(m, roots, owner, r, n - 1);
      var f := Frame(P0(m, r, n - 1));
      if f in FramesOf(m, r, n - 1) {
        var u :| 0 <= u < n - 1 && Frame(P0(m, r, u)) == f;
        OwnershipMeans(m, roots, owner, r, u, r, n - 1);
      }
    }
  }

  lemma {:induction false} BoundedSet(s: set<nat>, n: nat)
    requires forall f :: f in s ==> f < n
    ensures |s| <= n
  {
    if n == 0 {
      assert s == {};
    } else {
      BoundedSet(s - {n - 1}, n - 1);
    }
  }

  lemma PagesBounded(m: Mem, roots: set<nat>, owner: Owners, r: nat, n: nat)
    requires Owned(m, roots, owner) && r in roots && n <= TRAPFRAME && AllMapped(m, r, 0, n)
    ensures n < TRAPFRAME
  {
    hide P0, Frame, FramesOf;
    FramesCount(m, roots, owner, r, n);
    BoundedSet(FramesOf(m, r, n), |m.page|);
  }

  // ---- uvmalloc

  datatype AllocResult = Got(m: Mem) | Failed(m: Mem) | Bad

  /** Give back the pages `v0..v` that this call has added. */
  function Undo(m: Mem, r: nat, v0: nat, v: nat): AllocResult
    requires r < |m.page| && v0 <= v <= MAXVPN
  {
    var x := Unmap(m, r, v0, v - v0, true);
    if x.Done? then Failed(x.m) else Bad
  }

  /** The loop of uvmalloc from page `v` up to `end`, begun at `v0`.  `Bad` stands for the
      panics of walk and mappages. */
  function AllocLoop(m: Mem, r: nat, v0: nat, v: nat, end: nat, perm: nat): AllocResult
    requires r < |m.page| && v0 <= v <= MAXVPN
    decreases end - v
  {
    if v >= end then Got(m)
    else if m.free == [] || m.free[0] >= |m.page| then Undo(m, r, v0, v)
    else if v >= MAXVPN then Bad
    else
      var x := MapOne(Zeroed(m), r, v, m.free[0], perm);
      match x
      case Mapped(m') => AllocLoop(m', r, v0, v + 1, end, perm)
      case NoMemory(m') => Undo(Freed(m', m.free[0]), r, v0, v)
      case Remap => Bad
  }

  /** One page with contents `c` was added to address space `r`. */
  ghost predicate PageAdded(m: Mem, m': Mem, roots: set<nat>, owner: Owners, owner': Owners, r: nat, v: nat, f: nat,
                            perm: nat, c: Page) {
    && Owned(m', roots, owner') && FlatAdds(m, m', roots, r, v, 1, f, perm) && SameData(m, m', owner)
    && f !in owner && f < |m'.page| && m'.page[f] == c
    && f in owner' && owner'[f] == Part(r, Leaf(v)) && MoreTables(owner[f := Part(r, Leaf(v))], owner', r)
  }

  lemma AddPage(m: Mem, roots: set<nat>, owner: Owners, r: nat, v: nat, perm: nat, c: Page)
    returns (owner': Owners)
    requires Owned(m, roots, owner) && r in roots && v < TRAPFRAME && P0(m, r, v) == 0 && PermOk(perm) && m.free != []
    ensures r < |m.page| && m.free[0] < |m.page|
    ensures var x := MapOne(Loaded(m, c), r, v, m.free[0], perm);
      && !x.Remap?
      && (x.Mapped? ==> PageAdded(m, x.m, roots, owner, owner', r, v, m.free[0], perm, c))
      && (x.NoMemory? ==> Stepped(m, Freed(x.m, m.free[0]), roots, owner, owner', r))
  {
    hide Owned, P0, MapOne, Loaded, PteOf, Freed, Filled;
    RootBound(m, roots, owner, r);
    LoadedOwned(m, roots, owner, c);
    var f, o1, m1 := m.free[0], owner[m.free[0] := Held], Loaded(m, c);
    SameAt(m, m1, roots, r, v);
    var o2 := MapOneAdds(m1, roots, o1, r, v, f, perm);
    var x := MapOne(m1, r, v, f, perm);
    if x.Mapped? {
      owner' := o2;
      AddedIs(m, m1, x.m, roots, owner, o2, r, v, f, perm, c);
    } else {
      AddsHeld(m1, x.m, roots, o1, o2, r, v, f, perm);
      FreedOwned(x.m, roots, o2, f);
      owner' := o2 - {f};
      BackOut(m, m1, x.m, roots, owner, o2, r, v, f, perm);
    }
  }

  lemma SameAt(m: Mem, m': Mem, roots: set<nat>, r: nat, v: nat)
    requires SameTables(m, m', roots) && r in roots && v < NV
    ensures P0(m', r, v) == P0(m, r, v)
  {
  }

  lemma AddsHeld(m: Mem, m': Mem, roots: set<nat>, owner: Owners, owner': Owners, r: nat, v: nat, f: nat, perm: nat)
    requires Adds(m, m', roots, owner, owner', r, v, 0, f, perm) && f in owner && owner[f].Held?
    ensures Owned(m', roots, owner') && f in owner' && owner'[f].Held?
  {
  }

  lemma AddedIs(m: Mem, m1: Mem, m2: Mem, roots: set<nat>, owner: Owners, o2: Owners, r: nat, v: nat, f: nat, perm: nat,
                c: Page)
    requires SameTables(m, m1, roots) && SameData(m, m1, owner) && f !in owner && f < |m1.page| && m1.page[f] == c
    requires Adds(m1, m2, roots, owner[f := Held], o2, r, v, 1, f, perm)
    ensures PageAdded(m, m2, roots, owner, o2, r, v, f, perm, c)
  {
    hide P0, P1, P2, Owned, PteOf, Filled;
  }

  lemma BackOut(m: Mem, m1: Mem, m2: Mem, roots: set<nat>, owner: Owners, o2: Owners, r: nat, v: nat, f: nat, perm: nat)
    requires SameTables(m, m1, roots) && SameData(m, m1, owner) && f !in owner && f < |m2.page|
    requires Adds(m1, m2, roots, owner[f := Held], o2, r, v, 0, f, perm)
    requires Owned(Freed(m2, f), roots, o2 - {f}) && SameTables(m2, Freed(m2, f), roots)
    ensures Stepped(m, Freed(m2, f), roots, owner, o2 - {f}, r)
  {
    hide P0, P1, P2, Owned, PteOf, Filled;
  }

  /** After a failure: the pages `v0..v` are gone, and only tables may have been added. */
  ghost predicate Undone(m: Mem, m': Mem, roots: set<nat>, owner: Owners, owner': Owners, r: nat, v0: nat, v: nat) {
    && v0 <= v && Owned(m', roots, owner') && FlatDrops(m, m', roots, r, v0, v - v0)
    && MoreTables(Shed(owner, r, v0, v - v0), owner', r) && SameData(m, m', Shed(owner, r, v0, v - v0))
  }

  lemma UndoWorks(m: Mem, m1: Mem, roots: set<nat>, owner: Owners, o1: Owners, r: nat, v0: nat, v: nat)
    returns (owner': Owners)
    requires r in roots && v0 <= v <= TRAPFRAME && AllMapped(m, r, 0, v) && Stepped(m, m1, roots, owner, o1, r)
    ensures r < |m1.page| && Undo(m1, r, v0, v).Failed?
    ensures Undone(m, Undo(m1, r, v0, v).m, roots, owner, owner', r, v0, v)
  {
    hide Owned, P0, Unmap, SameData, MoreTables, Drops, Undone;
    StillMapped(m, m1, roots, owner, o1, r, v0, v);
    UnmapDrops(m1, roots, o1, r, v0, v - v0);
    owner' := Shed(o1, r, v0, v - v0);
    UndoneIs(m, m1, Unmap(m1, r, v0, v - v0, true).m, roots, owner, o1, r, v0, v);
  }

  lemma StillMapped(m: Mem, m1: Mem, roots: set<nat>, owner: Owners, o1: Owners, r: nat, v0: nat, v: nat)
    requires r in roots && v0 <= v <= TRAPFRAME && AllMapped(m, r, 0, v) && Stepped(m, m1, roots, owner, o1, r)
    ensures Owned(m1, roots, o1) && AllMapped(m1, r, v0, v - v0)
  {
    hide Owned, P0;
  }

  lemma UndoneIs(m: Mem, m1: Mem, m2: Mem, roots: set<nat>, owner: Owners, o1: Owners, r: nat, v0: nat, v: nat)
    requires v0 <= v && Stepped(m, m1, roots, owner, o1, r) && Drops(m1, m2, roots, o1, r, v0, v - v0)
    ensures Undone(m, m2, roots, owner, Shed(o1, r, v0, v - v0), r, v0, v)
  {
    hide Owned, P0;
  }

  /** A fresh page: mapped with the given flags, and zeroed. */
  ghost predicate NewPage(m: Mem, r: nat, u: nat, perm: nat)
    requires u < NV
  {
    var e := P0(m, r, u);
    e != 0 && e == PteOf(Frame(e), perm) && Frame(e) < |m.page| && m.page[Frame(e)] == Filled(0)
  }

  /** Holders stay; what is new belongs to address space `r`, and is not its root. */
  ghost predicate OnlyMore(owner: Owners, owner': Owners, r: nat) {
    && (forall g :: g in owner ==> g in owner' && owner'[g] == owner[g])
    && (forall g :: g in owner' ==> g in owner || (owner'[g].Part? && owner'[g].root == r && owner'[g].use != Root))
  }

  /** Pages `v..end` were added to address space `r`; nothing else changed. */
  ghost predicate Grew(m: Mem, m': Mem, roots: set<nat>, owner: Owners, owner': Owners, r: nat, v: nat, end: nat,
                       perm: nat) {
    && v <= end <= NV && Owned(m', roots, owner') && SameData(m, m', owner) && OnlyMore(owner, owner', r)
    && (forall s, u :: s in roots && 0 <= u < NV && !(s == r && v <= u < end) ==> P0(m', s, u) == P0(m, s, u))
    && (forall u :: v <= u < end ==> NewPage(m', r, u, perm))
  }

  lemma GrewNone(m: Mem, roots: set<nat>, owner: Owners, r: nat, v: nat, perm: nat)
    requires Owned(m, roots, owner) && v <= NV
    ensures Grew(m, m, roots, owner, owner, r, v, v, perm)
  {
    hide P0, Owned;
  }

  lemma GrewOne(m: Mem, m': Mem, roots: set<nat>, owner: Owners, owner': Owners, r: nat, v: nat, f: nat, perm: nat)
    requires PageAdded(m, m', roots, owner, owner', r, v, f, perm, Filled(0)) && v < NV && PermOk(perm) && r in roots
    ensures Grew(m, m', roots, owner, owner', r, v, v + 1, perm)
    ensures P0(m', r, v) == PteOf(f, perm) && Frame(P0(m', r, v)) == f
  {
    hide P0, Owned, PteOf, Filled, Frame, Valid, Leafy;
    PteFacts(f, perm);
  }

  lemma GrewThen(m: Mem, m1: Mem, m2: Mem, roots: set<nat>, o: Owners, o1: Owners, o2: Owners, r: nat, v: nat, end: nat,
                 perm: nat)
    requires Grew(m, m1, roots, o, o1, r, v, v + 1, perm) && Grew(m1, m2, roots, o1, o2, r, v + 1, end, perm)
    requires r in roots
    requires var f := Frame(P0(m1, r, v)); f in o1 && o1[f] == Part(r, Leaf(v))
    ensures Grew(m, m2, roots, o, o2, r, v, end, perm)
  {
    hide P0, Owned, PteOf, Filled, Frame;
    var f := Frame(P0(m1, r, v));
    assert NewPage(m1, r, v, perm);
    assert P0(m2, r, v) == P0(m1, r, v);
    assert m2.page[f] == m1.page[f];
    forall u | v <= u < end ensures NewPage(m2, r, u, perm) {
      assert u > v ==> NewPage(m2, r, u, perm);
    }
  }

  lemma UndoneEarlier(m: Mem, m1: Mem, m2: Mem, roots: set<nat>, o: Owners, o1: Owners, o2: Owners, r: nat, v0: nat,
                      v: nat, f: nat, perm: nat, c: Page)
    requires Owned(m, roots, o) && r in roots && v0 <= v < TRAPFRAME && P0(m, r, v) == 0
    requires PageAdded(m, m1, roots, o, o1, r, v, f, perm, c) && Undone(m1, m2, roots, o1, o2, r, v0, v + 1)
    ensures Undone(m, m2, roots, o, o2, r, v0, v)
  {
    hide P0, Owned, PteOf, Filled;
    NoPart(m, roots, o, r, Leaf(v));
    forall g | g in o ensures InRange(o[g], r, v0, v - v0) <==> InRange(o[g], r, v0, v + 1 - v0) {
      assert o[g] != Part(r, Leaf(v));
    }
  }

  lemma ImageGrows(m: Mem, m': Mem, roots: set<nat>, owner: Owners, owner': Owners, r: nat, v: nat, end: nat, perm: nat)
    requires Image(m, r, v) && Grew(m, m', roots, owner, owner', r, v, end, perm) && r in roots && end <= TRAPFRAME
    ensures Image(m', r, end)
  {
    hide P0, Owned, PteOf, Filled, Frame;
    forall u | 0 <= u < end ensures P0(m', r, u) != 0 {
      assert u >= v ==> NewPage(m', r, u, perm);
    }
  }

  /** What uvmalloc's loop achieves: all of the pages, zeroed, or none of them and at most
      some more tables; never a panic. */
  lemma {:induction false} AllocLoopWorks(m: Mem, roots: set<nat>, owner: Owners, r: nat, v0: nat, v: nat, end: nat,
                                          perm: nat)
    returns (owner': Owners)
    requires Owned(m, roots, owner) && r in roots && v0 <= v <= end && Image(m, r, v) && PermOk(perm)
    ensures r < |m.page| && v <= MAXVPN
    ensures var x := AllocLoop(m, r, v0, v, end, perm);
      && !x.Bad?
      && (x.Got? ==> end <= TRAPFRAME && Grew(m, x.m, roots, owner, owner', r, v, end, perm) && Image(x.m, r, end))
      && (x.Failed? ==> Undone(m, x.m, roots, owner, owner', r, v0, v))
    decreases end - v
  {
    hide Owned, P0, MapOne, Loaded, Undo, Stepped, Undone, Grew, PageAdded, Filled;
    RootBound(m, roots, owner, r);
    if v == end {
      owner' := owner;
      GrewNone(m, roots, owner, r, v, perm);
    } else {
      PagesBounded(m, roots, owner, r, v);
      FreeIs(m, roots, owner);
      if m.free == [] {
        NoStep(m, roots, owner, r);
        owner' := UndoWorks(m, m, roots, owner, owner, r, v0, v);
      } else {
        owner' := AddPage(m, roots, owner, r, v, perm, Filled(0));
        var x := MapOne(Zeroed(m), r, v, m.free[0], perm);
        if x.NoMemory? {
          owner' := UndoWorks(m, Freed(x.m, m.free[0]), roots, owner, owner', r, v0, v);
        } else {
          var o1 := owner';
          GrewOne(m, x.m, roots, owner, o1, r, v, m.free[0], perm);
          AddedOwned(m, x.m, roots, owner, o1, r, v, m.free[0], perm, Filled(0));
          ImageGrows(m, x.m, roots, owner, o1, r, v, v + 1, perm);
          owner' := AllocLoopWorks(x.m, roots, o1, r, v0, v + 1, end, perm);
          var y := AllocLoop(x.m, r, v0, v + 1, end, perm);
          if y.Got? {
            GrewThen(m, x.m, y.m, roots, owner, o1, owner', r, v, end, perm);
          } else {
            UndoneEarlier(m, x.m, y.m, roots, owner, o1, owner', r, v0, v, m.free[0], perm, Filled(0));
          }
        }
      }
    }
  }

  lemma NoStep(m: Mem, roots: set<nat>, owner: Owners, r: nat)
    requires Owned(m, roots, owner)
    ensures Stepped(m, m, roots, owner, owner, r)
  {
  }

  lemma AddedOwned(m: Mem, m': Mem, roots: set<nat>, owner: Owners, owner': Owners, r: nat, v: nat, f: nat, perm: nat,
                   c: Page)
    requires PageAdded(m, m', roots, owner, owner', r, v, f, perm, c)
    ensures Owned(m', roots, owner') && f in owner' && owner'[f] == Part(r, Leaf(v))
  {
  }

  /** uvmalloc: grow from `oldsz` to `newsz` bytes; the new size, or 0 on failure. */
  function Uvmalloc(m: Mem, r: nat, oldsz: nat, newsz: nat, xperm: nat): (AllocResult, nat)
    requires r < |m.page| && Up(oldsz) <= MAXVPN
  {
    if newsz < oldsz then (Got(m), oldsz)
    else
      var x := AllocLoop(m, r, Up(oldsz), Up(oldsz), Up(newsz), 18 + xperm);
      (x, if x.Got? then newsz else 0)
  }

  /** Flags that uvmalloc adds to R and U: none, W, X or both. */
  predicate XpermOk(xperm: nat) {
    xperm == 0 || xperm == 4 || xperm == 8 || xperm == 12
  }

  /** A failed uvmalloc leaves the flat map and the data as they were and keeps only
      tables; a successful one adds exactly the new pages, zeroed. */
  lemma UvmallocWorks(m: Mem, roots: set<nat>, owner: Owners, r: nat, oldsz: nat, newsz: nat, xperm: nat)
    returns (owner': Owners)
    requires Owned(m, roots, owner) && r in roots && Image(m, r, Up(oldsz)) && oldsz <= newsz && XpermOk(xperm)
    ensures r < |m.page| && Up(oldsz) <= Up(newsz)
    ensures var x := Uvmalloc(m, r, oldsz, newsz, xperm).0;
      && !x.Bad?
      && (x.Got? ==>
            Grew(m, x.m, roots, owner, owner', r, Up(oldsz), Up(newsz), 18 + xperm) && Image(x.m, r, Up(newsz)))
      && (x.Failed? ==> Stepped(m, x.m, roots, owner, owner', r))
  {
    hide Owned, P0, AllocLoop, Grew, Image;
    assert Up(oldsz) <= Up(newsz);
    owner' := AllocLoopWorks(m, roots, owner, r, Up(oldsz), Up(oldsz), Up(newsz), 18 + xperm);
    var x := AllocLoop(m, r, Up(oldsz), Up(oldsz), Up(newsz), 18 + xperm);
    if x.Failed? {
      UndoneNone(m, x.m, roots, owner, owner', r, Up(oldsz));
    }
  }

  lemma UndoneNone(m: Mem, m': Mem, roots: set<nat>, owner: Owners, owner': Owners, r: nat, v: nat)
    requires Undone(m, m', roots, owner, owner', r, v, v)
    ensures Stepped(m, m', roots, owner, owner', r)
  {
    hide P0, Owned;
    assert Shed(owner, r, v, 0) == owner;
  }
}
