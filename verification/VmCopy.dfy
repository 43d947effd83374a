/** uvmdealloc, uvmcopy and uvmfree (kernel/vm.c). */
module VmCopy {
  import opened PageTable
  import opened PageOwner
  import opened VmSpec
  import opened VmMap
  import opened VmFree
  import opened VmUser

  // ---- uvmdealloc

  function Uvmdealloc(m: Mem, r: nat, oldsz: nat, newsz: nat): (UnmapResult, nat)
    requires r < |m.page| && Up(oldsz) <= MAXVPN
  {
    if newsz >= oldsz then (Done(m), oldsz)
    else if Up(newsz) < Up(oldsz) then (Unmap(m, r, Up(newsz), Up(oldsz) - Up(newsz), true), newsz)
    else (Done(m), newsz)
  }

  lemma UvmdeallocWorks(m: Mem, roots: set<nat>, owner: Owners, r: nat, oldsz: nat, newsz: nat)
    requires Owned(m, roots, owner) && r in roots && Image(m, r, Up(oldsz)) && newsz <= oldsz
    ensures r < |m.page| && Up(newsz) <= Up(oldsz)
    ensures var x := Uvmdealloc(m, r, oldsz, newsz);
      && x.1 == newsz && x.0.Done?
      && Drops(m, x.0.m, roots, owner, r, Up(newsz), Up(oldsz) - Up(newsz)) && Image(x.0.m, r, Up(newsz))
  {
    hide Owned, P0, Unmap, Drops;
    assert Up(newsz) <= Up(oldsz);
    UnmapDrops(m, roots, owner, r, Up(newsz), Up(oldsz) - Up(newsz));
    DropsNone(m, roots, owner, r, Up(newsz));
    if Up(newsz) < Up(oldsz) {
      ImageShrinks(m, Unmap(m, r, Up(newsz), Up(oldsz) - Up(newsz), true).m, roots, owner, r, Up(oldsz), Up(newsz));
    }
  }

  lemma ImageShrinks(m: Mem, m': Mem, roots: set<nat>, owner: Owners, r: nat, n: nat, n': nat)
    requires Image(m, r, n) && n' <= n && r in roots && Drops(m, m', roots, owner, r, n', n - n')
    ensures Image(m', r, n')
  {
    hide P0, Owned;
    forall u | 0 <= u < n' ensures P0(m', r, u) != 0 {
      assert P0(m, r, u) != 0;
    }
    forall u | n' <= u < TRAPFRAME ensures P0(m', r, u) == 0 {
      assert u >= n ==> P0(m, r, u) == 0;
    }
  }

  // ---- uvmcopy

  /** The loop of uvmcopy from page `v` on: copy the first `n` pages of `src` to `new`. */
  function CopyLoop(m: Mem, src: nat, dst: nat, v: nat, n: nat): AllocResult
    requires src < |m.page| && dst < |m.page| && v <= n <= MAXVPN
    decreases n - v
  {
    if v == n then Got(m)
    else
      var w := Walk(m, src, v, false);
      if w.Missing? then Bad
      else
        var e := Pte(m, w.t, v % 512);
        if !Valid(e) || Frame(e) >= |m.page| then Bad
        else if m.free == [] || m.free[0] >= |m.page| then Undo(m, dst, 0, v)
        else
          var x := MapOne(Loaded(m, m.page[Frame(e)]), dst, v, m.free[0], e % 1024);
          match x
          case Mapped(m') => CopyLoop(m', src, dst, v + 1, n)
          case NoMemory(m') => Undo(Freed(m', m.free[0]), dst, 0, v)
          case Remap => Bad
  }

  /** Page `u` of `new` has the flags and the contents of page `u` of `src`. */
  ghost predicate PageCopied(m: Mem, src: nat, dst: nat, u: nat)
    requires u < NV
  {
    var a, b := P0(m, src, u), P0(m, dst, u);
    b != 0 && b % 1024 == a % 1024 && Frame(a) < |m.page| && Frame(b) < |m.page| && m.page[Frame(b)] == m.page[Frame(a)]
  }

  /** Pages `v..n` of `new` are copies of those of `src`; nothing else changed. */
  ghost predicate Cloned(m: Mem, m': Mem, roots: set<nat>, owner: Owners, owner': Owners, src: nat, dst: nat, v: nat,
                         n: nat) {
    && v <= n <= NV && Owned(m', roots, owner') && SameData(m, m', owner) && OnlyMore(owner, owner', dst)
    && (forall s, u :: s in roots && 0 <= u < NV && !(s == dst && v <= u < n) ==> P0(m', s, u) == P0(m, s, u))
    && (forall u :: v <= u < n ==> PageCopied(m', src, dst, u))
  }

  lemma ClonedNone(m: Mem, roots: set<nat>, owner: Owners, src: nat, dst: nat, v: nat)
    requires Owned(m, roots, owner) && v <= NV
    ensures Cloned(m, m, roots, owner, owner, src, dst, v, v)
  {
    hide P0, Owned;
  }

  lemma FlagsOk(e: nat)
    requires Leafy(e) && Valid(e)
    ensures PermOk(e % 1024) && e % 1024 % 2 == 1 && PteOf(Frame(e), e % 1024) == e
  {
    var f, p := e / 1024, e % 1024;
    assert e == 1024 * f + p;
    Bits(f, p);
  }

  lemma FlagsKept(f: nat, e: nat)
    requires PermOk(e % 1024) && e % 1024 % 2 == 1
    ensures PteOf(f, e % 1024) % 1024 == e % 1024
  {
    Divide(PteOf(f, e % 1024), f, e % 1024, 1024);
  }

  lemma ClonedOne(m: Mem, m': Mem, roots: set<nat>, owner: Owners, owner': Owners, src: nat, dst: nat, v: nat, f: nat)
    requires Owned(m, roots, owner) && src in roots && dst in roots && src != dst && v < TRAPFRAME && P0(m, src, v) != 0
    requires Frame(P0(m, src, v)) < |m.page|
    requires PageAdded(m, m', roots, owner, owner', dst, v, f, P0(m, src, v) % 1024, m.page[Frame(P0(m, src, v))])
    ensures Cloned(m, m', roots, owner, owner', src, dst, v, v + 1)
    ensures Frame(P0(m', dst, v)) == f
  {
    hide P0, Owned, PteOf, Frame, Valid, Leafy;
    var e := P0(m, src, v);
    MappedFacts(m, roots, owner, src, v);
    FlagsOk(e);
    FlagsKept(f, e);
    PteFacts(f, e % 1024);
    assert P0(m', dst, v) == PteOf(f, e % 1024) && P0(m', src, v) == e;
    assert m'.page[Frame(e)] == m.page[Frame(e)];
  }

  lemma ClonedThen(m: Mem, m1: Mem, m2: Mem, roots: set<nat>, o: Owners, o1: Owners, o2: Owners, src: nat, dst: nat,
                   v: nat, n: nat)
    requires Cloned(m, m1, roots, o, o1, src, dst, v, v + 1) && Cloned(m1, m2, roots, o1, o2, src, dst, v + 1, n)
    requires src in roots && dst in roots && src != dst
    requires var f := Frame(P0(m1, dst, v)); f in o1 && o1[f] == Part(dst, Leaf(v))
    requires var g := Frame(P0(m1, src, v)); g in o1 && o1[g] == Part(src, Leaf(v))
    ensures Cloned(m, m2, roots, o, o2, src, dst, v, n)
  {
    hide P0, Owned, Frame;
    assert PageCopied(m1, src, dst, v);
    assert P0(m2, dst, v) == P0(m1, dst, v) && P0(m2, src, v) == P0(m1, src, v);
    var f, g := Frame(P0(m1, dst, v)), Frame(P0(m1, src, v));
    assert m2.page[f] == m1.page[f] && m2.page[g] == m1.page[g];
    forall u | v <= u < n ensures PageCopied(m2, src, dst, u) {
      assert u > v ==> PageCopied(m2, src, dst, u);
    }
  }

  lemma ClonedFacts(m: Mem, m': Mem, roots: set<nat>, owner: Owners, owner': Owners, src: nat, dst: nat, v: nat, n: nat)
    requires Cloned(m, m', roots, owner, owner', src, dst, v, n) && Image(m, dst, v) && dst in roots && src in roots
    requires src != dst
    requires n <= TRAPFRAME
    ensures Owned(m', roots, owner') && Image(m', dst, n)
    ensures forall k :: 0 <= k && Image(m, src, k) ==> Image(m', src, k)
  {
    hide P0, Owned, Frame;
    forall u | 0 <= u < n ensures P0(m', dst, u) != 0 {
      assert u >= v ==> PageCopied(m', src, dst, u);
    }
  }

  /** uvmcopy copies every page with its flags, or fails and leaves the child without
      any page; the parent is as it was either way. */
  lemma {:induction false} CopyLoopWorks(m: Mem, roots: set<nat>, owner: Owners, src: nat, dst: nat, v: nat, n: nat)
    returns (owner': Owners)
    requires Owned(m, roots, owner) && src in roots && dst in roots && src != dst
    requires v <= n && Image(m, src, n) && Image(m, dst, v)
    ensures src < |m.page| && dst < |m.page|
    ensures var x := CopyLoop(m, src, dst, v, n);
      && !x.Bad?
      && (x.Got? ==> Cloned(m, x.m, roots, owner, owner', src, dst, v, n) && Image(x.m, dst, n))
      && (x.Failed? ==> Undone(m, x.m, roots, owner, owner', dst, 0, v))
    decreases n - v
  {
    hide Owned, P0, P1, MapOne, Loaded, Undo, Stepped, Undone, Cloned, PageAdded, Filled, Pte, Walk, Frame, Valid,
      Leafy;
    RootBound(m, roots, owner, src);
    RootBound(m, roots, owner, dst);
    if v == n {
      owner' := owner;
      ClonedNone(m, roots, owner, src, dst, v);
    } else {
      var o := WalkFinds(m, roots, owner, src, v, false);
      MappedFacts(m, roots, owner, src, v);
      SlotEntry(m, roots, owner, src, v);
      FreeIs(m, roots, owner);
      var e := P0(m, src, v);
      FlagsOk(e);
      if m.free == [] {
        NoStep(m, roots, owner, dst);
        owner' := UndoWorks(m, m, roots, owner, owner, dst, 0, v);
      } else {
        var c, f := m.page[Frame(e)], m.free[0];
        owner' := AddPage(m, roots, owner, dst, v, e % 1024, c);
        var x := MapOne(Loaded(m, c), dst, v, f, e % 1024);
        if x.NoMemory? {
          owner' := UndoWorks(m, Freed(x.m, f), roots, owner, owner', dst, 0, v);
        } else {
          var o1 := owner';
          ClonedOne(m, x.m, roots, owner, o1, src, dst, v, f);
          AddedOwned(m, x.m, roots, owner, o1, dst, v, f, e % 1024, c);
          ClonedFacts(m, x.m, roots, owner, o1, src, dst, v, v + 1);
          MappedFacts(x.m, roots, o1, src, v);
          owner' := CopyLoopWorks(x.m, roots, o1, src, dst, v + 1, n);
          var y := CopyLoop(x.m, src, dst, v + 1, n);
          if y.Got? {
            ClonedThen(m, x.m, y.m, roots, owner, o1, owner', src, dst, v, n);
          } else {
            UndoneEarlier(m, x.m, y.m, roots, owner, o1, owner', dst, 0, v, f, e % 1024, c);
          }
        }
      }
    }
  }

  /** uvmcopy of `n` pages into an address space without user pages. */
  function Uvmcopy(m: Mem, src: nat, dst: nat, n: nat): AllocResult
    requires src < |m.page| && dst < |m.page| && n <= MAXVPN
  {
    CopyLoop(m, src, dst, 0, n)
  }

  lemma UvmcopyWorks(m: Mem, roots: set<nat>, owner: Owners, src: nat, dst: nat, n: nat)
    returns (owner': Owners)
    requires Owned(m, roots, owner) && src in roots && dst in roots && src != dst && Image(m, src, n)
    requires Image(m, dst, 0)
    ensures src < |m.page| && dst < |m.page|
    ensures var x := Uvmcopy(m, src, dst, n);
      && !x.Bad?
      && (x.Got? ==> Cloned(m, x.m, roots, owner, owner', src, dst, 0, n) && Image(x.m, dst, n))
      && (x.Failed? ==> Stepped(m, x.m, roots, owner, owner', dst))
  {
    hide Owned, P0, Cloned, Stepped, CopyLoop;
    owner' := CopyLoopWorks(m, roots, owner, src, dst, 0, n);
    if CopyLoop(m, src, dst, 0, n).Failed? {
      UndoneNone(m, CopyLoop(m, src, dst, 0, n).m, roots, owner, owner', dst, 0);
    }
  }

  // ---- uvmfree

  /** uvmfree for an address space of `n` user pages. */
  function Uvmfree(m: Mem, r: nat, n: nat): UnmapResult
    requires r < |m.page| && n <= MAXVPN
  {
    var x := if n > 0 then Unmap(m, r, 0, n, true) else Done(m);
    if x.Panic? then x else FreeFrom(x.m, r, 2, 0)
  }

  /** The top pages, trampoline and trapframe, are not mapped. */
  ghost predicate NoTop2(m: Mem, r: nat) {
    P0(m, r, TRAMPOLINE) == 0 && P0(m, r, TRAPFRAME) == 0
  }

  lemma UvmfreeWorks(m: Mem, roots: set<nat>, owner: Owners, r: nat, n: nat)
    requires Owned(m, roots, owner) && r in roots && Image(m, r, n) && NoTop2(m, r)
    ensures r < |m.page| && Uvmfree(m, r, n).Done? && Gone(m, Uvmfree(m, r, n).m, roots, owner, r)
  {
    hide Owned, P0, Unmap, Drops, Gone, FreeFrom;
    UnmapDrops(m, roots, owner, r, 0, n);
    DropsNone(m, roots, owner, r, 0);
    var m1 := if n > 0 then Unmap(m, r, 0, n, true).m else m;
    NothingLeft(m, m1, roots, owner, r, n);
    FreewalkFrees(m1, roots, Shed(owner, r, 0, n), r, 0);
    GoneAll(m, m1, FreeFrom(m1, r, 2, 0).m, roots, owner, r, n);
  }

  lemma NothingLeft(m: Mem, m1: Mem, roots: set<nat>, owner: Owners, r: nat, n: nat)
    requires Owned(m, roots, owner) && Image(m, r, n) && NoTop2(m, r) && r in roots
    requires Drops(m, m1, roots, owner, r, 0, n)
    ensures Owned(m1, roots, Shed(owner, r, 0, n)) && NoMaps(m1, r)
  {
    hide P0, Owned, P1;
    forall v | 0 <= v < NV ensures P0(m1, r, v) == 0 {
      if v >= MAXVPN {
        BeyondTop(m, roots, owner, r, v);
      } else if n <= v < TRAPFRAME {
        assert P0(m, r, v) == 0;
      }
    }
  }

  lemma BeyondTop(m: Mem, roots: set<nat>, owner: Owners, r: nat, v: nat)
    requires Owned(m, roots, owner) && r in roots && MAXVPN <= v < NV
    ensures P0(m, r, v) == 0
  {
    hide P0, P1;
    assert Ent0(m, owner, r, v);
  }

  lemma GoneAll(m: Mem, m1: Mem, m2: Mem, roots: set<nat>, owner: Owners, r: nat, n: nat)
    requires Drops(m, m1, roots, owner, r, 0, n) && Gone(m1, m2, roots, Shed(owner, r, 0, n), r) && r in roots
    ensures Gone(m, m2, roots, owner, r)
  {
    hide P0, Owned;
    assert Others(Shed(owner, r, 0, n), r) == Others(owner, r);
  }
}
