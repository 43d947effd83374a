/** freewalk and uvmfree (kernel/vm.c): an address space without mappings gives back each
    of its table pages exactly once. */
module VmFree {
  import opened Bytes
  import opened PageTable
  import opened PageOwner
  import opened VmSpec
  import opened VmMap

  /** freewalk from entry `i` on of the table in frame `t`, which has `level` levels of
      tables below it.  It panics on a leaf mapping. */
  function FreeFrom(m: Mem, t: nat, level: nat, i: nat): (x: UnmapResult)
    requires t < |m.page| && i <= 512
    ensures x.Done? ==> |x.m.page| == |m.page|
    decreases level, 512 - i
  {
    if i == 512 then Done(Freed(m, t))
    else
      var e := Pte(m, t, i);
      if !Valid(e) then FreeFrom(m, t, level, i + 1)
      else if Leafy(e) || level == 0 || Frame(e) >= |m.page| then Panic
      else
        var x := FreeFrom(m, Frame(e), level - 1, 0);
        if x.Done? then FreeFrom(SetPte(x.m, t, i, 0), t, level, i + 1) else x
  }

  // ---- level 0

  /** A level-0 table without mappings is just freed. */
  lemma {:induction false} FreeLow(m: Mem, t: nat, level: nat, i: nat)
    requires t < |m.page| && i <= 512 && forall k :: i <= k < 512 ==> Pte(m, t, k) == 0
    ensures FreeFrom(m, t, level, i) == Done(Freed(m, t))
    decreases 512 - i
  {
    hide Pte;
    PointerTo(0);
    if i < 512 {
      FreeLow(m, t, level, i + 1);
    }
  }

  // ---- owners

  /** The tables that free has dropped so far: level-0 tables below the given entry. */
  predicate LowIn(h: Holder, r: nat, lo: nat, hi: nat) {
    h.Part? && h.root == r && h.use.Low? && lo <= h.use.j < hi
  }

  ghost function NoLows(owner: Owners, r: nat, lo: nat, hi: nat): Owners {
    map g | g in owner && !LowIn(owner[g], r, lo, hi) :: owner[g]
  }

  ghost predicate NoMaps(m: Mem, r: nat) {
    forall v :: 0 <= v < NV ==> P0(m, r, v) == 0
  }

  /** What dropping some tables of `r` leaves alone. */
  ghost predicate Spared(m: Mem, m': Mem, roots: set<nat>, owner': Owners, r: nat) {
    && Owned(m', roots, owner') && SameFlat(m, m', roots) && SameData(m, m', owner')
    && |m'.page| == |m.page|
  }

  lemma LowEntries(m: Mem, roots: set<nat>, owner: Owners, r: nat, j: nat)
    requires Owned(m, roots, owner) && r in roots && j < NJ && Valid(P1(m, r, j)) && NoMaps(m, r)
    ensures var t := Frame(P1(m, r, j)); t < |m.page| && forall k :: 0 <= k < 512 ==> Pte(m, t, k) == 0
  {
    hide Pte, P1, Frame, Valid, Owned;
    var t := Frame(P1(m, r, j));
    Entry1(m, roots, owner, r, j);
    PointerTo(0);
    forall k | 0 <= k < 512 ensures Pte(m, t, k) == 0 {
      Divide(512 * j + k, j, k, 512);
      assert P0(m, r, 512 * j + k) == 0;
    }
  }

  /** One level-0 table: freed, and its entry cleared. */
  lemma FreeEntry1(m: Mem, roots: set<nat>, owner: Owners, r: nat, j: nat, t: nat)
    requires Owned(m, roots, owner) && r in roots && j < NJ && NoMaps(m, r)
    requires Valid(P2(m, r, j / 512)) && t == Frame(P2(m, r, j / 512)) && Valid(P1(m, r, j))
    ensures t < |m.page| && Frame(P1(m, r, j)) < |m.page|
    ensures FreeFrom(m, Frame(P1(m, r, j)), 0, 0) == Done(Freed(m, Frame(P1(m, r, j))))
    ensures var m' := SetPte(Freed(m, Frame(P1(m, r, j))), t, j % 512, 0);
      && Spared(m, m', roots, NoLows(owner, r, j, j + 1), r) && NoMaps(m', r)
      && OnlyEntry(m, m', roots, r, Low(j)) && P1(m', r, j) == 0
  {
    hide Pte, P0, P1, P2, Frame, Valid, Owned, SameData, OnlyEntry, FreeFrom;
    LowEntries(m, roots, owner, r, j);
    var f := Frame(P1(m, r, j));
    FreeLow(m, f, 0, 0);
    DropLow(m, roots, owner, r, j);
    OneLow(m, roots, owner, r, j, f);
    EntryFlat2(m, SetPte(Freed(m, f), t, j % 512, 0), roots, r, Low(j));
    MidOwner(m, roots, owner, r, j);
    TableData(m, owner, f, t, j % 512, NoLows(owner, r, j, j + 1));
  }

  lemma MidOwner(m: Mem, roots: set<nat>, owner: Owners, r: nat, j: nat)
    requires Owned(m, roots, owner) && r in roots && j < NJ && Valid(P2(m, r, j / 512))
    ensures var t := Frame(P2(m, r, j / 512)); t < |m.page| && t in owner && owner[t] == Part(r, Mid(j / 512))
  {
    hide Pte, P0, P1, P2, Frame, Valid, Owned;
    Facts2(m, roots, owner, r, j / 512);
  }

  lemma EntryFlat2(m: Mem, m': Mem, roots: set<nat>, r: nat, use: Use)
    requires OnlyEntry(m, m', roots, r, use) && !use.Leaf? && r in roots && NoMaps(m, r)
    ensures SameFlat(m, m', roots) && NoMaps(m', r)
  {
    hide P0, P1, P2;
  }

  lemma OneLow(m: Mem, roots: set<nat>, owner: Owners, r: nat, j: nat, f: nat)
    requires Owned(m, roots, owner) && j < NJ && f == Frame(P1(m, r, j)) && f in owner && owner[f] == Part(r, Low(j))
    ensures owner - {f} == NoLows(owner, r, j, j + 1)
  {
    hide P0, P1, P2, Frame, Owned;
    OnePart(m, roots, owner, r, Low(j), f);
    forall g | g in owner && g != f ensures !LowIn(owner[g], r, j, j + 1) {
      assert owner[g] != Part(r, Low(j));
    }
  }

  lemma TableData(m: Mem, owner: Owners, f: nat, t: nat, k: nat, owner': Owners)
    requires f < |m.page| && t < |m.page| && k < 512 && t in owner && !NotTable(owner, t)
    requires f !in owner' && forall g :: g in owner' ==> g in owner && owner'[g] == owner[g]
    ensures SameData(m, SetPte(Freed(m, f), t, k, 0), owner')
  {
    hide PutWord;
  }

  // ---- level 1

  /** The loop over a level-1 table, entries `k` on, with base entry j0 = 512 * i. */
  lemma {:induction false} FreeMid(m: Mem, roots: set<nat>, owner: Owners, r: nat, i: nat, k: nat, t: nat)
    returns (m1: Mem)
    requires Owned(m, roots, owner) && r in roots && i < NI && k <= 512 && NoMaps(m, r)
    requires Valid(P2(m, r, i)) && t == Frame(P2(m, r, i))
    requires forall j :: 512 * i <= j < 512 * i + k ==> P1(m, r, j) == 0
    ensures t < |m.page| && |m1.page| == |m.page| && FreeFrom(m, t, 1, k) == Done(Freed(m1, t))
    ensures Spared(m, m1, roots, NoLows(owner, r, 512 * i + k, 512 * i + 512), r) && NoMaps(m1, r)
    ensures forall s, x :: s in roots && 0 <= x < NI ==> P2(m1, s, x) == P2(m, s, x)
    ensures forall j :: 0 <= j < NJ && j / 512 == i ==> P1(m1, r, j) == 0
    decreases 512 - k
  {
    hide Pte, P0, P1, P2, Frame, Valid, Owned, SameData, OnlyEntry, SetPte, Freed, Leafy;
    Facts2(m, roots, owner, r, i);
    if k == 512 {
      m1 := m;
      FreeMidEnd(m, roots, owner, r, i);
    } else {
      var j := 512 * i + k;
      Divide(j, i, k, 512);
      Facts1(m, roots, owner, r, j);
      if !Valid(P1(m, r, j)) {
        SkipLow(m, roots, owner, r, j, 512 * i + 512);
        m1 := FreeMid(m, roots, owner, r, i, k + 1, t);
      } else {
        NotLeafy(m, roots, owner, r, j);
        FreeEntry1(m, roots, owner, r, j, t);
        var m2 := SetPte(Freed(m, Frame(P1(m, r, j))), t, k, 0);
        EntryFacts(m, m2, roots, r, i, k);
        m1 := FreeMid(m2, roots, NoLows(owner, r, j, j + 1), r, i, k + 1, t);
        SparedTwice(m, m2, m1, roots, owner, r, j, 512 * i + 512);
      }
    }
  }

  lemma NotLeafy(m: Mem, roots: set<nat>, owner: Owners, r: nat, j: nat)
    requires Owned(m, roots, owner) && r in roots && j < NJ && Valid(P1(m, r, j))
    ensures !Leafy(P1(m, r, j))
  {
    hide P0, P1, P2, Frame, Valid, Leafy, Owned;
    Entry1(m, roots, owner, r, j);
    PointerTo(0);
    PointerPlain(P1(m, r, j));
  }

  lemma PointerPlain(e: nat)
    requires IsPointer(e)
    ensures !Leafy(e)
  {
    hide Valid;
    var f := Frame(e);
    hide Frame;
    Divide(e, 512 * f, 1, 2);
    Divide(512 * f, 64 * f, 0, 8);
  }

  lemma FreeMidEnd(m: Mem, roots: set<nat>, owner: Owners, r: nat, i: nat)
    requires Owned(m, roots, owner) && i < NI && forall j :: 512 * i <= j < 512 * i + 512 ==> P1(m, r, j) == 0
    ensures NoLows(owner, r, 512 * i + 512, 512 * i + 512) == owner
    ensures Spared(m, m, roots, owner, r) && forall j :: 0 <= j < NJ && j / 512 == i ==> P1(m, r, j) == 0
  {
    hide P0, P1, P2, Owned;
  }

  lemma SkipLow(m: Mem, roots: set<nat>, owner: Owners, r: nat, j: nat, hi: nat)
    requires Owned(m, roots, owner) && r in roots && j < NJ && P1(m, r, j) == 0 && j < hi
    ensures NoLows(owner, r, j + 1, hi) == NoLows(owner, r, j, hi)
  {
    hide P0, P1, P2, Owned;
    NoPart(m, roots, owner, r, Low(j));
    forall g | g in owner ensures LowIn(owner[g], r, j + 1, hi) <==> LowIn(owner[g], r, j, hi) {
      assert owner[g] != Part(r, Low(j));
    }
  }

  lemma EntryFacts(m: Mem, m2: Mem, roots: set<nat>, r: nat, i: nat, k: nat)
    requires i < NI && k < 512 && OnlyEntry(m, m2, roots, r, Low(512 * i + k)) && P1(m2, r, 512 * i + k) == 0
    requires r in roots
    requires forall j :: 512 * i <= j < 512 * i + k ==> P1(m, r, j) == 0
    ensures forall s, x :: s in roots && 0 <= x < NI ==> P2(m2, s, x) == P2(m, s, x)
    ensures forall j :: 512 * i <= j < 512 * i + k + 1 ==> P1(m2, r, j) == 0
  {
    hide P0, P1, P2;
  }

  lemma SparedTwice(m: Mem, m2: Mem, m1: Mem, roots: set<nat>, owner: Owners, r: nat, j: nat, hi: nat)
    requires j < hi && Spared(m, m2, roots, NoLows(owner, r, j, j + 1), r)
    requires Spared(m2, m1, roots, NoLows(NoLows(owner, r, j, j + 1), r, j + 1, hi), r)
    ensures Spared(m, m1, roots, NoLows(owner, r, j, hi), r)
  {
    hide P0, P1, P2, Owned;
    assert NoLows(NoLows(owner, r, j, j + 1), r, j + 1, hi) == NoLows(owner, r, j, hi);
  }

  // ---- the root

  /** The owners without address space `r`. */
  ghost function Others(owner: Owners, r: nat): Owners {
    map g | g in owner && !(owner[g].Part? && owner[g].root == r) :: owner[g]
  }

  /** Address space `r` is gone, all others are as they were. */
  ghost predicate Gone(m: Mem, m': Mem, roots: set<nat>, owner: Owners, r: nat) {
    && Owned(m', roots - {r}, Others(owner, r)) && SameFlat(m, m', roots - {r}) && SameData(m, m', Others(owner, r))
    && |m'.page| == |m.page|
  }

  lemma RootGone(m: Mem, roots: set<nat>, owner: Owners, r: nat)
    requires Owned(m, roots, owner) && r in roots && forall i :: 0 <= i < NI ==> P2(m, r, i) == 0
    ensures r < |m.page| && Gone(m, Freed(m, r), roots, owner, r)
  {
    hide P0, P1, P2, FreeOk, Ent0, Ent1, Ent2;
    BareRoot(m, roots, owner, r);
    DropRoot(m, roots, owner, r);
    assert owner - {r} == Others(owner, r);
  }

  /** One entry of the root: its level-1 table and everything below it. */
  lemma FreeEntry2(m: Mem, roots: set<nat>, owner: Owners, r: nat, i: nat)
    returns (m2: Mem, owner2: Owners)
    requires Owned(m, roots, owner) && r in roots && i < NI && NoMaps(m, r) && Valid(P2(m, r, i))
    ensures var f := Frame(P2(m, r, i));
      && r < |m.page| && f < |m.page| && FreeFrom(m, f, 1, 0).Done?
      && m2 == SetPte(FreeFrom(m, f, 1, 0).m, r, i, 0)
    ensures Owned(m2, roots, owner2) && Others(owner2, r) == Others(owner, r) && NoMaps(m2, r)
    ensures SameFlat(m, m2, roots) && SameData(m, m2, Others(owner, r)) && |m2.page| == |m.page|
    ensures P2(m2, r, i) == 0 && forall x :: 0 <= x < NI && x != i ==> P2(m2, r, x) == P2(m, r, x)
  {
    hide Pte, P0, P1, P2, Frame, Valid, Owned, SameData, SetPte, Freed, FreeFrom;
    Facts2(m, roots, owner, r, i);
    var f := Frame(P2(m, r, i));
    var m1 := FreeMid(m, roots, owner, r, i, 0, f);
    var o1 := NoLows(owner, r, 512 * i, 512 * i + 512);
    DropMid(m1, roots, o1, r, i);
    m2, owner2 := SetPte(Freed(m1, f), r, i, 0), o1 - {f};
    EntryFlat2(m1, m2, roots, r, Mid(i));
    SameFlatTwice(m, m1, m2, roots);
    MidData(m, m1, m2, owner, r, i, f);
    Mids(m1, m2, roots, r, i);
  }

  lemma Mids(m1: Mem, m2: Mem, roots: set<nat>, r: nat, i: nat)
    requires OnlyEntry(m1, m2, roots, r, Mid(i)) && r in roots
    ensures forall x :: 0 <= x < NI && x != i ==> P2(m2, r, x) == P2(m1, r, x)
  {
    hide P0, P1, P2;
  }

  lemma MidData(m: Mem, m1: Mem, m2: Mem, owner: Owners, r: nat, i: nat, f: nat)
    requires r < |m1.page| && f < |m1.page| && i < NI && m2 == SetPte(Freed(m1, f), r, i, 0)
    requires r in owner && owner[r] == Part(r, Root)
    requires f in owner && owner[f] == Part(r, Mid(i)) && SameData(m, m1, NoLows(owner, r, 512 * i, 512 * i + 512))
    ensures SameData(m, m2, Others(owner, r))
    ensures Others(NoLows(owner, r, 512 * i, 512 * i + 512) - {f}, r) == Others(owner, r)
  {
    hide PutWord;
  }

  /** freewalk on an address space without mappings: it never meets a leaf, and afterwards
      the address space owns no frame, the others what they owned. */
  lemma {:induction false} FreewalkFrees(m: Mem, roots: set<nat>, owner: Owners, r: nat, i: nat)
    requires Owned(m, roots, owner) && r in roots && i <= NI && NoMaps(m, r)
    requires forall x :: 0 <= x < i ==> P2(m, r, x) == 0
    ensures r < |m.page| && FreeFrom(m, r, 2, i).Done? && Gone(m, FreeFrom(m, r, 2, i).m, roots, owner, r)
    decreases NI - i
  {
    hide Pte, P0, P1, P2, Frame, Valid, Owned, SameData, SetPte, Freed, Leafy, Gone;
    RootBound(m, roots, owner, r);
    if i == NI {
      RootGone(m, roots, owner, r);
    } else {
      Facts2(m, roots, owner, r, i);
      if !Valid(P2(m, r, i)) {
        FreewalkFrees(m, roots, owner, r, i + 1);
      } else {
        Plain2(m, roots, owner, r, i);
        var m2, owner2 := FreeEntry2(m, roots, owner, r, i);
        FreewalkFrees(m2, roots, owner2, r, i + 1);
        GoneThen(m, m2, FreeFrom(m2, r, 2, i + 1).m, roots, owner, owner2, r);
      }
    }
  }

  lemma Plain2(m: Mem, roots: set<nat>, owner: Owners, r: nat, i: nat)
    requires Owned(m, roots, owner) && r in roots && i < NI && Valid(P2(m, r, i))
    ensures !Leafy(P2(m, r, i))
  {
    hide P0, P1, P2, Frame, Valid, Leafy;
    assert Ent2(m, owner, r, i);
    PointerTo(0);
    PointerPlain(P2(m, r, i));
  }

  lemma GoneThen(m: Mem, m2: Mem, m': Mem, roots: set<nat>, owner: Owners, owner2: Owners, r: nat)
    requires Gone(m2, m', roots, owner2, r) && Others(owner2, r) == Others(owner, r)
    requires SameFlat(m, m2, roots) && SameData(m, m2, Others(owner, r)) && |m2.page| == |m.page|
    ensures Gone(m, m', roots, owner, r)
  {
    hide P0, Owned, Others;
  }
}
