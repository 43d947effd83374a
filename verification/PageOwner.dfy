/** Frame ownership is kept by each primitive change: kalloc, kfree, a new table, a leaf
    entry set or cleared, a table dropped (kernel/kalloc.c, kernel/vm.c). */
module PageOwner {
  import opened PageTable

  /** kalloc with memory left: the head of the free list, filled with junk. */
  function Taken(m: Mem): Mem
    requires m.free != [] && m.free[0] < |m.page|
  {
    SetPage(m, m.free[0], Filled(5)).(free := m.free[1..])
  }

  /** kfree: fill with junk and push. */
  function Freed(m: Mem, f: nat): (m': Mem)
    requires f < |m.page|
    ensures |m'.page| == |m.page|
  {
    SetPage(m, f, Filled(1)).(free := [f] + m.free)
  }

  ghost predicate PartsOk(m: Mem, roots: set<nat>, owner: Owners) {
    && (forall r :: r in roots ==> r in owner && owner[r] == Part(r, Root))
    && (forall f :: f in owner && owner[f].Part? ==> PartOk(m, roots, f, owner[f].root, owner[f].use))
  }

  ghost predicate EntsOk(m: Mem, roots: set<nat>, owner: Owners) {
    && (forall r, i :: r in roots && 0 <= i < NI ==> Ent2(m, owner, r, i))
    && (forall r, j :: r in roots && 0 <= j < NJ ==> Ent1(m, owner, r, j))
    && (forall r, v :: r in roots && 0 <= v < NV ==> Ent0(m, owner, r, v))
  }

  lemma OwnedParts(m: Mem, roots: set<nat>, owner: Owners)
    ensures Owned(m, roots, owner) <==>
      |m.page| <= 0x100_0000 && FreeOk(m.free, owner, |m.page|) && PartsOk(m, roots, owner) && EntsOk(m, roots, owner)
  {
    hide P0, P1, P2, FreeOk, Ent0, Ent1, Ent2, PartOk;
  }

  /** The entries of all tables but one are as they were. */
  ghost predicate OnlyEntry(m: Mem, m': Mem, roots: set<nat>, r: nat, use: Use) {
    && |m'.page| == |m.page|
    && (forall s, i :: s in roots && 0 <= i < NI ==> P2(m', s, i) == P2(m, s, i) || (s == r && use == Mid(i)))
    && (forall s, j :: s in roots && 0 <= j < NJ ==> P1(m', s, j) == P1(m, s, j) || (s == r && use == Low(j)))
    && (forall s, v :: s in roots && 0 <= v < NV ==> P0(m', s, v) == P0(m, s, v) || (s == r && use == Leaf(v)))
  }

  /** Frames that are not part of the address space in this very way keep their holder. */
  ghost predicate OnlyHolder(owner: Owners, owner': Owners, h: Holder) {
    && (forall f :: f in owner && owner[f].Part? && owner[f] != h ==> f in owner' && owner'[f] == owner[f])
    && (forall f :: f in owner' && owner'[f].Part? && owner'[f] != h ==> f in owner && owner'[f] == owner[f])
  }

  ghost predicate EntOk(m: Mem, owner: Owners, r: nat, use: Use) {
    match use
    case Root => true
    case Mid(i) => i < NI && Ent2(m, owner, r, i)
    case Low(j) => j < NJ && Ent1(m, owner, r, j)
    case Leaf(v) => v < NV && Ent0(m, owner, r, v)
  }

  lemma EntsKept(m: Mem, m': Mem, roots: set<nat>, owner: Owners, owner': Owners, r: nat, use: Use)
    requires EntsOk(m, roots, owner) && OnlyEntry(m, m', roots, r, use) && OnlyHolder(owner, owner', Part(r, use))
    requires EntOk(m', owner', r, use)
    ensures EntsOk(m', roots, owner')
  {
    hide P0, P1, P2;
    forall s, i | s in roots && 0 <= i < NI ensures Ent2(m', owner', s, i) {
      assert Ent2(m, owner, s, i);
    }
    forall s, j | s in roots && 0 <= j < NJ ensures Ent1(m', owner', s, j) {
      assert Ent1(m, owner, s, j);
    }
    forall s, v | s in roots && 0 <= v < NV ensures Ent0(m', owner', s, v) {
      assert Ent0(m, owner, s, v);
    }
  }

  lemma PartsKept(m: Mem, m': Mem, roots: set<nat>, owner: Owners, owner': Owners, r: nat, use: Use)
    requires PartsOk(m, roots, owner) && OnlyEntry(m, m', roots, r, use) && OnlyHolder(owner, owner', Part(r, use))
    requires use != Root && forall f :: f in owner' && owner'[f] == Part(r, use) ==> PartOk(m', roots, f, r, use)
    ensures PartsOk(m', roots, owner')
  {
    hide P0, P1, P2;
    forall f | f in owner' && owner'[f].Part? ensures PartOk(m', roots, f, owner'[f].root, owner'[f].use) {
      if owner'[f] != Part(r, use) {
        assert PartOk(m, roots, f, owner[f].root, owner[f].use);
      }
    }
  }

  /** One entry and its holder change together. */
  lemma Rewired(m: Mem, m': Mem, roots: set<nat>, owner: Owners, owner': Owners, r: nat, use: Use)
    requires Owned(m, roots, owner) && OnlyEntry(m, m', roots, r, use) && OnlyHolder(owner, owner', Part(r, use))
    requires EntOk(m', owner', r, use) && FreeOk(m'.free, owner', |m.page|)
    requires use != Root && forall f :: f in owner' && owner'[f] == Part(r, use) ==> PartOk(m', roots, f, r, use)
    ensures Owned(m', roots, owner')
  {
    hide Owned, PartsOk, EntsOk, OnlyEntry, OnlyHolder, FreeOk, PartOk, EntOk;
    OwnedParts(m, roots, owner);
    EntsKept(m, m', roots, owner, owner', r, use);
    PartsKept(m, m', roots, owner, owner', r, use);
    SamePages(m, m', roots, r, use);
    OwnedParts(m', roots, owner');
  }

  lemma SamePages(m: Mem, m': Mem, roots: set<nat>, r: nat, use: Use)
    requires OnlyEntry(m, m', roots, r, use)
    ensures |m'.page| == |m.page|
  {
  }

  /** With the tables as they were, a change of holder outside all address spaces keeps
      the invariant. */
  lemma SameParts(m: Mem, m': Mem, roots: set<nat>, owner: Owners, owner': Owners)
    requires PartsOk(m, roots, owner) && EntsOk(m, roots, owner) && SameTables(m, m', roots) && |m'.page| == |m.page|
    requires forall f :: f in owner && owner[f].Part? ==> f in owner' && owner'[f] == owner[f]
    requires forall f :: f in owner' && owner'[f].Part? ==> f in owner && owner'[f] == owner[f]
    ensures PartsOk(m', roots, owner') && EntsOk(m', roots, owner')
  {
    hide P0, P1, P2;
    forall s, i | s in roots && 0 <= i < NI ensures Ent2(m', owner', s, i) {
      assert Ent2(m, owner, s, i);
    }
    forall s, j | s in roots && 0 <= j < NJ ensures Ent1(m', owner', s, j) {
      assert Ent1(m, owner, s, j);
    }
    forall s, v | s in roots && 0 <= v < NV ensures Ent0(m', owner', s, v) {
      assert Ent0(m, owner, s, v);
    }
    forall f | f in owner' && owner'[f].Part? ensures PartOk(m', roots, f, owner'[f].root, owner'[f].use) {
      assert PartOk(m, roots, f, owner[f].root, owner[f].use);
    }
  }

  lemma OwnedSame(m: Mem, m': Mem, roots: set<nat>, owner: Owners)
    requires Owned(m, roots, owner) && SameTables(m, m', roots) && |m'.page| == |m.page| && m'.free == m.free
    ensures Owned(m', roots, owner)
  {
    hide Owned, PartsOk, EntsOk, SameTables, FreeOk;
    OwnedParts(m, roots, owner);
    OwnedParts(m', roots, owner);
    SameParts(m, m', roots, owner, owner);
  }

  lemma FreeTaken(free: seq<nat>, owner: Owners, n: nat)
    requires FreeOk(free, owner, n) && free != []
    ensures free[0] !in owner && free[0] < n && FreeOk(free[1..], owner[free[0] := Held], n)
  {
  }

  lemma TakenOwned(m: Mem, roots: set<nat>, owner: Owners)
    requires Owned(m, roots, owner) && m.free != []
    ensures m.free[0] < |m.page| && m.free[0] !in owner
    ensures Owned(Taken(m), roots, owner[m.free[0] := Held]) && SameTables(m, Taken(m), roots)
  {
    hide Owned, PartsOk, EntsOk, SameTables, FreeOk;
    OwnedParts(m, roots, owner);
    FreeTaken(m.free, owner, |m.page|);
    PageWrite(m, Taken(m), roots, owner, m.free[0]);
    SameParts(m, Taken(m), roots, owner, owner[m.free[0] := Held]);
    OwnedParts(Taken(m), roots, owner[m.free[0] := Held]);
  }

  lemma FreeMore(free: seq<nat>, owner: Owners, n: nat, f: nat)
    requires FreeOk(free, owner, n) && f in owner
    ensures f < n && FreeOk([f] + free, owner - {f}, n)
  {
    var free' := [f] + free;
    forall g | 0 <= g < n ensures g in owner - {f} || g in free' {
      if g == f {
        assert free'[0] == f;
      } else if g in free {
        var a :| 0 <= a < |free| && free[a] == g;
        assert free'[a + 1] == g;
      }
    }
  }

  lemma FreedOwned(m: Mem, roots: set<nat>, owner: Owners, f: nat)
    requires Owned(m, roots, owner) && f in owner && owner[f].Held?
    ensures f < |m.page| && Owned(Freed(m, f), roots, owner - {f}) && SameTables(m, Freed(m, f), roots)
  {
    hide Owned, PartsOk, EntsOk, SameTables, FreeOk;
    OwnedParts(m, roots, owner);
    FreeMore(m.free, owner, |m.page|, f);
    PageWrite(m, Freed(m, f), roots, owner, f);
    SameParts(m, Freed(m, f), roots, owner, owner - {f});
    OwnedParts(Freed(m, f), roots, owner - {f});
  }

  /** A page that is not a table may be overwritten. */
  lemma WriteOwned(m: Mem, roots: set<nat>, owner: Owners, f: nat, p: Page)
    requires Owned(m, roots, owner) && f in owner && NotTable(owner, f)
    ensures f < |m.page| && Owned(SetPage(m, f, p), roots, owner) && SameTables(m, SetPage(m, f, p), roots)
  {
    hide PartsOk, EntsOk, SameTables;
    PageWrite(m, SetPage(m, f, p), roots, owner, f);
    OwnedSame(m, SetPage(m, f, p), roots, owner);
  }

  lemma FreeOther(free: seq<nat>, owner: Owners, n: nat, f: nat, h: Holder)
    requires FreeOk(free, owner, n) && f in owner
    ensures FreeOk(free, owner[f := h], n)
  {
  }

  // ---- new tables

  lemma OnlyOne(owner: Owners, f: nat, h: Holder, g: Holder)
    requires f in owner && (owner[f].Held? || owner[f] == h) && (g == h || g.Held?)
    ensures OnlyHolder(owner, owner[f := g], h)
  {
  }

  /** No frame is part of an address space in a way that its tables do not show. */
  lemma NoPart(m: Mem, roots: set<nat>, owner: Owners, r: nat, use: Use)
    requires Owned(m, roots, owner) && r in roots
    requires use != Root && match use
      case Root => true
      case Mid(i) => i < NI && P2(m, r, i) == 0
      case Low(j) => j < NJ && P1(m, r, j) == 0
      case Leaf(v) => v < NV && P0(m, r, v) == 0
    ensures forall f :: f in owner ==> owner[f] != Part(r, use)
  {
    hide P0, P1, P2;
    forall f | f in owner ensures owner[f] != Part(r, use) {
      assert owner[f].Part? ==> PartOk(m, roots, f, owner[f].root, owner[f].use);
    }
  }

  lemma LowOwned(m: Mem, roots: set<nat>, owner: Owners, r: nat, j: nat, f: nat)
    requires Owned(m, roots, owner) && r in roots && j < NJ && Valid(P2(m, r, j / 512)) && P1(m, r, j) == 0
    requires f in owner && owner[f].Held? && f < |m.page| && m.page[f] == Filled(0)
    ensures Frame(P2(m, r, j / 512)) < |m.page|
    ensures var m' := SetPte(m, Frame(P2(m, r, j / 512)), j % 512, 1024 * f + 1);
      Owned(m', roots, owner[f := Part(r, Low(j))]) && OnlyEntry(m, m', roots, r, Low(j))
        && P1(m', r, j) == 1024 * f + 1
  {
    hide SetPte, P0, P1, P2, Owned, FreeOk, Frame, Valid;
    PointerTo(f);
    LowAdded(m, roots, owner, r, j, f);
    FreeIs(m, roots, owner);
    FreeOther(m.free, owner, |m.page|, f, Part(r, Low(j)));
    OnlyOne(owner, f, Part(r, Low(j)), Part(r, Low(j)));
    NoPart(m, roots, owner, r, Low(j));
    Rewired(m, SetPte(m, Frame(P2(m, r, j / 512)), j % 512, 1024 * f + 1), roots, owner, owner[f := Part(r, Low(j))], r,
            Low(j));
  }

  lemma FreeIs(m: Mem, roots: set<nat>, owner: Owners)
    requires Owned(m, roots, owner)
    ensures FreeOk(m.free, owner, |m.page|) && |m.page| <= 0x100_0000
  {
  }

  lemma MidOwned(m: Mem, roots: set<nat>, owner: Owners, r: nat, i: nat, f: nat)
    requires Owned(m, roots, owner) && r in roots && i < NI && P2(m, r, i) == 0
    requires f in owner && owner[f].Held? && f < |m.page| && m.page[f] == Filled(0)
    ensures r < |m.page|
    ensures var m' := SetPte(m, r, i, 1024 * f + 1);
      Owned(m', roots, owner[f := Part(r, Mid(i))]) && OnlyEntry(m, m', roots, r, Mid(i))
        && P2(m', r, i) == 1024 * f + 1
  {
    hide SetPte, P0, P1, P2, Owned, FreeOk, Frame, Valid;
    PointerTo(f);
    MidAdded(m, roots, owner, r, i, f);
    FreeIs(m, roots, owner);
    FreeOther(m.free, owner, |m.page|, f, Part(r, Mid(i)));
    OnlyOne(owner, f, Part(r, Mid(i)), Part(r, Mid(i)));
    NoPart(m, roots, owner, r, Mid(i));
    Rewired(m, SetPte(m, r, i, 1024 * f + 1), roots, owner, owner[f := Part(r, Mid(i))], r, Mid(i));
  }

  // ---- leaf entries

  /** The flat map after one page of one address space has got a new entry. */
  ghost predicate LeafOnly(m: Mem, m': Mem, roots: set<nat>, r: nat, v: nat, pte: nat) {
    v < NV && OnlyEntry(m, m', roots, r, Leaf(v)) && P0(m', r, v) == pte
  }

  /** A held frame is mapped at an unmapped page. */
  lemma MapOwned(m: Mem, roots: set<nat>, owner: Owners, r: nat, v: nat, pte: nat)
    requires Owned(m, roots, owner) && r in roots && v < TRAPFRAME && Valid(P1(m, r, v / 512)) && P0(m, r, v) == 0
    requires Valid(pte) && Leafy(pte) && Frame(pte) in owner && owner[Frame(pte)].Held?
    ensures Frame(P1(m, r, v / 512)) < |m.page|
    ensures var m' := SetPte(m, Frame(P1(m, r, v / 512)), v % 512, pte);
      Owned(m', roots, owner[Frame(pte) := Part(r, Leaf(v))]) && LeafOnly(m, m', roots, r, v, pte)
  {
    hide SetPte, P0, P1, P2, Owned, FreeOk;
    FreeIs(m, roots, owner);
    var f := Frame(pte);
    FrameBound(m.free, owner, |m.page|, f);
    LeafSet(m, roots, owner, r, v, pte);
    FreeOther(m.free, owner, |m.page|, f, Part(r, Leaf(v)));
    OnlyOne(owner, f, Part(r, Leaf(v)), Part(r, Leaf(v)));
    NoPart(m, roots, owner, r, Leaf(v));
    Rewired(m, SetPte(m, Frame(P1(m, r, v / 512)), v % 512, pte), roots, owner, owner[f := Part(r, Leaf(v))], r,
            Leaf(v));
  }

  lemma FrameBound(free: seq<nat>, owner: Owners, n: nat, f: nat)
    requires FreeOk(free, owner, n) && f in owner
    ensures f < n
  {
  }

  /** The trampoline and trapframe pages belong to nobody's leaves. */
  lemma MapTopOwned(m: Mem, roots: set<nat>, owner: Owners, r: nat, v: nat, pte: nat)
    requires Owned(m, roots, owner) && r in roots && TRAPFRAME <= v < MAXVPN && Valid(P1(m, r, v / 512))
    requires pte == 0 || (Valid(pte) && Leafy(pte) && Frame(pte) < |m.page| && !UserBit(pte))
    ensures Frame(P1(m, r, v / 512)) < |m.page|
    ensures var m' := SetPte(m, Frame(P1(m, r, v / 512)), v % 512, pte);
      Owned(m', roots, owner) && LeafOnly(m, m', roots, r, v, pte)
  {
    hide SetPte, P0, P1, P2, Owned, FreeOk;
    FreeIs(m, roots, owner);
    LeafSet(m, roots, owner, r, v, pte);
    NoTop(m, roots, owner, r, v);
    Rewired(m, SetPte(m, Frame(P1(m, r, v / 512)), v % 512, pte), roots, owner, owner, r, Leaf(v));
  }

  lemma NoTop(m: Mem, roots: set<nat>, owner: Owners, r: nat, v: nat)
    requires Owned(m, roots, owner) && v >= TRAPFRAME
    ensures forall f :: f in owner ==> owner[f] != Part(r, Leaf(v))
  {
    hide P0, P1, P2;
    forall f | f in owner ensures owner[f] != Part(r, Leaf(v)) {
      assert owner[f].Part? ==> PartOk(m, roots, f, owner[f].root, owner[f].use);
    }
  }

  /** A mapped page has its table and its frame. */
  lemma MappedFacts(m: Mem, roots: set<nat>, owner: Owners, r: nat, v: nat)
    requires Owned(m, roots, owner) && r in roots && v < NV && P0(m, r, v) != 0
    ensures Valid(P1(m, r, v / 512)) && Valid(P0(m, r, v)) && Leafy(P0(m, r, v)) && v < MAXVPN
    ensures Frame(P0(m, r, v)) < |m.page|
    ensures var f := Frame(P0(m, r, v)); v < TRAPFRAME ==> f in owner && owner[f] == Part(r, Leaf(v))
    ensures v >= TRAPFRAME ==> !UserBit(P0(m, r, v))
  {
    assert Ent0(m, owner, r, v);
  }

  /** A page is unmapped and its frame held again. */
  lemma UnmapOwned(m: Mem, roots: set<nat>, owner: Owners, r: nat, v: nat)
    requires Owned(m, roots, owner) && r in roots && v < TRAPFRAME && P0(m, r, v) != 0
    ensures Valid(P1(m, r, v / 512)) && Frame(P1(m, r, v / 512)) < |m.page|
    ensures var f, m' := Frame(P0(m, r, v)), SetPte(m, Frame(P1(m, r, v / 512)), v % 512, 0);
      && f in owner && owner[f] == Part(r, Leaf(v))
      && Owned(m', roots, owner[f := Held]) && LeafOnly(m, m', roots, r, v, 0)
  {
    hide SetPte, P0, P1, P2, Owned, FreeOk;
    MappedFacts(m, roots, owner, r, v);
    FreeIs(m, roots, owner);
    LeafSet(m, roots, owner, r, v, 0);
    var f := Frame(P0(m, r, v));
    FreeOther(m.free, owner, |m.page|, f, Held);
    OnlyOne(owner, f, Part(r, Leaf(v)), Held);
    OneLeaf(m, roots, owner, r, v);
    Rewired(m, SetPte(m, Frame(P1(m, r, v / 512)), v % 512, 0), roots, owner, owner[f := Held], r, Leaf(v));
  }

  /** One frame only holds a given page. */
  lemma OneLeaf(m: Mem, roots: set<nat>, owner: Owners, r: nat, v: nat)
    requires Owned(m, roots, owner) && v < NV
    ensures forall f :: f in owner && owner[f] == Part(r, Leaf(v)) ==> f == Frame(P0(m, r, v)) && P0(m, r, v) != 0
  {
    hide P0, P1, P2;
    forall f | f in owner && owner[f] == Part(r, Leaf(v)) ensures f == Frame(P0(m, r, v)) && P0(m, r, v) != 0 {
      assert PartOk(m, roots, f, r, Leaf(v));
    }
  }

  /** The flags of a mapped page are changed. */
  lemma FlagsOwned(m: Mem, roots: set<nat>, owner: Owners, r: nat, v: nat, pte: nat)
    requires Owned(m, roots, owner) && r in roots && v < NV && P0(m, r, v) != 0
    requires Valid(pte) && Leafy(pte) && Frame(pte) == Frame(P0(m, r, v)) && (UserBit(pte) ==> UserBit(P0(m, r, v)))
    ensures Valid(P1(m, r, v / 512)) && Frame(P1(m, r, v / 512)) < |m.page|
    ensures var m' := SetPte(m, Frame(P1(m, r, v / 512)), v % 512, pte);
      Owned(m', roots, owner) && LeafOnly(m, m', roots, r, v, pte)
  {
    hide SetPte, P0, P1, P2, Owned, FreeOk;
    MappedFacts(m, roots, owner, r, v);
    FreeIs(m, roots, owner);
    LeafSet(m, roots, owner, r, v, pte);
    OneLeaf(m, roots, owner, r, v);
    PartBound(m, roots, owner, r, v);
    Rewired(m, SetPte(m, Frame(P1(m, r, v / 512)), v % 512, pte), roots, owner, owner, r, Leaf(v));
  }

  lemma PartBound(m: Mem, roots: set<nat>, owner: Owners, r: nat, v: nat)
    requires Owned(m, roots, owner)
    ensures forall f :: f in owner && owner[f] == Part(r, Leaf(v)) ==> r in roots && v < TRAPFRAME
  {
    hide P0, P1, P2;
    forall f | f in owner && owner[f] == Part(r, Leaf(v)) ensures r in roots && v < TRAPFRAME {
      assert PartOk(m, roots, f, r, Leaf(v));
    }
  }

  // ---- dropping tables

  /** Clearing the entry of a level-0 table that maps nothing. */
  lemma LowRemoved(m: Mem, roots: set<nat>, owner: Owners, r: nat, j: nat)
    requires Owned(m, roots, owner) && r in roots && j < NJ && Valid(P2(m, r, j / 512)) && Valid(P1(m, r, j))
    requires forall v :: 0 <= v < NV && v / 512 == j ==> P0(m, r, v) == 0
    ensures Frame(P2(m, r, j / 512)) < |m.page|
    ensures var m' := SetPte(m, Frame(P2(m, r, j / 512)), j % 512, 0);
      OnlyEntry(m, m', roots, r, Low(j)) && P1(m', r, j) == 0
  {
    hide Pte, SetPte;
    assert Ent2(m, owner, r, j / 512);
    var t := Frame(P2(m, r, j / 512));
    var m' := SetPte(m, t, j % 512, 0);
    forall s, i | s in roots && 0 <= i < NI ensures P2(m', s, i) == P2(m, s, i) {
      PteOfSet(m, t, j % 512, 0, s, i);
    }
    forall s, k | s in roots && 0 <= k < NJ ensures P1(m', s, k) == if s == r && k == j then 0 else P1(m, s, k) {
      var e := P2(m, s, k / 512);
      assert Ent2(m, owner, s, k / 512);
      if Valid(e) && Frame(e) < |m.page| {
        PteOfSet(m, t, j % 512, 0, Frame(e), k % 512);
      }
    }
    forall s, u | s in roots && 0 <= u < NV ensures P0(m', s, u) == P0(m, s, u) {
      var e := P1(m, s, u / 512);
      assert Ent1(m, owner, s, u / 512);
      if Valid(e) && Frame(e) < |m.page| {
        PteOfSet(m, t, j % 512, 0, Frame(e), u % 512);
      }
    }
  }

  lemma MidRemoved(m: Mem, roots: set<nat>, owner: Owners, r: nat, i: nat)
    requires Owned(m, roots, owner) && r in roots && i < NI && Valid(P2(m, r, i))
    requires forall j :: 0 <= j < NJ && j / 512 == i ==> P1(m, r, j) == 0
    ensures r < |m.page|
    ensures var m' := SetPte(m, r, i, 0); OnlyEntry(m, m', roots, r, Mid(i)) && P2(m', r, i) == 0
  {
    hide Pte, SetPte;
    var m' := SetPte(m, r, i, 0);
    forall s, k | s in roots && 0 <= k < NI ensures P2(m', s, k) == if s == r && k == i then 0 else P2(m, s, k) {
      PteOfSet(m, r, i, 0, s, k);
    }
    forall s, j | s in roots && 0 <= j < NJ ensures P1(m', s, j) == P1(m, s, j) {
      var e := P2(m, s, j / 512);
      assert Ent2(m, owner, s, j / 512);
      if Valid(e) && Frame(e) < |m.page| {
        PteOfSet(m, r, i, 0, Frame(e), j % 512);
      }
    }
    forall s, u | s in roots && 0 <= u < NV ensures P0(m', s, u) == P0(m, s, u) {
      var e := P1(m, s, u / 512);
      assert Ent1(m, owner, s, u / 512);
      if Valid(e) && Frame(e) < |m.page| {
        PteOfSet(m, r, i, 0, Frame(e), u % 512);
      }
    }
  }

  lemma OnePart(m: Mem, roots: set<nat>, owner: Owners, r: nat, use: Use, g: nat)
    requires Owned(m, roots, owner)
    requires match use
      case Root => false
      case Mid(i) => i < NI && Frame(P2(m, r, i)) == g
      case Low(j) => j < NJ && Frame(P1(m, r, j)) == g
      case Leaf(v) => false
    ensures forall f :: f in owner && owner[f] == Part(r, use) ==> f == g
  {
    hide P0, P1, P2;
    forall f | f in owner && owner[f] == Part(r, use) ensures f == g {
      assert PartOk(m, roots, f, r, use);
    }
  }

  /** freewalk frees a level-0 table and clears its entry. */
  lemma DropLow(m: Mem, roots: set<nat>, owner: Owners, r: nat, j: nat)
    requires Owned(m, roots, owner) && r in roots && j < NJ && Valid(P2(m, r, j / 512)) && Valid(P1(m, r, j))
    requires forall v :: 0 <= v < NV && v / 512 == j ==> P0(m, r, v) == 0
    ensures var t, f := Frame(P2(m, r, j / 512)), Frame(P1(m, r, j));
      && t < |m.page| && f < |m.page| && f in owner && owner[f] == Part(r, Low(j))
      && Owned(SetPte(Freed(m, f), t, j % 512, 0), roots, owner - {f})
      && OnlyEntry(m, SetPte(Freed(m, f), t, j % 512, 0), roots, r, Low(j))
      && P1(SetPte(Freed(m, f), t, j % 512, 0), r, j) == 0
  {
    hide P0, P1, P2, FreeOk, Ent2, Ent0, PartsOk, EntsOk;
    TableOwner(m, roots, owner, r, 512 * j);
    assert 512 * j / 512 == j && 512 * j / 0x4_0000 == j / 512;
    LowRemoved(m, roots, owner, r, j);
    var t, f := Frame(P2(m, r, j / 512)), Frame(P1(m, r, j));
    var m1 := SetPte(m, t, j % 512, 0);
    FreeOther(m.free, owner, |m.page|, f, Held);
    OnlyOne(owner, f, Part(r, Low(j)), Held);
    OnePart(m, roots, owner, r, Low(j), f);
    Rewired(m, m1, roots, owner, owner[f := Held], r, Low(j));
    FreedOwned(m1, roots, owner[f := Held], f);
    assert owner[f := Held] - {f} == owner - {f};
    assert Freed(m1, f) == SetPte(Freed(m, f), t, j % 512, 0);
    OnlyEntryThen(m, m1, Freed(m1, f), roots, r, Low(j));
  }

  lemma OnlyEntryThen(m: Mem, m1: Mem, m2: Mem, roots: set<nat>, r: nat, use: Use)
    requires OnlyEntry(m, m1, roots, r, use) && SameTables(m1, m2, roots) && |m2.page| == |m1.page|
    ensures OnlyEntry(m, m2, roots, r, use)
  {
    hide P0, P1, P2;
  }

  /** freewalk frees a level-1 table and clears its entry. */
  lemma DropMid(m: Mem, roots: set<nat>, owner: Owners, r: nat, i: nat)
    requires Owned(m, roots, owner) && r in roots && i < NI && Valid(P2(m, r, i))
    requires forall j :: 0 <= j < NJ && j / 512 == i ==> P1(m, r, j) == 0
    ensures var f := Frame(P2(m, r, i));
      && r < |m.page| && f < |m.page| && f in owner && owner[f] == Part(r, Mid(i))
      && Owned(SetPte(Freed(m, f), r, i, 0), roots, owner - {f})
      && OnlyEntry(m, SetPte(Freed(m, f), r, i, 0), roots, r, Mid(i))
      && P2(SetPte(Freed(m, f), r, i, 0), r, i) == 0
  {
    hide P0, P1, P2, FreeOk, Ent1, Ent0, PartsOk, EntsOk;
    TableOwner(m, roots, owner, r, 0x4_0000 * i);
    assert 0x4_0000 * i / 0x4_0000 == i;
    MidRemoved(m, roots, owner, r, i);
    var f := Frame(P2(m, r, i));
    var m1 := SetPte(m, r, i, 0);
    FreeOther(m.free, owner, |m.page|, f, Held);
    OnlyOne(owner, f, Part(r, Mid(i)), Held);
    OnePart(m, roots, owner, r, Mid(i), f);
    Rewired(m, m1, roots, owner, owner[f := Held], r, Mid(i));
    FreedOwned(m1, roots, owner[f := Held], f);
    assert owner[f := Held] - {f} == owner - {f};
    assert Freed(m1, f) == SetPte(Freed(m, f), r, i, 0);
    OnlyEntryThen(m, m1, Freed(m1, f), roots, r, Mid(i));
  }

  /** An address space without tables is only its root page. */
  lemma BareRoot(m: Mem, roots: set<nat>, owner: Owners, r: nat)
    requires Owned(m, roots, owner) && r in roots && forall i :: 0 <= i < NI ==> P2(m, r, i) == 0
    ensures forall f :: f in owner && owner[f].Part? && owner[f].root == r ==> f == r
  {
    forall f | f in owner && owner[f].Part? && owner[f].root == r ensures f == r {
      assert PartOk(m, roots, f, r, owner[f].use);
      hide Pte;
      assert forall j :: 0 <= j < NJ ==> P1(m, r, j) == 0;
      assert forall v :: 0 <= v < NV ==> P0(m, r, v) == 0;
    }
  }

  /** freewalk frees the root: the address space is gone. */
  lemma DropRoot(m: Mem, roots: set<nat>, owner: Owners, r: nat)
    requires Owned(m, roots, owner) && r in roots && forall i :: 0 <= i < NI ==> P2(m, r, i) == 0
    ensures r < |m.page| && r in owner && Owned(Freed(m, r), roots - {r}, owner - {r})
    ensures SameTables(m, Freed(m, r), roots - {r})
  {
    hide P0, P1, P2, FreeOk, SameTables, Ent0, Ent1, Ent2;
    BareRoot(m, roots, owner, r);
    var rest, o := roots - {r}, owner[r := Held];
    FreeOther(m.free, owner, |m.page|, r, Held);
    forall f | f in o && o[f].Part? ensures PartOk(m, rest, f, o[f].root, o[f].use) {
      assert PartOk(m, roots, f, owner[f].root, owner[f].use);
    }
    RestEnts(m, roots, owner, r);
    assert Owned(m, rest, o);
    FreedOwned(m, rest, o, r);
    assert o - {r} == owner - {r};
  }

  lemma RestEnts(m: Mem, roots: set<nat>, owner: Owners, r: nat)
    requires EntsOk(m, roots, owner) && r in owner && owner[r].Part? && owner[r] == Part(r, Root)
    ensures EntsOk(m, roots - {r}, owner[r := Held])
  {
    hide P0, P1, P2;
    var o := owner[r := Held];
    forall s, i | s in roots - {r} && 0 <= i < NI ensures Ent2(m, o, s, i) {
      assert Ent2(m, owner, s, i);
    }
    forall s, j | s in roots - {r} && 0 <= j < NJ ensures Ent1(m, o, s, j) {
      assert Ent1(m, owner, s, j);
    }
    forall s, v | s in roots - {r} && 0 <= v < NV ensures Ent0(m, o, s, v) {
      assert Ent0(m, owner, s, v);
    }
  }

  /** uvmcreate: a held, zeroed page becomes the root of an empty address space. */
  lemma AddRoot(m: Mem, roots: set<nat>, owner: Owners, f: nat)
    requires Owned(m, roots, owner) && f in owner && owner[f].Held? && f < |m.page| && m.page[f] == Filled(0)
    ensures Owned(m, roots + {f}, owner[f := Part(f, Root)])
    ensures f !in roots && forall v :: 0 <= v < NV ==> P0(m, f, v) == 0
  {
    var o, all := owner[f := Part(f, Root)], roots + {f};
    forall i | 0 <= i < NI ensures P2(m, f, i) == 0 {
      PteOfZero(m, f, i);
    }
    hide Pte;
    assert forall j :: 0 <= j < NJ ==> P1(m, f, j) == 0;
    assert forall v :: 0 <= v < NV ==> P0(m, f, v) == 0;
    hide P0, P1, P2, FreeOk;
    FreeOther(m.free, owner, |m.page|, f, Part(f, Root));
    forall g | g in o && o[g].Part? ensures PartOk(m, all, g, o[g].root, o[g].use) {
      if g != f {
        assert PartOk(m, roots, g, owner[g].root, owner[g].use);
      }
    }
    forall s, i | s in all && 0 <= i < NI ensures Ent2(m, o, s, i) {
      assert s != f ==> Ent2(m, owner, s, i);
    }
    forall s, j | s in all && 0 <= j < NJ ensures Ent1(m, o, s, j) {
      assert s != f ==> Ent1(m, owner, s, j);
    }
    forall s, v | s in all && 0 <= v < NV ensures Ent0(m, o, s, v) {
      assert s != f ==> Ent0(m, owner, s, v);
    }
  }
}
