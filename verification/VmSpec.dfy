/** The routines of kernel/vm.c as functions of physical memory, and what they do to the
    flat map from pages to frames and to the ownership of frames. */
module VmSpec {
  import opened Bytes
  import opened PageTable
  import opened PageOwner

  // ---- walk

  /** The table page that holds the entry asked for, or none. */
  datatype Walked = Slot(m: Mem, t: nat) | Missing(m: Mem)

  /** kalloc, and the new page filled by memset or memmove. */
  function Loaded(m: Mem, c: Page): (m': Mem)
    requires m.free != [] && m.free[0] < |m.page|
    ensures |m'.page| == |m.page|
  {
    SetPage(Taken(m), m.free[0], c)
  }

  function Zeroed(m: Mem): (m': Mem)
    requires m.free != [] && m.free[0] < |m.page|
    ensures |m'.page| == |m.page|
  {
    Loaded(m, Filled(0))
  }

  /** One level of walk: follow the entry, or allocate a table for it. */
  function WalkStep(m: Mem, t: nat, k: nat, alloc: bool): (w: Walked)
    requires t < |m.page| && k < 512
    ensures |w.m.page| == |m.page| && (w.Slot? ==> w.t < |m.page|)
  {
    var e := Pte(m, t, k);
    if Valid(e) then if Frame(e) < |m.page| then Slot(m, Frame(e)) else Missing(m)
    else if !alloc || m.free == [] || m.free[0] >= |m.page| then Missing(m)
    else Slot(SetPte(Zeroed(m), t, k, 1024 * m.free[0] + 1), m.free[0])
  }

  /** walk for virtual page `v`: levels 2 and 1; the entry is at index v % 512. */
  function Walk(m: Mem, r: nat, v: nat, alloc: bool): (w: Walked)
    requires r < |m.page| && v < MAXVPN
    ensures |w.m.page| == |m.page| && (w.Slot? ==> w.t < |m.page|)
  {
    var w := WalkStep(m, r, v / 0x4_0000, alloc);
    if w.Missing? then w else WalkStep(w.m, w.t, v / 512 % 512, alloc)
  }

  // ---- what may change besides

  /** The flat maps of all address spaces are as they were. */
  ghost predicate SameFlat(m: Mem, m': Mem, roots: set<nat>) {
    forall s, v :: s in roots && 0 <= v < NV ==> P0(m', s, v) == P0(m, s, v)
  }

  /** Pages that are not tables hold what they held. */
  ghost predicate SameData(m: Mem, m': Mem, owner: Owners) {
    |m'.page| == |m.page| && forall f :: f in owner && f < |m.page| && NotTable(owner, f) ==> m'.page[f] == m.page[f]
  }

  /** Address space `r` has got more table pages, nothing else changed hands. */
  ghost predicate MoreTables(owner: Owners, owner': Owners, r: nat) {
    && (forall f :: f in owner ==> f in owner' && owner'[f] == owner[f])
    && (forall f :: f in owner' ==>
          f in owner || (owner'[f].Part? && owner'[f].root == r && (owner'[f].use.Mid? || owner'[f].use.Low?)))
  }

  lemma SameFlatTwice(m: Mem, m1: Mem, m2: Mem, roots: set<nat>)
    requires SameFlat(m, m1, roots) && SameFlat(m1, m2, roots)
    ensures SameFlat(m, m2, roots)
  {
    hide P0;
  }

  lemma SameDataTwice(m: Mem, m1: Mem, m2: Mem, owner: Owners, owner1: Owners, r: nat)
    requires SameData(m, m1, owner) && SameData(m1, m2, owner1) && MoreTables(owner, owner1, r)
    ensures SameData(m, m2, owner)
  {
  }

  lemma MoreTablesTwice(o: Owners, o1: Owners, o2: Owners, r: nat)
    requires MoreTables(o, o1, r) && MoreTables(o1, o2, r)
    ensures MoreTables(o, o2, r)
  {
  }

  lemma NoMore(m: Mem, roots: set<nat>, owner: Owners, r: nat)
    ensures SameFlat(m, m, roots) && SameData(m, m, owner) && MoreTables(owner, owner, r)
  {
  }

  // ---- walk's promises

  lemma LoadedOwned(m: Mem, roots: set<nat>, owner: Owners, c: Page)
    requires Owned(m, roots, owner) && m.free != []
    ensures m.free[0] < |m.page| && m.free[0] !in owner
    ensures Owned(Loaded(m, c), roots, owner[m.free[0] := Held]) && SameTables(m, Loaded(m, c), roots)
    ensures SameData(m, Loaded(m, c), owner) && Loaded(m, c).page[m.free[0]] == c
  {
    hide Owned, SameTables, P0, P1, P2, Filled;
    TakenOwned(m, roots, owner);
    WriteOwned(Taken(m), roots, owner[m.free[0] := Held], m.free[0], c);
    SameTablesTwice(m, Taken(m), Loaded(m, c), roots);
  }

  lemma ZeroedOwned(m: Mem, roots: set<nat>, owner: Owners)
    requires Owned(m, roots, owner) && m.free != []
    ensures m.free[0] < |m.page| && m.free[0] !in owner
    ensures Owned(Zeroed(m), roots, owner[m.free[0] := Held]) && SameTables(m, Zeroed(m), roots)
    ensures SameData(m, Zeroed(m), owner) && Zeroed(m).page[m.free[0]] == Filled(0)
  {
    hide Owned, SameTables, SameData, Filled, Loaded;
    LoadedOwned(m, roots, owner, Filled(0));
  }

  lemma SameTablesTwice(m: Mem, m1: Mem, m2: Mem, roots: set<nat>)
    requires SameTables(m, m1, roots) && SameTables(m1, m2, roots)
    ensures SameTables(m, m2, roots)
  {
    hide P0, P1, P2;
  }

  lemma EntryFlat(m: Mem, m1: Mem, m2: Mem, roots: set<nat>, r: nat, use: Use)
    requires SameTables(m, m1, roots) && OnlyEntry(m1, m2, roots, r, use) && !use.Leaf?
    ensures SameFlat(m, m2, roots)
  {
    hide P0, P1, P2;
  }

  lemma SetData(m: Mem, owner: Owners, t: nat, k: nat, pte: nat, f: nat, h: Holder)
    requires t < |m.page| && k < 512 && t in owner && !NotTable(owner, t) && f !in owner
    ensures SameData(m, SetPte(m, t, k, pte), owner)
  {
    hide PutWord;
  }

  /** What a level of walk achieves. */
  ghost predicate Stepped(m: Mem, m': Mem, roots: set<nat>, owner: Owners, owner': Owners, r: nat) {
    Owned(m', roots, owner') && SameFlat(m, m', roots) && SameData(m, m', owner) && MoreTables(owner, owner', r)
  }

  lemma SteppedTwice(m: Mem, m1: Mem, m2: Mem, roots: set<nat>, o: Owners, o1: Owners, o2: Owners, r: nat)
    requires Stepped(m, m1, roots, o, o1, r) && Stepped(m1, m2, roots, o1, o2, r)
    ensures Stepped(m, m2, roots, o, o2, r)
  {
    hide Owned, SameFlat, SameData, MoreTables;
    SameFlatTwice(m, m1, m2, roots);
    SameDataTwice(m, m1, m2, o, o1, r);
    MoreTablesTwice(o, o1, o2, r);
  }

  lemma Facts2(m: Mem, roots: set<nat>, owner: Owners, r: nat, i: nat)
    requires Owned(m, roots, owner) && r in roots && i < NI
    ensures r < |m.page| && r in owner && owner[r] == Part(r, Root) && P2(m, r, i) == Pte(m, r, i)
    ensures Valid(P2(m, r, i)) ==>
              var t := Frame(P2(m, r, i)); t < |m.page| && t in owner && owner[t] == Part(r, Mid(i))
    ensures !Valid(P2(m, r, i)) ==> P2(m, r, i) == 0
    ensures m.free != [] ==> m.free[0] < |m.page|
  {
    assert Ent2(m, owner, r, i);
  }

  /** A new level-1 table. */
  lemma NewMid(m: Mem, roots: set<nat>, owner: Owners, r: nat, i: nat)
    requires Owned(m, roots, owner) && r in roots && i < NI && P2(m, r, i) == 0 && m.free != []
    requires r in owner && owner[r] == Part(r, Root) && r < |m.page|
    ensures var f := m.free[0];
      && f < |m.page|
      && var m2 := SetPte(Zeroed(m), r, i, 1024 * f + 1);
      Stepped(m, m2, roots, owner, owner[f := Held][f := Part(r, Mid(i))], r) && P2(m2, r, i) == 1024 * f + 1
  {
    hide Owned, SameFlat, SameData, MoreTables, P0, P1, P2, Pte, SetPte, Zeroed;
    ZeroedOwned(m, roots, owner);
    var f, o1 := m.free[0], owner[m.free[0] := Held];
    var m1 := Zeroed(m);
    var m2 := SetPte(m1, r, i, 1024 * f + 1);
    MidOwned(m1, roots, o1, r, i, f);
    EntryFlat(m, m1, m2, roots, r, Mid(i));
    StepData(m, m1, m2, roots, owner, r, i, f, r, Mid(i));
  }

  lemma Step2(m: Mem, roots: set<nat>, owner: Owners, r: nat, i: nat, alloc: bool)
    returns (owner': Owners)
    requires Owned(m, roots, owner) && r in roots && i < NI
    ensures r < |m.page| && Stepped(m, WalkStep(m, r, i, alloc).m, roots, owner, owner', r)
    ensures var w := WalkStep(m, r, i, alloc);
      && (w.Slot? ==> Valid(P2(w.m, r, i)) && w.t == Frame(P2(w.m, r, i)))
      && (w.Missing? ==> w.m == m && P2(m, r, i) == 0 && (alloc ==> m.free == []))
      && (!alloc ==> w.m == m && owner' == owner)
  {
    hide Owned, SameFlat, SameData, MoreTables, P0, P1, P2, Pte, SetPte, Zeroed, Frame, Valid;
    NoMore(m, roots, owner, r);
    Facts2(m, roots, owner, r, i);
    owner' := owner;
    if !Valid(P2(m, r, i)) && alloc && m.free != [] {
      NewMid(m, roots, owner, r, i);
      PointerTo(m.free[0]);
      owner' := owner[m.free[0] := Held][m.free[0] := Part(r, Mid(i))];
    }
  }

  lemma Facts1(m: Mem, roots: set<nat>, owner: Owners, r: nat, j: nat)
    requires Owned(m, roots, owner) && r in roots && j < NJ && Valid(P2(m, r, j / 512))
    ensures var t := Frame(P2(m, r, j / 512));
      t < |m.page| && t in owner && owner[t] == Part(r, Mid(j / 512)) && P1(m, r, j) == Pte(m, t, j % 512)
    ensures Valid(P1(m, r, j)) ==> Frame(P1(m, r, j)) < |m.page|
    ensures !Valid(P1(m, r, j)) ==> P1(m, r, j) == 0
    ensures m.free != [] ==> m.free[0] < |m.page|
  {
    hide Pte, P2, FreeOk, Owned, Frame, Valid;
    PointerTo(0);
    Facts2(m, roots, owner, r, j / 512);
    Entry1(m, roots, owner, r, j);
  }

  lemma Entry1(m: Mem, roots: set<nat>, owner: Owners, r: nat, j: nat)
    requires Owned(m, roots, owner) && r in roots && j < NJ
    ensures Ent1(m, owner, r, j) && forall f :: f in owner ==> f < |m.page|
  {
    hide P0, P1, P2;
  }

  /** A new level-0 table. */
  lemma NewLow(m: Mem, roots: set<nat>, owner: Owners, r: nat, j: nat, t: nat)
    requires Owned(m, roots, owner) && r in roots && j < NJ && Valid(P2(m, r, j / 512)) && t == Frame(P2(m, r, j / 512))
    requires P1(m, r, j) == 0 && m.free != [] && t in owner && owner[t] == Part(r, Mid(j / 512)) && t < |m.page|
    ensures var f := m.free[0];
      && f < |m.page|
      && var m2 := SetPte(Zeroed(m), t, j % 512, 1024 * f + 1);
      Stepped(m, m2, roots, owner, owner[f := Held][f := Part(r, Low(j))], r) && P1(m2, r, j) == 1024 * f + 1
  {
    hide Owned, SameFlat, SameData, MoreTables, P0, P1, P2, Pte, SetPte, Zeroed;
    ZeroedOwned(m, roots, owner);
    var f, o1 := m.free[0], owner[m.free[0] := Held];
    var m1 := Zeroed(m);
    var m2 := SetPte(m1, t, j % 512, 1024 * f + 1);
    LowOwned(m1, roots, o1, r, j, f);
    EntryFlat(m, m1, m2, roots, r, Low(j));
    StepData(m, m1, m2, roots, owner, t, j % 512, f, r, Low(j));
  }

  lemma Step1(m: Mem, roots: set<nat>, owner: Owners, r: nat, j: nat, alloc: bool)
    returns (owner': Owners)
    requires Owned(m, roots, owner) && r in roots && j < NJ && Valid(P2(m, r, j / 512))
    ensures Frame(P2(m, r, j / 512)) < |m.page|
    ensures var w := WalkStep(m, Frame(P2(m, r, j / 512)), j % 512, alloc);
      && Stepped(m, w.m, roots, owner, owner', r)
      && (w.Slot? ==> Valid(P1(w.m, r, j)) && w.t == Frame(P1(w.m, r, j)))
      && (w.Missing? ==> w.m == m && P1(m, r, j) == 0 && (alloc ==> m.free == []))
      && (!alloc ==> w.m == m && owner' == owner)
  {
    hide Owned, SameFlat, SameData, MoreTables, P0, P1, P2, Pte, SetPte, Zeroed, Frame, Valid;
    NoMore(m, roots, owner, r);
    Facts1(m, roots, owner, r, j);
    owner' := owner;
    if !Valid(P1(m, r, j)) && alloc && m.free != [] {
      NewLow(m, roots, owner, r, j, Frame(P2(m, r, j / 512)));
      PointerTo(m.free[0]);
      owner' := owner[m.free[0] := Held][m.free[0] := Part(r, Low(j))];
    }
  }

  lemma NoTableNoEntry(m: Mem, r: nat, v: nat)
    requires v < NV
    ensures P2(m, r, v / 0x4_0000) == 0 ==> P1(m, r, v / 512) == 0
    ensures P1(m, r, v / 512) == 0 ==> P0(m, r, v) == 0
    ensures v / 512 / 512 == v / 0x4_0000
  {
    hide Pte;
  }

  /** walk finds the table that holds the entry of page `v`.  Without `alloc` it changes
      nothing and fails only if there is no such table; with `alloc` it only adds
      tables, and fails only if memory has run out. */
  lemma WalkFinds(m: Mem, roots: set<nat>, owner: Owners, r: nat, v: nat, alloc: bool)
    returns (owner': Owners)
    requires Owned(m, roots, owner) && r in roots && v < MAXVPN
    ensures r < |m.page| && Stepped(m, Walk(m, r, v, alloc).m, roots, owner, owner', r)
    ensures var w := Walk(m, r, v, alloc);
      && (w.Slot? ==> Valid(P1(w.m, r, v / 512)) && w.t == Frame(P1(w.m, r, v / 512)))
      && (w.Missing? ==> P0(m, r, v) == 0 && (alloc ==> w.m.free == []))
      && (!alloc ==> w.m == m && owner' == owner)
  {
    hide Owned, Stepped, P0, P1, P2, WalkStep;
    NoTableNoEntry(m, r, v);
    owner' := Step2(m, roots, owner, r, v / 0x4_0000, alloc);
    var w := WalkStep(m, r, v / 0x4_0000, alloc);
    if w.Slot? {
      NoTableNoEntry(w.m, r, v);
      SteppedOwned(m, w.m, roots, owner, owner', r, v);
      var o2 := Step1(w.m, roots, owner', r, v / 512, alloc);
      SteppedTwice(m, w.m, WalkStep(w.m, w.t, v / 512 % 512, alloc).m, roots, owner, owner', o2, r);
      owner' := o2;
    }
  }

  lemma SteppedOwned(m: Mem, m': Mem, roots: set<nat>, owner: Owners, owner': Owners, r: nat, v: nat)
    requires Stepped(m, m', roots, owner, owner', r) && r in roots && v < NV
    ensures Owned(m', roots, owner') && P0(m', r, v) == P0(m, r, v)
  {
    hide P0, Owned;
  }

  lemma StepData(m: Mem, m1: Mem, m2: Mem, roots: set<nat>, owner: Owners, t: nat, k: nat, f: nat, r: nat, use: Use)
    requires t < |m1.page| && k < 512 && t in owner && !NotTable(owner, t) && f !in owner && SameData(m, m1, owner)
    requires m2 == SetPte(m1, t, k, 1024 * f + 1) && (use.Mid? || use.Low?)
    ensures SameData(m, m2, owner) && MoreTables(owner, owner[f := Held][f := Part(r, use)], r)
  {
    SetData(m1, owner, t, k, 1024 * f + 1, f, Held);
  }
}
