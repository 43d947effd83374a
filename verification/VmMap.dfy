/** mappages and uvmunmap (kernel/vm.c): the flat map gains or loses exactly the range
    given, and each frame changes hands accordingly. */
module VmMap {
  import opened Bytes
  import opened PageTable
  import opened PageOwner
  import opened VmSpec

  // ---- mappages

  datatype MapResult = Mapped(m: Mem) | NoMemory(m: Mem) | Remap

  /** A valid PTE for a frame: PA2PTE(pa) | perm | PTE_V. */
  function PteOf(f: nat, perm: nat): nat {
    1024 * f + if perm % 2 == 1 then perm else perm + 1
  }

  function MapOne(m: Mem, r: nat, v: nat, f: nat, perm: nat): (x: MapResult)
    requires r < |m.page| && v < MAXVPN
    ensures !x.Remap? ==> |x.m.page| == |m.page|
  {
    var w := Walk(m, r, v, true);
    if w.Missing? then NoMemory(w.m)
    else if Valid(Pte(w.m, w.t, v % 512)) then Remap
    else Mapped(SetPte(w.m, w.t, v % 512, PteOf(f, perm)))
  }

  /** The loop of mappages for `n` pages from `v` on, to frames from `f` on. */
  function Mappages(m: Mem, r: nat, v: nat, n: nat, f: nat, perm: nat): (x: MapResult)
    requires r < |m.page| && v + n <= MAXVPN
    ensures !x.Remap? ==> |x.m.page| == |m.page|
    decreases n
  {
    if n == 0 then Mapped(m)
    else
      var x := MapOne(m, r, v, f, perm);
      if x.Mapped? then Mappages(x.m, r, v + 1, n - 1, f + 1, perm) else x
  }

  /** Flags with which a page can be mapped: readable, writable or executable. */
  predicate PermOk(perm: nat) {
    perm < 1024 && perm / 2 % 8 != 0
  }

  lemma PteFacts(f: nat, perm: nat)
    requires PermOk(perm)
    ensures var e := PteOf(f, perm); Valid(e) && Leafy(e) && Frame(e) == f && e != 0 && e / 2 % 512 == perm / 2
  {
    var p := if perm % 2 == 1 then perm else perm + 1;
    assert p < 1024 && p % 2 == 1 && p / 2 == perm / 2 < 512;
    Bits(f, p);
  }

  lemma Bits(f: nat, p: nat)
    requires p < 1024
    ensures (1024 * f + p) / 1024 == f && (1024 * f + p) % 2 == p % 2
    ensures (1024 * f + p) / 2 % 512 == p / 2 && (1024 * f + p) / 2 % 8 == p / 2 % 8
  {
    var h := p / 2;
    Divide(1024 * f + p, f, p, 1024);
    Divide(1024 * f + p, 512 * f + h, p % 2, 2);
    Mod512(f, h);
  }

  lemma Mod512(f: nat, h: nat)
    requires h < 512
    ensures (512 * f + h) % 512 == h && (512 * f + h) % 8 == h % 8
  {
    Divide(512 * f + h, f, h, 512);
    Divide(512 * f + h, 64 * f + h / 8, h % 8, 8);
  }

  /** Owners after frames `f..f+k` have been mapped at pages `v..v+k` of address space
      `r`, which may have got new tables on the way. */
  ghost predicate HandedOver(owner: Owners, owner': Owners, r: nat, v: nat, f: nat, k: nat) {
    && (forall g :: g in owner ==>
          g in owner' && owner'[g] == if f <= g < f + k then Part(r, Leaf(v + (g - f))) else owner[g])
    && (forall g :: g in owner' ==>
          g in owner || (owner'[g].Part? && owner'[g].root == r && (owner'[g].use.Mid? || owner'[g].use.Low?)))
  }

  /** The flat map with pages `v..v+k` of `r` mapped to frames from `f` on. */
  ghost predicate FlatAdds(m: Mem, m': Mem, roots: set<nat>, r: nat, v: nat, k: nat, f: nat, perm: nat) {
    forall s, u :: s in roots && 0 <= u < NV ==>
      P0(m', s, u) == if s == r && v <= u < v + k then PteOf(f + (u - v), perm) else P0(m, s, u)
  }

  /** What mappages promises after `k` of its pages. */
  ghost predicate Adds(m: Mem, m': Mem, roots: set<nat>, owner: Owners, owner': Owners,
                       r: nat, v: nat, k: nat, f: nat, perm: nat)
  {
    && Owned(m', roots, owner') && FlatAdds(m, m', roots, r, v, k, f, perm)
    && SameData(m, m', owner) && HandedOver(owner, owner', r, v, f, k)
  }

  ghost predicate HeldFrames(owner: Owners, f: nat, n: nat) {
    forall g :: f <= g < f + n ==> g in owner && owner[g].Held?
  }

  ghost predicate Unmapped(m: Mem, r: nat, v: nat, n: nat)
    requires v + n <= NV
  {
    forall u :: v <= u < v + n ==> P0(m, r, u) == 0
  }

  lemma AddsNothing(m: Mem, m': Mem, roots: set<nat>, owner: Owners, owner': Owners, r: nat, v: nat, f: nat, perm: nat)
    requires Stepped(m, m', roots, owner, owner', r)
    ensures Adds(m, m', roots, owner, owner', r, v, 0, f, perm)
  {
    hide P0, Owned;
  }

  lemma SlotEntry(m: Mem, roots: set<nat>, owner: Owners, r: nat, v: nat)
    requires Owned(m, roots, owner) && r in roots && v < NV && Valid(P1(m, r, v / 512))
    ensures Frame(P1(m, r, v / 512)) < |m.page| && P0(m, r, v) == Pte(m, Frame(P1(m, r, v / 512)), v % 512)
    ensures !Valid(P0(m, r, v)) <==> P0(m, r, v) == 0
    ensures var t := Frame(P1(m, r, v / 512)); t in owner && owner[t] == Part(r, Low(v / 512))
  {
    hide Pte;
    assert Ent1(m, owner, r, v / 512) && Ent0(m, owner, r, v);
  }

  lemma MapOneAdds(m: Mem, roots: set<nat>, owner: Owners, r: nat, v: nat, f: nat, perm: nat)
    returns (owner': Owners)
    requires Owned(m, roots, owner) && r in roots && v < TRAPFRAME && PermOk(perm) && f in owner && owner[f].Held?
    ensures r < |m.page|
    ensures var x := MapOne(m, r, v, f, perm);
      && (x.Remap? <==> P0(m, r, v) != 0)
      && (x.Mapped? ==> Adds(m, x.m, roots, owner, owner', r, v, 1, f, perm))
      && (x.NoMemory? ==> x.m.free == [] && Adds(m, x.m, roots, owner, owner', r, v, 0, f, perm))
  {
    hide Owned, P0, P1, P2, Stepped, Walk, SetPte, PteOf, Adds;
    owner' := WalkFinds(m, roots, owner, r, v, true);
    var w := Walk(m, r, v, true);
    AddsNothing(m, w.m, roots, owner, owner', r, v, f, perm);
    if w.Slot? {
      SteppedOwned(m, w.m, roots, owner, owner', r, v);
      SlotEntry(w.m, roots, owner', r, v);
      if P0(m, r, v) == 0 {
        PteFacts(f, perm);
        SteppedHeld(m, w.m, roots, owner, owner', r, f);
        MapOwned(w.m, roots, owner', r, v, PteOf(f, perm));
        AddsOne(m, w.m, SetPte(w.m, w.t, v % 512, PteOf(f, perm)), roots, owner, owner', r, v, f, perm, w.t);
        owner' := owner'[f := Part(r, Leaf(v))];
      }
    }
  }

  lemma SteppedHeld(m: Mem, m': Mem, roots: set<nat>, owner: Owners, owner': Owners, r: nat, f: nat)
    requires Stepped(m, m', roots, owner, owner', r) && f in owner
    ensures f in owner' && owner'[f] == owner[f]
  {
  }

  lemma AddsOne(m: Mem, m1: Mem, m2: Mem, roots: set<nat>, owner: Owners, o1: Owners, r: nat, v: nat, f: nat, perm: nat,
                t: nat)
    requires Stepped(m, m1, roots, owner, o1, r) && v < NV && f in owner && owner[f].Held?
    requires LeafOnly(m1, m2, roots, r, v, PteOf(f, perm)) && Owned(m2, roots, o1[f := Part(r, Leaf(v))])
    requires t < |m1.page| && m2 == SetPte(m1, t, v % 512, PteOf(f, perm)) && t in o1 && o1[t] == Part(r, Low(v / 512))
    ensures Adds(m, m2, roots, owner, o1[f := Part(r, Leaf(v))], r, v, 1, f, perm)
  {
    hide P0, P1, P2, Owned, PutWord;
  }

  /** mappages adds exactly its range, or a prefix of it when memory runs out.  It panics
      only if a page of the range was mapped already, and succeeds only if none was; when
      memory runs out before such a page is reached, it fails without the panic. */
  lemma {:induction false} MappagesAdds(m: Mem, roots: set<nat>, owner: Owners, r: nat, v: nat, n: nat, f: nat,
                                        perm: nat)
    returns (owner': Owners, k: nat)
    requires Owned(m, roots, owner) && r in roots && v + n <= TRAPFRAME && PermOk(perm) && HeldFrames(owner, f, n)
    ensures r < |m.page|
    ensures var x := Mappages(m, r, v, n, f, perm);
      && (x.Remap? ==> !Unmapped(m, r, v, n))
      && (x.Mapped? ==> Unmapped(m, r, v, n) && k == n)
      && (x.NoMemory? ==> k < n && x.m.free == [])
      && (!x.Remap? ==> Adds(m, x.m, roots, owner, owner', r, v, k, f, perm))
    decreases n
  {
    hide Owned, P0, P1, P2, MapOne, PteOf, Adds;
    owner', k := owner, 0;
    RootBound(m, roots, owner, r);
    NoMore(m, roots, owner, r);
    AddsNothing(m, m, roots, owner, owner, r, v, f, perm);
    if n > 0 {
      owner' := MapOneAdds(m, roots, owner, r, v, f, perm);
      var x := MapOne(m, r, v, f, perm);
      if x.Remap? {
        assert P0(m, r, v) != 0;
      } else if x.Mapped? {
        AddsFacts(m, x.m, roots, owner, owner', r, v, f, perm, n);
        var o1 := owner';
        owner', k := MappagesAdds(x.m, roots, owner', r, v + 1, n - 1, f + 1, perm);
        UnmappedMore(m, x.m, roots, owner, o1, r, v, n, f, perm);
        if !Mappages(x.m, r, v + 1, n - 1, f + 1, perm).Remap? {
          AddsMore(m, x.m, Mappages(x.m, r, v + 1, n - 1, f + 1, perm).m, roots, owner, o1, owner', r, v, k, f, perm);
          k := k + 1;
        }
      }
    }
  }

  lemma RootBound(m: Mem, roots: set<nat>, owner: Owners, r: nat)
    requires Owned(m, roots, owner) && r in roots
    ensures r < |m.page|
  {
  }

  lemma AddsFacts(m: Mem, m': Mem, roots: set<nat>, owner: Owners, owner': Owners, r: nat, v: nat, f: nat, perm: nat,
                  n: nat)
    requires Adds(m, m', roots, owner, owner', r, v, 1, f, perm) && HeldFrames(owner, f, n) && n > 0
    ensures Owned(m', roots, owner') && HeldFrames(owner', f + 1, n - 1)
  {
    hide Owned, P0;
  }

  lemma UnmappedMore(m: Mem, m': Mem, roots: set<nat>, owner: Owners, owner': Owners, r: nat, v: nat, n: nat, f: nat,
                     perm: nat)
    requires Adds(m, m', roots, owner, owner', r, v, 1, f, perm) && n > 0 && v + n <= NV && r in roots
    requires P0(m, r, v) == 0
    ensures Unmapped(m, r, v, n) <==> Unmapped(m', r, v + 1, n - 1)
  {
    hide Owned, P0, SameData, HandedOver;
    if Unmapped(m', r, v + 1, n - 1) {
      forall u | v <= u < v + n ensures P0(m, r, u) == 0 {
        assert u > v ==> P0(m', r, u) == 0;
      }
    }
  }

  lemma AddsMore(m: Mem, m1: Mem, m2: Mem, roots: set<nat>, o: Owners, o1: Owners, o2: Owners, r: nat, v: nat, k: nat,
                 f: nat, perm: nat)
    requires Adds(m, m1, roots, o, o1, r, v, 1, f, perm) && Adds(m1, m2, roots, o1, o2, r, v + 1, k, f + 1, perm)
    requires HeldFrames(o, f, k + 1)
    ensures Adds(m, m2, roots, o, o2, r, v, k + 1, f, perm)
  {
    hide Owned, P0, PteOf;
  }

  // ---- uvmunmap

  datatype UnmapResult = Done(m: Mem) | Panic

  /** One page of uvmunmap; panics if there is no leaf mapping. */
  function UnmapOne(m: Mem, r: nat, v: nat, free: bool): (x: UnmapResult)
    requires r < |m.page| && v < MAXVPN
    ensures x.Done? ==> |x.m.page| == |m.page|
  {
    var w := Walk(m, r, v, false);
    if w.Missing? then Panic
    else
      var e := Pte(m, w.t, v % 512);
      if !Valid(e) || e % 1024 == 1 || Frame(e) >= |m.page| then Panic
      else Done(SetPte(if free then Freed(m, Frame(e)) else m, w.t, v % 512, 0))
  }

  /** The loop of uvmunmap over `n` pages from `v` on. */
  function Unmap(m: Mem, r: nat, v: nat, n: nat, free: bool): (x: UnmapResult)
    requires r < |m.page| && v + n <= MAXVPN
    ensures x.Done? ==> |x.m.page| == |m.page|
    decreases n
  {
    if n == 0 then Done(m)
    else
      var x := UnmapOne(m, r, v, free);
      if x.Done? then Unmap(x.m, r, v + 1, n - 1, free) else x
  }

  /** The holder is a page `v..v+n` of address space `r`. */
  predicate InRange(h: Holder, r: nat, v: nat, n: nat) {
    h.Part? && h.root == r && h.use.Leaf? && v <= h.use.v < v + n
  }

  /** The owners without those pages. */
  ghost function Shed(owner: Owners, r: nat, v: nat, n: nat): Owners {
    map g | g in owner && !InRange(owner[g], r, v, n) :: owner[g]
  }

  ghost predicate FlatDrops(m: Mem, m': Mem, roots: set<nat>, r: nat, v: nat, n: nat) {
    forall s, u :: s in roots && 0 <= u < NV ==> P0(m', s, u) == if s == r && v <= u < v + n then 0 else P0(m, s, u)
  }

  ghost predicate AllMapped(m: Mem, r: nat, v: nat, n: nat)
    requires v + n <= NV
  {
    forall u :: v <= u < v + n ==> P0(m, r, u) != 0
  }

  /** What uvmunmap with do_free promises. */
  ghost predicate Drops(m: Mem, m': Mem, roots: set<nat>, owner: Owners, r: nat, v: nat, n: nat) {
    && Owned(m', roots, Shed(owner, r, v, n)) && FlatDrops(m, m', roots, r, v, n)
    && SameData(m, m', Shed(owner, r, v, n))
  }

  lemma LeafFlags(e: nat)
    requires Leafy(e)
    ensures e % 1024 != 1
  {
    if e % 1024 == 1 {
      var f := e / 1024;
      Divide(e, 512 * f, 1, 2);
      Divide(512 * f, 64 * f, 0, 8);
    }
  }

  lemma UnmapOneDrops(m: Mem, roots: set<nat>, owner: Owners, r: nat, v: nat)
    requires Owned(m, roots, owner) && r in roots && v < TRAPFRAME && P0(m, r, v) != 0
    ensures r < |m.page|
    ensures var x := UnmapOne(m, r, v, true); x.Done? && Drops(m, x.m, roots, owner, r, v, 1)
  {
    hide Owned, P0, P1, P2, Stepped, Walk, SetPte, Freed, Frame, Valid, Leafy, SameData, SameTables, OnlyEntry;
    var o := WalkFinds(m, roots, owner, r, v, false);
    MappedFacts(m, roots, owner, r, v);
    SlotEntry(m, roots, owner, r, v);
    LeafFlags(P0(m, r, v));
    UnmapOwned(m, roots, owner, r, v);
    var t, f := Frame(P1(m, r, v / 512)), Frame(P0(m, r, v));
    var m1, o1 := SetPte(m, t, v % 512, 0), owner[f := Held];
    FreedOwned(m1, roots, o1, f);
    Commute(m, f, t, v % 512);
    ShedOne(m, roots, owner, r, v, f);
    DropsFlat(m, m1, Freed(m1, f), roots, r, v);
    DropsData(m, owner, f, t, v % 512, Shed(owner, r, v, 1));
  }

  lemma Commute(m: Mem, f: nat, t: nat, k: nat)
    requires f < |m.page| && t < |m.page| && k < 512 && f != t
    ensures Freed(SetPte(m, t, k, 0), f) == SetPte(Freed(m, f), t, k, 0)
  {
    hide PutWord;
  }

  lemma ShedOne(m: Mem, roots: set<nat>, owner: Owners, r: nat, v: nat, f: nat)
    requires Owned(m, roots, owner) && v < NV && f in owner && owner[f] == Part(r, Leaf(v)) && f == Frame(P0(m, r, v))
    ensures owner[f := Held] - {f} == Shed(owner, r, v, 1)
  {
    hide P0, P1, P2, FreeOk, Owned, Frame;
    OneLeaf(m, roots, owner, r, v);
    forall g | g in owner && g != f ensures !InRange(owner[g], r, v, 1) {
      assert owner[g] != Part(r, Leaf(v));
    }
  }

  lemma DropsFlat(m: Mem, m1: Mem, m2: Mem, roots: set<nat>, r: nat, v: nat)
    requires LeafOnly(m, m1, roots, r, v, 0) && SameTables(m1, m2, roots)
    ensures FlatDrops(m, m2, roots, r, v, 1)
  {
    hide P0, P1, P2;
  }

  lemma DropsData(m: Mem, owner: Owners, f: nat, t: nat, k: nat, owner': Owners)
    requires f < |m.page| && t < |m.page| && k < 512 && t in owner && owner[t].Part? && owner[t].use.Low?
    requires f !in owner' && forall g :: g in owner' ==> g in owner && owner'[g] == owner[g]
    ensures SameData(m, SetPte(Freed(m, f), t, k, 0), owner')
  {
    hide PutWord;
  }

  /** uvmunmap with do_free, on pages that are all mapped, removes exactly those pages
      from the flat map and gives back exactly their frames. */
  lemma {:induction false} UnmapDrops(m: Mem, roots: set<nat>, owner: Owners, r: nat, v: nat, n: nat)
    requires Owned(m, roots, owner) && r in roots && v + n <= TRAPFRAME && AllMapped(m, r, v, n)
    ensures r < |m.page|
    ensures var x := Unmap(m, r, v, n, true); x.Done? && Drops(m, x.m, roots, owner, r, v, n)
    decreases n
  {
    hide Owned, P0, P1, P2, UnmapOne, Drops;
    RootBound(m, roots, owner, r);
    if n == 0 {
      DropsNone(m, roots, owner, r, v);
    } else {
      UnmapOneDrops(m, roots, owner, r, v);
      var m1 := UnmapOne(m, r, v, true).m;
      DropsFacts(m, m1, roots, owner, r, v, n);
      UnmapDrops(m1, roots, Shed(owner, r, v, 1), r, v + 1, n - 1);
      DropsMore(m, m1, Unmap(m1, r, v + 1, n - 1, true).m, roots, owner, r, v, n);
    }
  }

  lemma DropsNone(m: Mem, roots: set<nat>, owner: Owners, r: nat, v: nat)
    requires Owned(m, roots, owner)
    ensures Drops(m, m, roots, owner, r, v, 0)
  {
    hide Owned, P0;
    assert Shed(owner, r, v, 0) == owner;
  }

  lemma DropsFacts(m: Mem, m1: Mem, roots: set<nat>, owner: Owners, r: nat, v: nat, n: nat)
    requires Drops(m, m1, roots, owner, r, v, 1) && n > 0 && v + n <= NV && AllMapped(m, r, v, n) && r in roots
    ensures Owned(m1, roots, Shed(owner, r, v, 1)) && AllMapped(m1, r, v + 1, n - 1)
  {
    hide Owned, P0, Shed;
    forall u | v + 1 <= u < v + n ensures P0(m1, r, u) != 0 {
      assert P0(m, r, u) != 0;
    }
  }

  lemma DropsMore(m: Mem, m1: Mem, m2: Mem, roots: set<nat>, owner: Owners, r: nat, v: nat, n: nat)
    requires n > 0 && Drops(m, m1, roots, owner, r, v, 1) && Drops(m1, m2, roots, Shed(owner, r, v, 1), r, v + 1, n - 1)
    ensures Drops(m, m2, roots, owner, r, v, n)
  {
    hide Owned, P0;
    assert Shed(Shed(owner, r, v, 1), r, v + 1, n - 1) == Shed(owner, r, v, n);
  }

  /** Unmapping without do_free: the frame is held, for the caller to use or free. */
  lemma UnmapOneHolds(m: Mem, roots: set<nat>, owner: Owners, r: nat, v: nat)
    requires Owned(m, roots, owner) && r in roots && v < TRAPFRAME && P0(m, r, v) != 0
    ensures r < |m.page| && Frame(P0(m, r, v)) in owner
    ensures var x := UnmapOne(m, r, v, false);
      x.Done? && Owned(x.m, roots, owner[Frame(P0(m, r, v)) := Held]) && FlatDrops(m, x.m, roots, r, v, 1)
  {
    hide Owned, P0, P1, P2, Stepped, Walk, SetPte, Frame, Valid, Leafy, OnlyEntry;
    var o := WalkFinds(m, roots, owner, r, v, false);
    MappedFacts(m, roots, owner, r, v);
    SlotEntry(m, roots, owner, r, v);
    LeafFlags(P0(m, r, v));
    UnmapOwned(m, roots, owner, r, v);
    var m1 := SetPte(m, Frame(P1(m, r, v / 512)), v % 512, 0);
    DropsFlat(m, m1, m1, roots, r, v);
  }

  /** One page of uvmunmap keeps what the other pages need. */
  lemma UnmapOneGoesOn(m: Mem, roots: set<nat>, owner: Owners, r: nat, v: nat, n: nat, free: bool)
    returns (owner': Owners)
    requires Owned(m, roots, owner) && r in roots && n > 0 && v + n <= TRAPFRAME && P0(m, r, v) != 0
    ensures r < |m.page|
    ensures var x := UnmapOne(m, r, v, free);
      x.Done? && Owned(x.m, roots, owner') && (AllMapped(m, r, v, n) <==> AllMapped(x.m, r, v + 1, n - 1))
  {
    hide Owned, P0, P1, P2, UnmapOne, Drops, FlatDrops;
    if free {
      UnmapOneDrops(m, roots, owner, r, v);
      DropsOwned(m, UnmapOne(m, r, v, true).m, roots, owner, r, v, n);
      owner' := Shed(owner, r, v, 1);
    } else {
      UnmapOneHolds(m, roots, owner, r, v);
      owner' := owner[Frame(P0(m, r, v)) := Held];
      OthersMapped(m, UnmapOne(m, r, v, false).m, roots, r, v, n);
    }
  }

  lemma OthersMapped(m: Mem, m1: Mem, roots: set<nat>, r: nat, v: nat, n: nat)
    requires FlatDrops(m, m1, roots, r, v, 1) && r in roots && n > 0 && v + n <= NV && P0(m, r, v) != 0
    ensures AllMapped(m, r, v, n) <==> AllMapped(m1, r, v + 1, n - 1)
  {
    hide P0;
    forall u | v + 1 <= u < v + n ensures P0(m1, r, u) == P0(m, r, u) {
    }
  }

  /** uvmunmap panics, with do_free or without, exactly if some page of the range has no
      mapping. */
  lemma {:induction false} UnmapPanics(m: Mem, roots: set<nat>, owner: Owners, r: nat, v: nat, n: nat, free: bool)
    requires Owned(m, roots, owner) && r in roots && v + n <= TRAPFRAME
    ensures r < |m.page| && (Unmap(m, r, v, n, free).Panic? <==> !AllMapped(m, r, v, n))
    decreases n
  {
    hide Owned, P0, P1, P2, UnmapOne, Drops;
    RootBound(m, roots, owner, r);
    if n > 0 {
      if P0(m, r, v) == 0 {
        UnmapOnePanics(m, roots, owner, r, v, free);
      } else {
        var o1 := UnmapOneGoesOn(m, roots, owner, r, v, n, free);
        UnmapPanics(UnmapOne(m, r, v, free).m, roots, o1, r, v + 1, n - 1, free);
      }
    }
  }

  lemma UnmapOnePanics(m: Mem, roots: set<nat>, owner: Owners, r: nat, v: nat, free: bool)
    requires Owned(m, roots, owner) && r in roots && v < TRAPFRAME && P0(m, r, v) == 0
    ensures r < |m.page| && UnmapOne(m, r, v, free).Panic?
  {
    hide Owned, P0, P1, P2, Stepped, Walk, SetPte, Freed, Frame, Leafy;
    var o := WalkFinds(m, roots, owner, r, v, false);
    if Walk(m, r, v, false).Slot? {
      SlotEntry(m, roots, owner, r, v);
    }
  }

  lemma DropsOwned(m: Mem, m1: Mem, roots: set<nat>, owner: Owners, r: nat, v: nat, n: nat)
    requires Drops(m, m1, roots, owner, r, v, 1) && n > 0 && v + n <= NV && r in roots && P0(m, r, v) != 0
    ensures Owned(m1, roots, Shed(owner, r, v, 1)) && (AllMapped(m, r, v, n) <==> AllMapped(m1, r, v + 1, n - 1))
  {
    hide Owned, P0, Shed;
    forall u | v + 1 <= u < v + n ensures P0(m1, r, u) == P0(m, r, u) {
    }
  }
}
