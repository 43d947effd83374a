/** Sv39 page tables in physical memory (kernel/vm.c, kernel/kalloc.c, kernel/riscv.h):
    what the three levels of table pages say, and who owns each page frame. */
module PageTable {
  import opened Bytes

  type Page = b: seq<Byte> | |b| == 4096 witness seq(4096, i => 0)

  /** Physical memory as page frames, and kalloc's free list. */
  datatype Mem = Mem(page: seq<Page>, free: seq<nat>)

  const NI := 512
  const NJ := 0x4_0000
  const NV := 0x800_0000

  /** Pages below this one can be mapped: MAXVA / PGSIZE. */
  const MAXVPN := 0x400_0000

  /** The pages of the trampoline and of the trapframe. */
  const TRAMPOLINE := 0x3FF_FFFF
  const TRAPFRAME := 0x3FF_FFFE

  // ---- entries

  /** The PTE at index `k` of the table page in frame `t`. */
  function Pte(m: Mem, t: nat, k: nat): nat
    requires t < |m.page| && k < 512
  {
    Word(m.page[t], 8 * k, 8)
  }

  function SetPte(m: Mem, t: nat, k: nat, pte: nat): (m': Mem)
    requires t < |m.page| && k < 512
    ensures |m'.page| == |m.page| && m'.free == m.free
  {
    m.(page := m.page[t := PutWord(m.page[t], 8 * k, 8, pte)])
  }

  function SetPage(m: Mem, f: nat, p: Page): (m': Mem)
    requires f < |m.page|
    ensures |m'.page| == |m.page| && m'.free == m.free
  {
    m.(page := m.page[f := p])
  }

  function Filled(b: Byte): Page {
    seq(4096, i => b)
  }

  lemma Pow256Of8()
    ensures Pow256(8) == 0x1_0000_0000_0000_0000
  {
    assert Pow256(2) == 0x1_0000 && Pow256(4) == 0x1_0000_0000 by {
      assert Pow256(1) == 256 && Pow256(3) == 0x100_0000;
    }
    assert Pow256(6) == 0x1_0000_0000_0000 by {
      assert Pow256(5) == 0x100_0000_0000;
    }
    assert Pow256(7) == 0x100_0000_0000_0000;
  }

  lemma PteOfSet(m: Mem, t: nat, k: nat, pte: nat, u: nat, x: nat)
    requires t < |m.page| && k < 512 && pte < 0x1_0000_0000_0000_0000 && u < |m.page| && x < 512
    ensures Pte(SetPte(m, t, k, pte), u, x) == if u == t && x == k then pte else Pte(m, u, x)
  {
    hide Word, PutWord;
    if u == t {
      if x == k {
        Pow256Of8();
        WordOfPut(m.page[t], 8 * k, 8, pte);
      } else {
        WordElsewhere(m.page[t], 8 * k, 8, pte, 8 * x, 8);
      }
    }
  }

  lemma PteOfZero(m: Mem, t: nat, k: nat)
    requires t < |m.page| && k < 512 && m.page[t] == Filled(0)
    ensures Pte(m, t, k) == 0
  {
    DecodeZero(m.page[t][8 * k..8 * k + 8]);
  }

  predicate Valid(pte: nat) {
    pte % 2 == 1
  }

  /** The frame that a PTE names. */
  function Frame(pte: nat): nat {
    pte / 1024
  }

  /** The entry that walk makes for a new table: V and no other flag. */
  predicate IsPointer(pte: nat) {
    Valid(pte) && pte == 1024 * Frame(pte) + 1
  }

  lemma PointerTo(f: nat)
    ensures IsPointer(1024 * f + 1) && Frame(1024 * f + 1) == f && !Valid(0)
  {
    Divide(1024 * f + 1, f, 1, 1024);
    Divide(1024 * f + 1, 512 * f, 1, 2);
  }

  lemma Divide(n: nat, q: nat, r: nat, d: nat)
    requires 0 < d && r < d && n == d * q + r
    ensures n / d == q && n % d == r
  {
    var q' := n / d;
    assert q' > q ==> d * q' >= d * (q + 1);
    assert q' < q ==> d * q >= d * (q' + 1);
  }

  /** Readable, writable or executable: not a pointer to a table. */
  predicate Leafy(pte: nat) {
    pte / 2 % 8 != 0
  }

  predicate UserBit(pte: nat) {
    pte / 16 % 2 == 1
  }

  predicate WriteBit(pte: nat) {
    pte / 4 % 2 == 1
  }

  // ---- the three levels

  function P2(m: Mem, r: nat, i: nat): nat
    requires i < NI
  {
    if r < |m.page| then Pte(m, r, i) else 0
  }

  function P1(m: Mem, r: nat, j: nat): nat
    requires j < NJ
  {
    var e := P2(m, r, j / 512);
    if Valid(e) && Frame(e) < |m.page| then Pte(m, Frame(e), j % 512) else 0
  }

  /** The leaf PTE of virtual page `v`: the flat map that the tree stands for. */
  function P0(m: Mem, r: nat, v: nat): nat
    requires v < NV
  {
    var e := P1(m, r, v / 512);
    if Valid(e) && Frame(e) < |m.page| then Pte(m, Frame(e), v % 512) else 0
  }

  // ---- who owns which frame

  datatype Use = Root | Mid(i: nat) | Low(j: nat) | Leaf(v: nat)

  /** A frame is part of the address space with a given root, or is held by the kernel. */
  datatype Holder = Part(root: nat, use: Use) | Held

  type Owners = map<nat, Holder>

  ghost predicate FreeOk(free: seq<nat>, owner: Owners, n: nat) {
    && (forall a, b :: 0 <= a < b < |free| ==> free[a] != free[b])
    && (forall a :: 0 <= a < |free| ==> free[a] < n && free[a] !in owner)
    && (forall f :: 0 <= f < n ==> f in owner || f in free)
    && (forall f :: f in owner ==> f < n)
  }

  ghost predicate Ent2(m: Mem, owner: Owners, r: nat, i: nat)
    requires i < NI
  {
    var e := P2(m, r, i);
    e == 0 || (IsPointer(e) && Frame(e) in owner && owner[Frame(e)] == Part(r, Mid(i)))
  }

  ghost predicate Ent1(m: Mem, owner: Owners, r: nat, j: nat)
    requires j < NJ
  {
    var e := P1(m, r, j);
    e == 0 || (IsPointer(e) && Frame(e) in owner && owner[Frame(e)] == Part(r, Low(j)))
  }

  ghost predicate Ent0(m: Mem, owner: Owners, r: nat, v: nat)
    requires v < NV
  {
    var e := P0(m, r, v);
    e == 0 || (Valid(e) && Leafy(e) && v < MAXVPN && Frame(e) < |m.page|
               && (if v < TRAPFRAME then Frame(e) in owner && owner[Frame(e)] == Part(r, Leaf(v)) else !UserBit(e)))
  }

  ghost predicate PartOk(m: Mem, roots: set<nat>, f: nat, r: nat, use: Use) {
    && r in roots
    && match use
       case Root => f == r
       case Mid(i) => i < NI && P2(m, r, i) == 1024 * f + 1
       case Low(j) => j < NJ && P1(m, r, j) == 1024 * f + 1
       case Leaf(v) => v < TRAPFRAME && P0(m, r, v) != 0 && Frame(P0(m, r, v)) == f
  }

  /** The whole invariant: every frame is either free or owned; the tables of each root
      point to frames that are owned accordingly, and the other way round. */
  ghost predicate Owned(m: Mem, roots: set<nat>, owner: Owners) {
    && |m.page| <= 0x100_0000
    && FreeOk(m.free, owner, |m.page|)
    && (forall r :: r in roots ==> r in owner && owner[r] == Part(r, Root))
    && (forall f :: f in owner && owner[f].Part? ==> PartOk(m, roots, f, owner[f].root, owner[f].use))
    && (forall r, i :: r in roots && 0 <= i < NI ==> Ent2(m, owner, r, i))
    && (forall r, j :: r in roots && 0 <= j < NJ ==> Ent1(m, owner, r, j))
    && (forall r, v :: r in roots && 0 <= v < NV ==> Ent0(m, owner, r, v))
  }

  /** No two pages of any address spaces share a frame, and no table is reached twice. */
  lemma OwnershipMeans(m: Mem, roots: set<nat>, owner: Owners, r: nat, v: nat, r': nat, v': nat)
    requires Owned(m, roots, owner) && r in roots && r' in roots && v < TRAPFRAME && v' < TRAPFRAME
    requires P0(m, r, v) != 0 && P0(m, r', v') != 0 && Frame(P0(m, r, v)) == Frame(P0(m, r', v'))
    ensures r == r' && v == v'
  {
    assert Ent0(m, owner, r, v) && Ent0(m, owner, r', v');
  }

  // ---- what a write changes

  /** All entries of all address spaces are as they were. */
  ghost predicate SameTables(m: Mem, m': Mem, roots: set<nat>) {
    && (forall r, i :: r in roots && 0 <= i < NI ==> P2(m', r, i) == P2(m, r, i))
    && (forall r, j :: r in roots && 0 <= j < NJ ==> P1(m', r, j) == P1(m, r, j))
    && (forall r, v :: r in roots && 0 <= v < NV ==> P0(m', r, v) == P0(m, r, v))
  }

  /** A frame that is not a table page. */
  predicate NotTable(owner: Owners, f: nat) {
    f in owner ==> owner[f].Held? || owner[f].use.Leaf?
  }

  /** Writing a page that is not a table changes no entry. */
  lemma PageWrite(m: Mem, m': Mem, roots: set<nat>, owner: Owners, f: nat)
    requires Owned(m, roots, owner) && NotTable(owner, f) && |m'.page| == |m.page|
    requires forall g :: 0 <= g < |m.page| && g != f ==> m'.page[g] == m.page[g]
    ensures SameTables(m, m', roots)
  {
    hide Pte;
    forall r, i | r in roots && 0 <= i < NI ensures P2(m', r, i) == P2(m, r, i) {
      assert r != f;
      SamePte(m, m', r, i);
    }
    forall r, j | r in roots && 0 <= j < NJ ensures P1(m', r, j) == P1(m, r, j) {
      assert Ent2(m, owner, r, j / 512);
      var e := P2(m, r, j / 512);
      if Valid(e) && Frame(e) < |m.page| {
        SamePte(m, m', Frame(e), j % 512);
      }
    }
    forall r, v | r in roots && 0 <= v < NV ensures P0(m', r, v) == P0(m, r, v) {
      assert Ent1(m, owner, r, v / 512);
      var e := P1(m, r, v / 512);
      if Valid(e) && Frame(e) < |m.page| {
        SamePte(m, m', Frame(e), v % 512);
      }
    }
  }

  lemma SamePte(m: Mem, m': Mem, t: nat, k: nat)
    requires t < |m.page| == |m'.page| && k < 512 && m'.page[t] == m.page[t]
    ensures Pte(m', t, k) == Pte(m, t, k)
  {
  }

  /** The frame of a table on the way to page `v`, if there is one, is owned as such. */
  lemma TableOwner(m: Mem, roots: set<nat>, owner: Owners, r: nat, v: nat)
    requires Owned(m, roots, owner) && r in roots && v < NV
    ensures r < |m.page| && owner[r] == Part(r, Root)
    ensures var e := P2(m, r, v / 0x4_0000);
      Valid(e) ==>
        && Frame(e) < |m.page| && Frame(e) in owner && owner[Frame(e)] == Part(r, Mid(v / 0x4_0000))
        && e == 1024 * Frame(e) + 1
    ensures var e := P1(m, r, v / 512);
      Valid(e) ==>
        Frame(e) < |m.page| && Frame(e) in owner && owner[Frame(e)] == Part(r, Low(v / 512)) && e == 1024 * Frame(e) + 1
    ensures v / 512 / 512 == v / 0x4_0000
  {
    assert Ent2(m, owner, r, v / 0x4_0000) && Ent1(m, owner, r, v / 512);
    hide P2, P1;
  }

  /** Setting a leaf entry changes the flat map at that page of that address space, and
      nothing else. */
  lemma LeafSet(m: Mem, roots: set<nat>, owner: Owners, r: nat, v: nat, pte: nat)
    requires Owned(m, roots, owner) && r in roots && v < NV && Valid(P1(m, r, v / 512)) && pte < 0x1_0000_0000_0000_0000
    ensures Frame(P1(m, r, v / 512)) < |m.page|
    ensures var m' := SetPte(m, Frame(P1(m, r, v / 512)), v % 512, pte);
      && (forall s, i :: s in roots && 0 <= i < NI ==> P2(m', s, i) == P2(m, s, i))
      && (forall s, j :: s in roots && 0 <= j < NJ ==> P1(m', s, j) == P1(m, s, j))
      && (forall s, u :: s in roots && 0 <= u < NV ==> P0(m', s, u) == if s == r && u == v then pte else P0(m, s, u))
  {
    hide Pte, SetPte;
    TableOwner(m, roots, owner, r, v);
    var t := Frame(P1(m, r, v / 512));
    var m' := SetPte(m, t, v % 512, pte);
    forall s, i | s in roots && 0 <= i < NI ensures P2(m', s, i) == P2(m, s, i) {
      PteOfSet(m, t, v % 512, pte, s, i);
    }
    forall s, j | s in roots && 0 <= j < NJ ensures P1(m', s, j) == P1(m, s, j) {
      var e := P2(m, s, j / 512);
      assert Ent2(m, owner, s, j / 512);
      if Valid(e) && Frame(e) < |m.page| {
        PteOfSet(m, t, v % 512, pte, Frame(e), j % 512);
      }
    }
    forall s, u | s in roots && 0 <= u < NV
      ensures P0(m', s, u) == if s == r && u == v then pte else P0(m, s, u)
    {
      var e := P1(m, s, u / 512);
      assert Ent1(m, owner, s, u / 512);
      if Valid(e) && Frame(e) < |m.page| {
        PteOfSet(m, t, v % 512, pte, Frame(e), u % 512);
      }
    }
  }

  /** Entering a new, zeroed level-0 table changes that one entry; the flat map is as
      before. */
  lemma LowAdded(m: Mem, roots: set<nat>, owner: Owners, r: nat, j: nat, f: nat)
    requires Owned(m, roots, owner) && r in roots && j < NJ && Valid(P2(m, r, j / 512)) && P1(m, r, j) == 0
    requires f in owner && owner[f].Held? && f < |m.page| && m.page[f] == Filled(0)
    ensures Frame(P2(m, r, j / 512)) < |m.page|
    ensures var m' := SetPte(m, Frame(P2(m, r, j / 512)), j % 512, 1024 * f + 1);
      && (forall s, i :: s in roots && 0 <= i < NI ==> P2(m', s, i) == P2(m, s, i))
      && (forall s, k :: s in roots && 0 <= k < NJ ==>
            P1(m', s, k) == if s == r && k == j then 1024 * f + 1 else P1(m, s, k))
      && (forall s, u :: s in roots && 0 <= u < NV ==> P0(m', s, u) == P0(m, s, u))
  {
    hide Pte, SetPte;
    assert Ent2(m, owner, r, j / 512);
    var t, pte := Frame(P2(m, r, j / 512)), 1024 * f + 1;
    var m' := SetPte(m, t, j % 512, pte);
    forall s, i | s in roots && 0 <= i < NI ensures P2(m', s, i) == P2(m, s, i) {
      PteOfSet(m, t, j % 512, pte, s, i);
    }
    forall s, k | s in roots && 0 <= k < NJ ensures P1(m', s, k) == if s == r && k == j then pte else P1(m, s, k) {
      var e := P2(m, s, k / 512);
      assert Ent2(m, owner, s, k / 512);
      if Valid(e) && Frame(e) < |m.page| {
        PteOfSet(m, t, j % 512, pte, Frame(e), k % 512);
      }
    }
    forall s, u | s in roots && 0 <= u < NV ensures P0(m', s, u) == P0(m, s, u) {
      if s == r && u / 512 == j {
        PteOfSet(m, t, j % 512, pte, f, u % 512);
        PteOfZero(m, f, u % 512);
      } else {
        var e := P1(m, s, u / 512);
        assert Ent1(m, owner, s, u / 512);
        if Valid(e) && Frame(e) < |m.page| {
          PteOfSet(m, t, j % 512, pte, Frame(e), u % 512);
        }
      }
    }
  }

  /** Entering a new, zeroed level-1 table into the root. */
  lemma MidAdded(m: Mem, roots: set<nat>, owner: Owners, r: nat, i: nat, f: nat)
    requires Owned(m, roots, owner) && r in roots && i < NI && P2(m, r, i) == 0
    requires f in owner && owner[f].Held? && f < |m.page| && m.page[f] == Filled(0)
    ensures r < |m.page|
    ensures var m' := SetPte(m, r, i, 1024 * f + 1);
      && (forall s, k :: s in roots && 0 <= k < NI ==>
            P2(m', s, k) == if s == r && k == i then 1024 * f + 1 else P2(m, s, k))
      && (forall s, j :: s in roots && 0 <= j < NJ ==> P1(m', s, j) == P1(m, s, j))
      && (forall s, u :: s in roots && 0 <= u < NV ==> P0(m', s, u) == P0(m, s, u))
  {
    hide Pte, SetPte;
    var pte := 1024 * f + 1;
    var m' := SetPte(m, r, i, pte);
    forall s, k | s in roots && 0 <= k < NI ensures P2(m', s, k) == if s == r && k == i then pte else P2(m, s, k) {
      PteOfSet(m, r, i, pte, s, k);
    }
    forall s, j | s in roots && 0 <= j < NJ ensures P1(m', s, j) == P1(m, s, j) {
      if s == r && j / 512 == i {
        PteOfSet(m, r, i, pte, f, j % 512);
        PteOfZero(m, f, j % 512);
      } else {
        var e := P2(m, s, j / 512);
        assert Ent2(m, owner, s, j / 512);
        if Valid(e) && Frame(e) < |m.page| {
          PteOfSet(m, r, i, pte, Frame(e), j % 512);
        }
      }
    }
    forall s, u | s in roots && 0 <= u < NV ensures P0(m', s, u) == P0(m, s, u) {
      var e := P1(m, s, u / 512);
      assert Ent1(m, owner, s, u / 512);
      if Valid(e) && Frame(e) < |m.page| {
        PteOfSet(m, r, i, pte, Frame(e), u % 512);
      }
    }
  }
}
