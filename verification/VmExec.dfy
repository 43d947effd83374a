/** exec's use of memory (kernel/exec.c): a new address space is built beside the old one
    and takes its place at the end, or everything is given back. */
module VmExec {
  import opened Bytes
  import opened PageTable
  import opened PageOwner
  import opened VmSpec
  import opened VmMap
  import opened VmFree
  import opened VmUser
  import B = VmBytes
  import opened VmFork

  // ---- loadseg

  /** What reading one program header and its segment gives: whether the header could be
      read, its fields, and the bytes of the file from its offset on. */
  datatype Seg = Seg(headerOk: bool, load: bool, vaddr: nat, memsz: nat, filesz: nat, xperm: nat, data: seq<Byte>)

  datatype LoadResult = Loaded(m: Mem) | ShortRead(m: Mem) | LoadPanic

  /** The loop of loadseg from byte `i` on, a multiple of the page size. */
  function Loadseg(m: Mem, r: nat, va: nat, data: seq<Byte>, size: nat, i: nat): (x: LoadResult)
    requires r < |m.page|
    ensures !x.LoadPanic? ==> |x.m.page| == |m.page|
    decreases size - i
  {
    if i >= size then Loaded(m)
    else
      var f := B.Walkaddr(m, r, (va + i) / 4096);
      var n := B.Min(size - i, 4096);
      if f.None? || f.v >= |m.page| then LoadPanic
      else if |data| < i + n then ShortRead(m)
      else
        Loadseg(SetPage(m, f.v, B.Overwrite(m.page[f.v], 0, data[i..i + n])), r, va, data, size, i + 4096)
  }

  ghost predicate AllUser(m: Mem, r: nat, n: nat)
    requires n <= NV
  {
    forall u :: 0 <= u < n ==> UserBit(P0(m, r, u))
  }

  /** Memory of address space `r` was written; tables and ownership are as they were. */
  ghost predicate Rewritten(m: Mem, m': Mem, roots: set<nat>, owner: Owners, r: nat) {
    Owned(m', roots, owner) && SameTables(m, m', roots) && B.SpareOthers(m, m', owner, r)
  }

  lemma RewrittenTwice(m: Mem, m1: Mem, m2: Mem, roots: set<nat>, owner: Owners, r: nat)
    requires Rewritten(m, m1, roots, owner, r) && Rewritten(m1, m2, roots, owner, r)
    ensures Rewritten(m, m2, roots, owner, r)
  {
    hide Owned, SameTables;
    SameTablesTwice(m, m1, m2, roots);
  }

  lemma UserKept(m: Mem, m': Mem, roots: set<nat>, r: nat, n: nat)
    requires SameTables(m, m', roots) && r in roots && n <= TRAPFRAME && AllUser(m, r, n)
    ensures AllUser(m', r, n) && (AllMapped(m, r, 0, n) ==> AllMapped(m', r, 0, n))
  {
    hide P1, P2, P0;
    forall u | 0 <= u < n ensures P0(m', r, u) == P0(m, r, u) {
    }
  }

  lemma PageReadable(m: Mem, roots: set<nat>, owner: Owners, r: nat, n: nat, va: nat)
    requires Owned(m, roots, owner) && r in roots && n <= TRAPFRAME && AllMapped(m, r, 0, n) && AllUser(m, r, n)
    requires va / 4096 < n
    ensures B.Readable(m, r, va)
  {
    hide P0, Owned;
    MappedFacts(m, roots, owner, r, va / 4096);
  }

  /** loadseg copies the segment's bytes from the file, or stops at a short read; its
      panic cannot happen. */
  lemma {:induction false} LoadsegWorks(m: Mem, roots: set<nat>, owner: Owners, r: nat, n: nat, va: nat,
                                        data: seq<Byte>, size: nat, i: nat)
    requires Owned(m, roots, owner) && r in roots && n <= TRAPFRAME && AllMapped(m, r, 0, n) && AllUser(m, r, n)
    requires (va + i) % 4096 == 0 && (i < size ==> Up(va + size) <= n)
    ensures r < |m.page|
    ensures var x := Loadseg(m, r, va, data, size, i);
      && !x.LoadPanic? && Rewritten(m, x.m, roots, owner, r)
      && (x.Loaded? && i < size ==> size <= |data|)
      && (x.Loaded? && i <= size <= |data| ==> B.WroteUser(m, x.m, roots, r, va, data, i, size))
    decreases size - i
  {
    hide Owned, P0, B.Walkaddr, B.Overwrite, B.WroteUser, B.Readable, Rewritten, Frame;
    RootBound(m, roots, owner, r);
    SelfRewritten(m, roots, owner, r);
    if i >= size {
      if i == size <= |data| {
        B.WroteNone(m, roots, r, va, data, i);
      }
    } else {
      var a, k := va + i, B.Min(size - i, 4096);
      InImage(va, size, i, n);
      PageReadable(m, roots, owner, r, n, a);
      B.WalkaddrFinds(m, roots, owner, r, a);
      B.ReadableFrame(m, r, a);
      if i + k <= |data| {
        B.WritePage(m, roots, owner, r, va, data, i, k);
        var f := Frame(P0(m, r, a / 4096));
        var m1 := SetPage(m, f, B.Overwrite(m.page[f], 0, data[i..i + k]));
        WroteRewritten(m, m1, roots, owner, r, va, data, i, i + k);
        UserAfter(m, m1, roots, owner, r, n);
        Divide(a + 4096, a / 4096 + 1, 0, 4096);
        LoadsegWorks(m1, roots, owner, r, n, va, data, size, i + 4096);
        var m2 := Loadseg(m1, r, va, data, size, i + 4096).m;
        RewrittenTwice(m, m1, m2, roots, owner, r);
        if Loadseg(m1, r, va, data, size, i + 4096).Loaded? && size <= |data| && i + 4096 <= size {
          B.WroteMore(m, m1, m2, roots, r, va, data, i, i + k, size);
        }
      }
    }
  }

  lemma InImage(va: nat, size: nat, i: nat, n: nat)
    requires i < size && Up(va + size) <= n
    ensures (va + i) / 4096 < n
  {
  }

  lemma SelfRewritten(m: Mem, roots: set<nat>, owner: Owners, r: nat)
    requires Owned(m, roots, owner)
    ensures Rewritten(m, m, roots, owner, r)
  {
    hide P0, P1, P2;
  }

  lemma WroteRewritten(m: Mem, m': Mem, roots: set<nat>, owner: Owners, r: nat, va: nat, data: seq<Byte>, i: nat,
                       k: nat)
    requires Owned(m', roots, owner) && B.WroteUser(m, m', roots, r, va, data, i, k) && B.SpareOthers(m, m', owner, r)
    ensures Rewritten(m, m', roots, owner, r)
  {
  }

  lemma UserAfter(m: Mem, m': Mem, roots: set<nat>, owner: Owners, r: nat, n: nat)
    requires Rewritten(m, m', roots, owner, r) && r in roots && n <= TRAPFRAME && AllMapped(m, r, 0, n)
    requires AllUser(m, r, n)
    ensures Owned(m', roots, owner) && AllMapped(m', r, 0, n) && AllUser(m', r, n)
  {
    hide Owned, SameTables;
    UserKept(m, m', roots, r, n);
  }

  // ---- the image under construction

  /** A new address space `r` with `n` pages, all of them open to the user. */
  ghost predicate Building(m0: Mem, m: Mem, roots: set<nat>, owner0: Owners, owner: Owners, r: nat, n: nat) {
    Beside(m0, m, roots, owner0, owner, r) && Space(m, r, n) && AllUser(m, r, n)
  }

  lemma BuildingFacts(m0: Mem, m: Mem, roots: set<nat>, owner0: Owners, owner: Owners, r: nat, n: nat)
    requires Building(m0, m, roots, owner0, owner, r, n)
    ensures n <= TRAPFRAME && Owned(m, roots + {r}, owner) && Image(m, r, n) && AllMapped(m, r, 0, n)
    ensures AllUser(m, r, n) && r !in roots
  {
    hide P0, Owned;
  }

  lemma BuildWritten(m0: Mem, m: Mem, m': Mem, roots: set<nat>, owner0: Owners, owner: Owners, r: nat, n: nat)
    requires Building(m0, m, roots, owner0, owner, r, n) && Rewritten(m, m', roots + {r}, owner, r)
    ensures Building(m0, m', roots, owner0, owner, r, n)
  {
    hide P0, P1, P2, Owned;
    forall u | 0 <= u < NV ensures P0(m', r, u) == P0(m, r, u) {
    }
    assert forall g :: g in owner0 ==> g in Others(owner, r);
  }

  lemma BuildStepped(m0: Mem, m: Mem, m': Mem, roots: set<nat>, owner0: Owners, owner: Owners, owner': Owners, r: nat,
                     n: nat)
    requires Building(m0, m, roots, owner0, owner, r, n) && Stepped(m, m', roots + {r}, owner, owner', r)
    ensures Building(m0, m', roots, owner0, owner', r, n)
  {
    hide P0, P1, P2, Owned, Beside, Stepped;
    BesideStep(m0, m, m', roots, owner0, owner, owner', r);
    SteppedFlat(m, m', roots + {r}, owner, owner', r);
  }

  lemma SteppedFlat(m: Mem, m': Mem, roots: set<nat>, owner: Owners, owner': Owners, r: nat)
    requires Stepped(m, m', roots, owner, owner', r) && r in roots
    ensures forall u :: 0 <= u < NV ==> P0(m', r, u) == P0(m, r, u)
  {
    hide P0, Owned;
  }

  lemma UserPage(m: Mem, r: nat, u: nat, xperm: nat)
    requires u < NV && NewPage(m, r, u, 18 + xperm) && XpermOk(xperm)
    ensures UserBit(P0(m, r, u))
  {
    hide P0;
    var e := P0(m, r, u);
    var f := Frame(e);
    assert e == 1024 * f + 18 + xperm + 1;
    hide Frame;
    Divide(e, 64 * f + 1, 3 + xperm, 16);
    Divide(64 * f + 1, 32 * f, 1, 2);
  }

  lemma BuildGrown(m0: Mem, m: Mem, m': Mem, roots: set<nat>, owner0: Owners, owner: Owners, owner': Owners, r: nat,
                   n: nat, n': nat, xperm: nat)
    requires Building(m0, m, roots, owner0, owner, r, n)
    requires Grew(m, m', roots + {r}, owner, owner', r, n, n', 18 + xperm)
    requires XpermOk(xperm) && Image(m', r, n')
    ensures Building(m0, m', roots, owner0, owner', r, n')
  {
    hide P0, Owned, NewPage;
    assert Others(owner', r) == Others(owner, r);
    assert forall g :: g in owner0 ==> g in Others(owner, r);
    forall u | 0 <= u < n' ensures UserBit(P0(m', r, u)) {
      if u >= n {
        UserPage(m', r, u, xperm);
      }
    }
  }

  // ---- segments

  datatype SegResult = SegOk(m: Mem, size: nat) | SegBad(m: Mem, size: nat) | SegPanic

  /** One program header. */
  function LoadSegment(m: Mem, r: nat, size: nat, seg: Seg): SegResult
    requires r < |m.page| && Up(size) <= MAXVPN
  {
    if !seg.headerOk then SegBad(m, size)
    else if !seg.load then SegOk(m, size)
    else if seg.memsz < seg.filesz || seg.vaddr + seg.memsz >= 0x1_0000_0000_0000_0000 || seg.vaddr % 4096 != 0
    then SegBad(m, size)
    else
      var (x, size1) := Uvmalloc(m, r, size, seg.vaddr + seg.memsz, seg.xperm);
      match x
      case Bad => SegPanic
      case Failed(m1) => SegBad(m1, size)
      case Got(m1) =>
        if size1 == 0 then SegBad(m1, size)
        else if r >= |m1.page| then SegPanic
        else
          match Loadseg(m1, r, seg.vaddr, seg.data, seg.filesz, 0)
          case LoadPanic => SegPanic
          case ShortRead(m2) => SegBad(m2, size1)
          case Loaded(m2) => SegOk(m2, size1)
  }

  lemma UpMono(a: nat, b: nat)
    requires a <= b
    ensures Up(a) <= Up(b)
  {
  }

  /** uvmalloc as exec uses it: the image grows or stays as it is. */
  lemma BuildAlloc(m0: Mem, m: Mem, roots: set<nat>, owner0: Owners, owner: Owners, r: nat, size: nat, newsz: nat,
                   xperm: nat)
    returns (owner': Owners)
    requires Building(m0, m, roots, owner0, owner, r, Up(size)) && XpermOk(xperm)
    ensures r < |m.page| && Up(size) <= TRAPFRAME
    ensures var (x, size1) := Uvmalloc(m, r, size, newsz, xperm);
      && !x.Bad?
      && (x.Got? ==>
            && newsz <= size1 && (size1 == newsz || size1 == size)
            && Building(m0, x.m, roots, owner0, owner', r, Up(size1)))
      && (x.Failed? ==> Building(m0, x.m, roots, owner0, owner', r, Up(size)))
  {
    hide P0, Owned, AllocLoop, Building, Stepped, Grew;
    BuildingFacts(m0, m, roots, owner0, owner, r, Up(size));
    RootBound(m, roots + {r}, owner, r);
    owner' := owner;
    if size <= newsz {
      owner' := UvmallocWorks(m, roots + {r}, owner, r, size, newsz, xperm);
      var x := Uvmalloc(m, r, size, newsz, xperm).0;
      if x.Got? {
        BuildGrown(m0, m, x.m, roots, owner0, owner, owner', r, Up(size), Up(newsz), xperm);
      } else {
        BuildStepped(m0, m, x.m, roots, owner0, owner, owner', r, Up(size));
      }
    }
  }

  lemma SegmentWorks(m0: Mem, m: Mem, roots: set<nat>, owner0: Owners, owner: Owners, r: nat, size: nat, seg: Seg)
    returns (owner': Owners)
    requires Building(m0, m, roots, owner0, owner, r, Up(size)) && XpermOk(seg.xperm)
    ensures r < |m.page| && Up(size) <= TRAPFRAME
    ensures var x := LoadSegment(m, r, size, seg);
      !x.SegPanic? && Building(m0, x.m, roots, owner0, owner', r, Up(x.size))
  {
    hide P0, Owned, Uvmalloc, Building, Loadseg;
    BuildingFacts(m0, m, roots, owner0, owner, r, Up(size));
    RootBound(m, roots + {r}, owner, r);
    owner' := BuildAlloc(m0, m, roots, owner0, owner, r, size, seg.vaddr + seg.memsz, seg.xperm);
    var (x, size1) := Uvmalloc(m, r, size, seg.vaddr + seg.memsz, seg.xperm);
    if !seg.headerOk || !seg.load || seg.memsz < seg.filesz || seg.vaddr + seg.memsz >= 0x1_0000_0000_0000_0000
      || seg.vaddr % 4096 != 0 {
      owner' := owner;
    } else if x.Got? {
      BuildingFacts(m0, x.m, roots, owner0, owner', r, Up(size1));
      RootBound(x.m, roots + {r}, owner', r);
      if size1 == 0 {
        ZeroSize(m, r, size, seg.vaddr + seg.memsz, seg.xperm);
      } else {
        UpMono(seg.vaddr + seg.filesz, size1);
        LoadsegWorks(x.m, roots + {r}, owner', r, Up(size1), seg.vaddr, seg.data, seg.filesz, 0);
        BuildWritten(m0, x.m, Loadseg(x.m, r, seg.vaddr, seg.data, seg.filesz, 0).m, roots, owner0, owner', r,
                     Up(size1));
      }
    }
  }

  lemma ZeroSize(m: Mem, r: nat, size: nat, newsz: nat, xperm: nat)
    requires r < |m.page| && Up(size) <= MAXVPN && Uvmalloc(m, r, size, newsz, xperm).1 == 0
    requires Uvmalloc(m, r, size, newsz, xperm).0.Got?
    ensures size == 0
  {
    hide AllocLoop;
  }

  function LoadAll(m: Mem, r: nat, size: nat, segs: seq<Seg>, k: nat): SegResult
    requires k <= |segs|
    decreases |segs| - k
  {
    if k == |segs| then SegOk(m, size)
    else if r >= |m.page| || Up(size) > MAXVPN then SegPanic
    else
      var x := LoadSegment(m, r, size, segs[k]);
      if x.SegOk? then LoadAll(x.m, r, x.size, segs, k + 1) else x
  }

  predicate SegsOk(segs: seq<Seg>) {
    forall k :: 0 <= k < |segs| ==> XpermOk(segs[k].xperm)
  }

  lemma {:induction false} LoadAllWorks(m0: Mem, m: Mem, roots: set<nat>, owner0: Owners, owner: Owners, r: nat,
                                        size: nat, segs: seq<Seg>, k: nat)
    returns (owner': Owners)
    requires Building(m0, m, roots, owner0, owner, r, Up(size)) && SegsOk(segs) && k <= |segs|
    ensures var x := LoadAll(m, r, size, segs, k);
      !x.SegPanic? && Building(m0, x.m, roots, owner0, owner', r, Up(x.size))
    decreases |segs| - k
  {
    hide P0, Owned, LoadSegment, Building, Up;
    owner' := owner;
    if k < |segs| {
      owner' := SegmentWorks(m0, m, roots, owner0, owner, r, size, segs[k]);
      var x := LoadSegment(m, r, size, segs[k]);
      if x.SegOk? {
        owner' := LoadAllWorks(m0, x.m, roots, owner0, owner', r, x.size, segs, k + 1);
      }
    }
  }

  // ---- the stack

  /** pte & ~PTE_U. */
  function NoUserBit(e: nat): nat {
    if UserBit(e) && e >= 16 then e - 16 else e
  }

  /** uvmclear: take the user bit from a page. */
  function Uvmclear(m: Mem, r: nat, v: nat): UnmapResult
    requires r < |m.page| && v < MAXVPN
  {
    var w := Walk(m, r, v, false);
    if w.Missing? then Panic
    else
      var e := Pte(m, w.t, v % 512);
      Done(SetPte(m, w.t, v % 512, NoUserBit(e)))
  }

  lemma ClearUser(e: nat)
    requires UserBit(e) && Valid(e) && Leafy(e)
    ensures e >= 16 && Valid(e - 16) && Leafy(e - 16) && Frame(e - 16) == Frame(e) && !UserBit(e - 16)
  {
    hide UserBit, Valid, Leafy, Frame;
    ClearBits(e / 1024, e % 1024);
    assert e == 1024 * (e / 1024) + e % 1024;
  }

  lemma ClearBits(f: nat, p: nat)
    requires p < 1024 && var e := 1024 * f + p; UserBit(e) && Valid(e) && Leafy(e)
    ensures p >= 16
    ensures var e, e' := 1024 * f + p, 1024 * f + (p - 16);
      Valid(e') && Leafy(e') && Frame(e') == Frame(e) && !UserBit(e')
  {
    UserOf(f, p);
    LowBits(f, p);
    ClearLow(p);
    UserOf(f, p - 16);
    LowBits(f, p - 16);
  }

  lemma ClearLow(p: nat)
    requires p / 16 % 2 == 1
    ensures p >= 16 && (p - 16) % 2 == p % 2 && (p - 16) / 2 % 8 == p / 2 % 8 && (p - 16) / 16 % 2 == 0
  {
    var h, q := p / 2, p / 16;
    Divide(p - 16, h - 8, p % 2, 2);
    Divide(h - 8, h / 8 - 1, h % 8, 8);
    Divide(p - 16, q - 1, p % 16, 16);
    Divide(q - 1, q / 2, 0, 2);
  }

  lemma UserOf(f: nat, p: nat)
    requires p < 1024
    ensures (1024 * f + p) / 16 % 2 == p / 16 % 2
  {
    Divide(1024 * f + p, 64 * f + p / 16, p % 16, 16);
    Divide(64 * f + p / 16, 32 * f + p / 32, p / 16 % 2, 2);
  }

  lemma LowBits(f: nat, p: nat)
    requires p < 1024
    ensures (1024 * f + p) / 1024 == f && (1024 * f + p) % 2 == p % 2 && (1024 * f + p) / 2 % 8 == p / 2 % 8
  {
    Bits(f, p);
  }

  /** A new address space `r` with `n` pages beside the others. */
  ghost predicate Stacked(m0: Mem, m: Mem, roots: set<nat>, owner0: Owners, owner: Owners, r: nat, n: nat) {
    Beside(m0, m, roots, owner0, owner, r) && Space(m, r, n)
  }

  lemma UvmclearWorks(m: Mem, roots: set<nat>, owner: Owners, r: nat, v: nat)
    requires Owned(m, roots, owner) && r in roots && v < TRAPFRAME && P0(m, r, v) != 0 && UserBit(P0(m, r, v))
    ensures r < |m.page| && Uvmclear(m, r, v).Done?
    ensures var m' := Uvmclear(m, r, v).m;
      TopSet(m, m', roots, owner, owner, r, v, NoUserBit(P0(m, r, v))) && NoUserBit(P0(m, r, v)) != 0
  {
    hide Owned, P0, P1, P2, Stepped, Walk, SetPte, Frame, Valid, Leafy, UserBit;
    var o := WalkFinds(m, roots, owner, r, v, false);
    MappedFacts(m, roots, owner, r, v);
    SlotEntry(m, roots, owner, r, v);
    ClearUser(P0(m, r, v));
    var e := NoUserBit(P0(m, r, v));
    NonZero(e);
    FlagsOwned(m, roots, owner, r, v, e);
    NoStep(m, roots, owner, r);
    var t := Frame(P1(m, r, v / 512));
    TopSetIs(m, m, SetPte(m, t, v % 512, e), roots, owner, owner, r, v, e, t);
  }

  lemma NonZero(e: nat)
    requires Valid(e)
    ensures e > 0
  {
  }

  lemma StackCleared(m0: Mem, m: Mem, m': Mem, roots: set<nat>, owner0: Owners, owner: Owners, r: nat, n: nat, v: nat,
                     pte: nat)
    requires Building(m0, m, roots, owner0, owner, r, n) && TopSet(m, m', roots + {r}, owner, owner, r, v, pte) && v < n
    requires pte != 0
    ensures Stacked(m0, m', roots, owner0, owner, r, n)
  {
    hide P0, Owned, Beside, TopSet;
    BesideTop(m0, m, m', roots, owner0, owner, owner, r, v, pte);
    EntrySet(m, m', roots + {r}, owner, r, v, pte);
  }

  lemma EntrySet(m: Mem, m': Mem, roots: set<nat>, owner: Owners, r: nat, v: nat, pte: nat)
    requires TopSet(m, m', roots, owner, owner, r, v, pte) && r in roots
    ensures forall u :: 0 <= u < NV ==> P0(m', r, u) == if u == v then pte else P0(m, r, u)
  {
    hide P0, Owned;
  }

  /** Subtraction of C uint64. */
  function Sub64(a: nat, b: nat): nat {
    (a - b) % 0x1_0000_0000_0000_0000
  }

  datatype PushResult = Pushed(m: Mem, sp: nat, ustack: seq<nat>) | PushBad(m: Mem)

  function Aligned(sp: nat): nat {
    sp - sp % 16
  }

  /** The loop that pushes the argument strings, from argument `k` on. */
  function PushArgs(m: Mem, r: nat, sp: nat, base: nat, args: seq<seq<Byte>>, k: nat, ustack: seq<nat>): PushResult
    requires r < |m.page| && k <= |args|
    decreases |args| - k
  {
    if k == |args| then Pushed(m, sp, ustack)
    else if k >= 32 then PushBad(m)
    else
      var sp1 := Aligned(Sub64(sp, |args[k]| + 1));
      if sp1 < base then PushBad(m)
      else
        var x := B.Copyout(m, r, sp1, args[k] + [0], 0);
        if x.Fault? then PushBad(x.m) else PushArgs(x.m, r, sp1, base, args, k + 1, ustack + [sp1])
  }

  function Words(s: seq<nat>): seq<Byte> {
    if s == [] then [] else Encode(s[0], 8) + Words(s[1..])
  }

  /** The strings, then the array of pointers to them. */
  function PushAll(m: Mem, r: nat, sp: nat, base: nat, args: seq<seq<Byte>>): PushResult
    requires r < |m.page|
  {
    var x := PushArgs(m, r, sp, base, args, 0, []);
    if x.PushBad? then x
    else
      var sp1 := Aligned(Sub64(x.sp, (|args| + 1) * 8));
      if sp1 < base || r >= |x.m.page| then PushBad(x.m)
      else
        var y := B.Copyout(x.m, r, sp1, Words(x.ustack + [0]), 0);
        if y.Fault? then PushBad(y.m) else Pushed(y.m, sp1, x.ustack)
  }

  lemma StackWritten(m0: Mem, m: Mem, m': Mem, roots: set<nat>, owner0: Owners, owner: Owners, r: nat, n: nat)
    requires Stacked(m0, m, roots, owner0, owner, r, n) && Rewritten(m, m', roots + {r}, owner, r)
    ensures Stacked(m0, m', roots, owner0, owner, r, n)
  {
    hide P0, P1, P2, Owned;
    forall u | 0 <= u < NV ensures P0(m', r, u) == P0(m, r, u) {
    }
    assert forall g :: g in owner0 ==> g in Others(owner, r);
  }

  lemma StackedOwned(m0: Mem, m: Mem, roots: set<nat>, owner0: Owners, owner: Owners, r: nat, n: nat)
    requires Stacked(m0, m, roots, owner0, owner, r, n)
    ensures Owned(m, roots + {r}, owner) && r < |m.page| && r !in roots && Space(m, r, n)
    ensures Beside(m0, m, roots, owner0, owner, r) && n <= TRAPFRAME
  {
    hide P0;
    RootBound(m, roots + {r}, owner, r);
  }

  lemma CopyoutKeeps(m0: Mem, m: Mem, roots: set<nat>, owner0: Owners, owner: Owners, r: nat, n: nat, va: nat,
                     src: seq<Byte>)
    requires Stacked(m0, m, roots, owner0, owner, r, n)
    ensures r < |m.page| && Stacked(m0, B.Copyout(m, r, va, src, 0).m, roots, owner0, owner, r, n)
  {
    hide P0, Owned, B.Copyout, B.WroteUser, Stacked, B.Writable;
    StackedOwned(m0, m, roots, owner0, owner, r, n);
    var done := B.CopyoutWrites(m, roots + {r}, owner, r, va, src, 0);
    var m' := B.Copyout(m, r, va, src, 0).m;
    WroteRewritten(m, m', roots + {r}, owner, r, va, src, 0, done);
    StackWritten(m0, m, m', roots, owner0, owner, r, n);
  }

  lemma {:induction false} PushArgsKeeps(m0: Mem, m: Mem, roots: set<nat>, owner0: Owners, owner: Owners, r: nat,
                                         n: nat,
                                         sp: nat, base: nat, args: seq<seq<Byte>>, k: nat, ustack: seq<nat>)
    requires Stacked(m0, m, roots, owner0, owner, r, n) && k <= |args|
    ensures r < |m.page| && Stacked(m0, PushArgs(m, r, sp, base, args, k, ustack).m, roots, owner0, owner, r, n)
    decreases |args| - k
  {
    hide P0, Owned, B.Copyout, Stacked, Sub64, Aligned;
    StackedOwned(m0, m, roots, owner0, owner, r, n);
    if k < |args| && k < 32 {
      var sp1 := Aligned(Sub64(sp, |args[k]| + 1));
      if sp1 >= base {
        CopyoutKeeps(m0, m, roots, owner0, owner, r, n, sp1, args[k] + [0]);
        var x := B.Copyout(m, r, sp1, args[k] + [0], 0);
        if x.Written? {
          PushArgsKeeps(m0, x.m, roots, owner0, owner, r, n, sp1, base, args, k + 1, ustack + [sp1]);
        }
      }
    }
  }

  lemma PushAllKeeps(m0: Mem, m: Mem, roots: set<nat>, owner0: Owners, owner: Owners, r: nat, n: nat,
                     sp: nat, base: nat, args: seq<seq<Byte>>)
    requires Stacked(m0, m, roots, owner0, owner, r, n)
    ensures r < |m.page| && Stacked(m0, PushAll(m, r, sp, base, args).m, roots, owner0, owner, r, n)
  {
    hide P0, Owned, B.Copyout, Stacked, PushArgs, Sub64, Aligned, Words;
    PushArgsKeeps(m0, m, roots, owner0, owner, r, n, sp, base, args, 0, []);
    var x := PushArgs(m, r, sp, base, args, 0, []);
    if x.Pushed? {
      var sp1 := Aligned(Sub64(x.sp, (|args| + 1) * 8));
      StackedOwned(m0, x.m, roots, owner0, owner, r, n);
      if sp1 >= base {
        CopyoutKeeps(m0, x.m, roots, owner0, owner, r, n, sp1, Words(x.ustack + [0]));
      }
    }
  }

  // ---- exec

  datatype Execed = Replaced(m: Mem, root: nat, size: nat, sp: nat) | Refused(m: Mem) | ExecPanic

  /** The label `bad` of exec. */
  function GiveUp(m: Mem, r: nat, n: nat): Execed {
    if r >= |m.page| || n > MAXVPN then ExecPanic
    else
      var x := FreePagetable(m, r, n);
      if x.Done? then Refused(x.m) else ExecPanic
  }

  /** The last part of exec: push the arguments and commit. */
  function Finish(m: Mem, r: nat, size: nat, prev: nat, prevPages: nat, args: seq<seq<Byte>>, stack: nat): Execed
    requires r < |m.page| && stack * 4096 <= size
  {
    var x := PushAll(m, r, size, size - stack * 4096, args);
    if x.PushBad? then GiveUp(x.m, r, Up(size))
    else if prev >= |x.m.page| || prevPages > MAXVPN then ExecPanic
    else
      var y := FreePagetable(x.m, prev, prevPages);
      if y.Done? then Replaced(y.m, r, size, x.sp) else ExecPanic
  }

  /** exec from the stack on. */
  function BuildStack(m2: Mem, r: nat, size: nat, prev: nat, prevPages: nat, args: seq<seq<Byte>>, stack: nat): Execed {
    var top := Up(size) * 4096;
    if r >= |m2.page| || Up(top) > MAXVPN then ExecPanic
    else
      var (y, size1) := Uvmalloc(m2, r, top, top + (stack + 1) * 4096, 4);
      match y
      case Bad => ExecPanic
      case Failed(m3) => GiveUp(m3, r, Up(top))
      case Got(m3) =>
        if r >= |m3.page| || Up(size) >= MAXVPN then ExecPanic
        else
          var z := Uvmclear(m3, r, Up(size));
          if z.Panic? || r >= |z.m.page| then ExecPanic
          else Finish(z.m, r, top + (stack + 1) * 4096, prev, prevPages, args, stack)
  }

  /** exec from the program header table on; `prev` is the address space that it
      replaces, `stack` the number of stack pages. */
  function Exec(m: Mem, prev: nat, prevPages: nat, tramp: nat, tf: nat, segs: seq<Seg>, args: seq<seq<Byte>>,
                stack: nat): Execed {
    var p := ProcPagetable(m, tramp, tf);
    match p
    case MadePanic => ExecPanic
    case NotMade(m1) => Refused(m1)
    case Made(m1, r) =>
      var x := LoadAll(m1, r, 0, segs, 0);
      match x
      case SegPanic => ExecPanic
      case SegBad(m2, size) => GiveUp(m2, r, Up(size))
      case SegOk(m2, size) => BuildStack(m2, r, size, prev, prevPages, args, stack)
  }

  /** Nothing has changed for the address spaces that were there before. */
  ghost predicate Restored(m: Mem, m': Mem, roots: set<nat>, owner: Owners) {
    Owned(m', roots, owner) && SameFlat(m, m', roots) && SameData(m, m', owner)
  }

  /** The new address space `r` has taken the place of `prev`. */
  ghost predicate Took(m: Mem, m': Mem, roots: set<nat>, owner: Owners, owner': Owners, prev: nat, r: nat, n: nat) {
    && r !in roots && Owned(m', roots - {prev} + {r}, owner') && Others(owner', r) == Others(owner, prev)
    && Space(m', r, n) && SameFlat(m, m', roots - {prev}) && SameData(m, m', Others(owner, prev))
  }

  lemma GiveUpWorks(m0: Mem, m: Mem, roots: set<nat>, owner0: Owners, owner: Owners, r: nat, n: nat)
    requires Stacked(m0, m, roots, owner0, owner, r, n)
    ensures GiveUp(m, r, n).Refused? && Restored(m0, GiveUp(m, r, n).m, roots, owner0)
  {
    hide P0, Owned, FreePagetable, Gone, Beside, Space, SameFlat, SameData;
    StackedOwned(m0, m, roots, owner0, owner, r, n);
    FreePagetableWorks(m, roots + {r}, owner, r, n);
    BesideGone(m0, m, FreePagetable(m, r, n).m, roots, owner0, owner, r);
  }

  lemma BuiltStacked(m0: Mem, m: Mem, roots: set<nat>, owner0: Owners, owner: Owners, r: nat, n: nat)
    requires Building(m0, m, roots, owner0, owner, r, n)
    ensures Stacked(m0, m, roots, owner0, owner, r, n)
  {
  }

  /** Freeing the old address space beside the new one. */
  lemma CommitWorks(m0: Mem, m: Mem, roots: set<nat>, owner0: Owners, owner: Owners, r: nat, n: nat, prev: nat,
                    prevPages: nat)
    requires Stacked(m0, m, roots, owner0, owner, r, n) && prev in roots && Space(m0, prev, prevPages)
    ensures prev < |m.page| && prevPages <= MAXVPN && FreePagetable(m, prev, prevPages).Done?
    ensures Took(m0, FreePagetable(m, prev, prevPages).m, roots, owner0, Others(owner, prev), prev, r, n)
  {
    hide P0, Owned, FreePagetable, Gone, SameData, Others;
    StackedOwned(m0, m, roots, owner0, owner, r, n);
    PrevSpace(m0, m, roots, prev, prevPages);
    FreePagetableWorks(m, roots + {r}, owner, prev, prevPages);
    TookIs(m0, m, FreePagetable(m, prev, prevPages).m, roots, owner0, owner, r, n, prev);
  }

  lemma PrevSpace(m: Mem, m': Mem, roots: set<nat>, r: nat, n: nat)
    requires SameFlat(m, m', roots) && r in roots && Space(m, r, n)
    ensures Space(m', r, n) && n <= TRAPFRAME
  {
    hide P0;
  }

  lemma TookIs(m0: Mem, m: Mem, m': Mem, roots: set<nat>, owner0: Owners, owner: Owners, r: nat, n: nat, prev: nat)
    requires Stacked(m0, m, roots, owner0, owner, r, n) && prev in roots && Gone(m, m', roots + {r}, owner, prev)
    ensures Took(m0, m', roots, owner0, Others(owner, prev), prev, r, n)
  {
    hide P0, Owned;
    assert roots + {r} - {prev} == roots - {prev} + {r};
    assert Others(Others(owner, prev), r) == Others(Others(owner, r), prev);
    assert forall g :: g in Others(owner0, prev) ==> g in owner0;
    assert forall g :: g in Others(owner0, prev) ==> g in Others(owner, prev) by {
      assert forall g :: g in owner0 ==> g in Others(owner, r);
    }
    NewKept(m, m', roots, prev, r, n);
  }

  lemma NewKept(m: Mem, m': Mem, roots: set<nat>, prev: nat, r: nat, n: nat)
    requires SameFlat(m, m', roots + {r} - {prev}) && r !in roots && prev in roots && Space(m, r, n)
    ensures Space(m', r, n)
  {
    hide P0;
    assert r in roots + {r} - {prev};
  }

  lemma FinishWorks(m0: Mem, m: Mem, roots: set<nat>, owner0: Owners, owner: Owners, r: nat, size: nat, prev: nat,
                    prevPages: nat,
                    args: seq<seq<Byte>>, stack: nat)
    requires Stacked(m0, m, roots, owner0, owner, r, Up(size)) && prev in roots && Space(m0, prev, prevPages)
    requires stack * 4096 <= size
    ensures r < |m.page|
    ensures var x := Finish(m, r, size, prev, prevPages, args, stack);
      && !x.ExecPanic?
      && (x.Refused? ==> Restored(m0, x.m, roots, owner0))
      && (x.Replaced? ==>
            x.root == r && x.size == size && Took(m0, x.m, roots, owner0, Others(owner, prev), prev, r, Up(size)))
  {
    hide P0, Owned, FreePagetable, PushAll, GiveUp, Stacked, Space, Took, Restored, Up;
    StackedOwned(m0, m, roots, owner0, owner, r, Up(size));
    PushAllKeeps(m0, m, roots, owner0, owner, r, Up(size), size, size - stack * 4096, args);
    var x := PushAll(m, r, size, size - stack * 4096, args);
    if x.PushBad? {
      GiveUpWorks(m0, x.m, roots, owner0, owner, r, Up(size));
    } else {
      CommitWorks(m0, x.m, roots, owner0, owner, r, Up(size), prev, prevPages);
    }
  }

  lemma UpOfPages(n: nat, k: nat)
    ensures Up(n * 4096) == n && Up(n * 4096 + k * 4096) == n + k
  {
    Divide(n * 4096 + 4095, n, 4095, 4096);
    Divide((n + k) * 4096 + 4095, n + k, 4095, 4096);
  }

  lemma StartBuilding(m: Mem, m1: Mem, roots: set<nat>, owner: Owners, o1: Owners, r: nat)
    requires Beside(m, m1, roots, owner, o1, r) && Space(m1, r, 0)
    ensures Building(m, m1, roots, owner, o1, r, Up(0))
  {
    hide P0;
  }

  lemma BuildStackWorks(m0: Mem, m: Mem, roots: set<nat>, owner0: Owners, owner: Owners, r: nat, size: nat, prev: nat,
                        prevPages: nat,
                        args: seq<seq<Byte>>, stack: nat)
    returns (owner': Owners)
    requires Building(m0, m, roots, owner0, owner, r, Up(size)) && prev in roots && Space(m0, prev, prevPages)
    ensures var x := BuildStack(m, r, size, prev, prevPages, args, stack);
      && !x.ExecPanic?
      && (x.Refused? ==> Restored(m0, x.m, roots, owner0))
      && (x.Replaced? ==> Took(m0, x.m, roots, owner0, owner', prev, x.root, Up(x.size)))
  {
    hide P0, Owned, Uvmalloc, GiveUp, Building, Stacked, Space, Took, Restored, Up, Uvmclear, Finish, TopSet, UserBit;
    var n := Up(size);
    UpOfPages(n, stack + 1);
    owner' := BuildAlloc(m0, m, roots, owner0, owner, r, n * 4096, n * 4096 + (stack + 1) * 4096, 4);
    var (y, size1) := Uvmalloc(m, r, n * 4096, n * 4096 + (stack + 1) * 4096, 4);
    if y.Failed? {
      BuiltStacked(m0, y.m, roots, owner0, owner', r, n);
      GiveUpWorks(m0, y.m, roots, owner0, owner', r, n);
    } else {
      var n' := n + stack + 1;
      BuildingFacts(m0, y.m, roots, owner0, owner', r, n');
      UvmclearWorks(y.m, roots + {r}, owner', r, n);
      var m1 := Uvmclear(y.m, r, n).m;
      StackCleared(m0, y.m, m1, roots, owner0, owner', r, n', n, NoUserBit(P0(y.m, r, n)));
      FinishWorks(m0, m1, roots, owner0, owner', r, n * 4096 + (stack + 1) * 4096, prev, prevPages, args, stack);
      owner' := Others(owner', prev);
    }
  }

  /** exec never panics.  If it fails, every frame that it took is free again and the
      caller's image is as it was; if it succeeds, the new address space has taken the
      place of the old one, whose frames are all free, and no other has changed. */
  lemma ExecWorks(m: Mem, roots: set<nat>, owner: Owners, prev: nat, prevPages: nat, tramp: nat, tf: nat,
                  segs: seq<Seg>, args: seq<seq<Byte>>, stack: nat)
    returns (owner': Owners)
    requires Owned(m, roots, owner) && prev in roots && Space(m, prev, prevPages) && tramp < |m.page| && tf < |m.page|
    requires SegsOk(segs)
    ensures var x := Exec(m, prev, prevPages, tramp, tf, segs, args, stack);
      && !x.ExecPanic?
      && (x.Refused? ==> Restored(m, x.m, roots, owner))
      && (x.Replaced? ==> Took(m, x.m, roots, owner, owner', prev, x.root, Up(x.size)))
  {
    hide P0, Owned, ProcPagetable, LoadAll, GiveUp, Building, Stacked, Space, Took, BuildStack, Beside, SameFlat,
      SameData, Up;
    owner' := ProcPagetableWorks(m, roots, owner, tramp, tf);
    var p := ProcPagetable(m, tramp, tf);
    if p.Made? {
      StartBuilding(m, p.m, roots, owner, owner', p.root);
      owner' := LoadAllWorks(m, p.m, roots, owner, owner', p.root, 0, segs, 0);
      var x := LoadAll(p.m, p.root, 0, segs, 0);
      if x.SegBad? {
        BuiltStacked(m, x.m, roots, owner, owner', p.root, Up(x.size));
        GiveUpWorks(m, x.m, roots, owner, owner', p.root, Up(x.size));
      } else {
        owner' := BuildStackWorks(m, x.m, roots, owner, owner', p.root, x.size, prev, prevPages, args, stack);
      }
    }
  }
}
