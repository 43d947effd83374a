/** What a program finds in its memory after exec (kernel/exec.c): the bytes of its segments,
    zeros elsewhere, and its arguments at the top of the stack. */
module VmImage {
  import opened Bytes
  import opened PageTable
  import opened VmSpec
  import opened VmMap
  import opened VmFree
  import opened VmUser
  import B = VmBytes
  import opened VmFork
  import opened VmExec

  // ---- segments

  predicate Covers(seg: Seg, a: nat) {
    seg.load && seg.vaddr <= a < seg.vaddr + seg.filesz && a - seg.vaddr < |seg.data|
  }

  /** The byte that the first `k` segments put at an address: that of the last one of them
      that covers it, and 0 if none does. */
  function SegByte(segs: seq<Seg>, k: nat, a: nat): Byte
    requires k <= |segs|
  {
    if k == 0 then 0
    else if Covers(segs[k - 1], a) then segs[k - 1].data[a - segs[k - 1].vaddr]
    else SegByte(segs, k - 1, a)
  }

  ghost predicate ByteIs(m: Mem, r: nat, a: nat, b: Byte) {
    B.Readable(m, r, a) && B.UserByte(m, r, a) == b
  }

  /** The `n` pages of the image hold what the first `k` segments say. */
  ghost predicate Holds(m: Mem, r: nat, n: nat, segs: seq<Seg>, k: nat)
    requires k <= |segs|
  {
    && (forall a :: 0 <= a < n * 4096 ==> ByteIs(m, r, a, SegByte(segs, k, a)))
    && (forall a :: a >= n * 4096 ==> SegByte(segs, k, a) == 0)
  }

  /** Bytes below an address stay. */
  ghost predicate Below(m: Mem, m': Mem, r: nat, end: nat) {
    forall a, b :: 0 <= a < end && ByteIs(m, r, a, b) ==> ByteIs(m', r, a, b)
  }

  lemma HoldsBelow(m: Mem, m': Mem, r: nat, n: nat, segs: seq<Seg>, k: nat)
    requires k <= |segs| && Holds(m, r, n, segs, k) && Below(m, m', r, n * 4096)
    ensures Holds(m', r, n, segs, k)
  {
    hide ByteIs, SegByte;
    forall a | 0 <= a < n * 4096
      ensures ByteIs(m', r, a, SegByte(segs, k, a))
    {
      assert ByteIs(m, r, a, SegByte(segs, k, a));
    }
  }

  lemma BelowTwice(m: Mem, m1: Mem, m2: Mem, r: nat, end: nat)
    requires Below(m, m1, r, end) && Below(m1, m2, r, end)
    ensures Below(m, m2, r, end)
  {
    hide ByteIs;
    forall a, b | 0 <= a < end && ByteIs(m, r, a, b)
      ensures ByteIs(m2, r, a, b)
    {
      assert ByteIs(m1, r, a, b);
    }
  }

  lemma PageOf(a: nat, n: nat)
    requires a < n * 4096
    ensures a / 4096 < n
  {
  }

  /** A page whose entry and whose frame's contents stay keeps its bytes. */
  lemma ByteKept(m: Mem, m': Mem, r: nat, a: nat, b: Byte)
    requires ByteIs(m, r, a, b) && P0(m', r, a / 4096) == P0(m, r, a / 4096) && |m'.page| == |m.page|
    requires m'.page[Frame(P0(m, r, a / 4096))] == m.page[Frame(P0(m, r, a / 4096))]
    ensures ByteIs(m', r, a, b)
  {
    hide P0, Frame, Valid, UserBit;
  }

  /** The frame of a user page is owned as such. */
  lemma LeafOwner(m: Mem, roots: set<nat>, owner: Owners, r: nat, v: nat)
    requires Owned(m, roots, owner) && r in roots && v < TRAPFRAME && P0(m, r, v) != 0
    ensures Frame(P0(m, r, v)) in owner && owner[Frame(P0(m, r, v))] == Part(r, Leaf(v))
  {
    hide P0, Frame, Valid, Leafy, UserBit;
    assert Ent0(m, owner, r, v);
  }

  lemma EntryNonZero(m: Mem, r: nat, a: nat, b: Byte)
    requires ByteIs(m, r, a, b)
    ensures a / 4096 < MAXVPN && P0(m, r, a / 4096) != 0 && Frame(P0(m, r, a / 4096)) < |m.page|
  {
    hide P0, Frame, UserBit;
    NonZero(P0(m, r, a / 4096));
  }

  /** Data of `owner` and the entries below page `n` stay: the bytes there stay. */
  lemma DataBelow(m: Mem, m': Mem, roots: set<nat>, owner: Owners, o1: Owners, r: nat, n: nat)
    requires Owned(m, roots, owner) && r in roots && n <= TRAPFRAME && SameData(m, m', o1)
    requires forall g :: g in owner && owner[g].Part? && owner[g].root == r ==> g in o1 && o1[g] == owner[g]
    requires forall u :: 0 <= u < n ==> P0(m', r, u) == P0(m, r, u)
    ensures Below(m, m', r, n * 4096)
  {
    hide Owned, P0, ByteIs, Frame;
    forall a, b | 0 <= a < n * 4096 && ByteIs(m, r, a, b)
      ensures ByteIs(m', r, a, b)
    {
      PageOf(a, n);
      EntryNonZero(m, r, a, b);
      LeafOwner(m, roots, owner, r, a / 4096);
      ByteKept(m, m', r, a, b);
    }
  }

  lemma NewByte(m: Mem, r: nat, a: nat, xperm: nat)
    requires a / 4096 < TRAPFRAME && NewPage(m, r, a / 4096, 18 + xperm) && XpermOk(xperm)
    ensures ByteIs(m, r, a, 0)
  {
    hide P0;
    UserPage(m, r, a / 4096, xperm);
    var e := P0(m, r, a / 4096);
    FlagValid(Frame(e), xperm);
  }

  lemma FlagValid(f: nat, xperm: nat)
    requires XpermOk(xperm)
    ensures Valid(PteOf(f, 18 + xperm))
  {
    PteFacts(f, 18 + xperm);
  }

  /** uvmalloc's pages are zero, and so say the segments. */
  lemma GrewHolds(m: Mem, m': Mem, roots: set<nat>, owner: Owners, owner': Owners, r: nat, n: nat, n': nat, xperm: nat,
                  segs: seq<Seg>, k: nat)
    requires Owned(m, roots, owner) && r in roots && n <= n' <= TRAPFRAME && XpermOk(xperm) && k <= |segs|
    requires Grew(m, m', roots, owner, owner', r, n, n', 18 + xperm) && Holds(m, r, n, segs, k)
    ensures Holds(m', r, n', segs, k)
  {
    hide Owned, P0, ByteIs, SegByte, NewPage;
    DataBelow(m, m', roots, owner, owner, r, n);
    HoldsBelow(m, m', r, n, segs, k);
    forall a | n * 4096 <= a < n' * 4096
      ensures ByteIs(m', r, a, SegByte(segs, k, a))
    {
      PageOf(a, n');
      PageFrom(a, n);
      NewByte(m', r, a, xperm);
    }
  }

  lemma PageFrom(a: nat, n: nat)
    requires n * 4096 <= a
    ensures n <= a / 4096
  {
  }

  /** loadseg's bytes are those that the segment says. */
  lemma LoadedHolds(m: Mem, m': Mem, roots: set<nat>, r: nat, n: nat, segs: seq<Seg>, k: nat)
    requires k < |segs| && r in roots && Holds(m, r, n, segs, k) && segs[k].load && segs[k].filesz <= |segs[k].data|
    requires segs[k].vaddr + segs[k].filesz <= n * 4096
    requires B.WroteUser(m, m', roots, r, segs[k].vaddr, segs[k].data, 0, segs[k].filesz)
    ensures Holds(m', r, n, segs, k + 1)
  {
    hide P0, B.Readable, B.UserByte, SameTables;
    var k' := k + 1;
    forall a | 0 <= a < n * 4096
      ensures ByteIs(m', r, a, SegByte(segs, k', a))
    {
      assert ByteIs(m, r, a, SegByte(segs, k, a));
    }
    forall a | a >= n * 4096
      ensures SegByte(segs, k', a) == 0
    {
      assert SegByte(segs, k, a) == 0;
    }
  }

  lemma Uncovered(m: Mem, r: nat, n: nat, segs: seq<Seg>, k: nat)
    requires k < |segs| && Holds(m, r, n, segs, k) && (!segs[k].load || segs[k].filesz == 0)
    ensures Holds(m, r, n, segs, k + 1)
  {
    hide ByteIs;
    var k' := k + 1;
    forall a | 0 <= a < n * 4096
      ensures ByteIs(m, r, a, SegByte(segs, k', a))
    {
      assert ByteIs(m, r, a, SegByte(segs, k, a));
    }
    forall a | a >= n * 4096
      ensures SegByte(segs, k', a) == 0
    {
      assert SegByte(segs, k, a) == 0;
    }
  }

  lemma UpCovers(a: nat, size: nat)
    requires a <= size
    ensures a <= Up(size) * 4096
  {
  }

  /** Growing for a segment. */
  lemma AllocHolds(m0: Mem, m: Mem, roots: set<nat>, owner0: Owners, owner: Owners, r: nat, size: nat, newsz: nat,
                   xperm: nat,
                   segs: seq<Seg>, k: nat)
    requires Building(m0, m, roots, owner0, owner, r, Up(size)) && XpermOk(xperm) && k <= |segs|
    requires Holds(m, r, Up(size), segs, k)
    ensures r < |m.page| && Up(size) <= TRAPFRAME
    ensures var (x, size1) := Uvmalloc(m, r, size, newsz, xperm);
      x.Got? ==> newsz <= size1 && Holds(x.m, r, Up(size1), segs, k)
  {
    hide P0, Owned, AllocLoop, Building, Stepped, Grew, Holds, Image;
    BuildingFacts(m0, m, roots, owner0, owner, r, Up(size));
    RootBound(m, roots + {r}, owner, r);
    if size <= newsz {
      var owner' := UvmallocWorks(m, roots + {r}, owner, r, size, newsz, xperm);
      var x := Uvmalloc(m, r, size, newsz, xperm).0;
      if x.Got? {
        ImageBound2(x.m, r, Up(newsz));
        GrewHolds(m, x.m, roots + {r}, owner, owner', r, Up(size), Up(newsz), xperm, segs, k);
      }
    }
  }

  lemma ImageBound2(m: Mem, r: nat, n: nat)
    requires Image(m, r, n)
    ensures n <= TRAPFRAME
  {
    hide P0;
  }

  /** One program header. */
  lemma SegmentHolds(m0: Mem, m: Mem, roots: set<nat>, owner0: Owners, owner: Owners, r: nat, size: nat, segs: seq<Seg>,
                     k: nat)
    requires Building(m0, m, roots, owner0, owner, r, Up(size)) && SegsOk(segs) && k < |segs|
    requires Holds(m, r, Up(size), segs, k)
    ensures r < |m.page| && Up(size) <= TRAPFRAME
    ensures var x := LoadSegment(m, r, size, segs[k]); x.SegOk? ==> Holds(x.m, r, Up(x.size), segs, k + 1)
  {
    hide P0, Owned, Uvmalloc, Building, Loadseg, Holds, Up, B.WroteUser, Rewritten;
    var seg := segs[k];
    BuildingFacts(m0, m, roots, owner0, owner, r, Up(size));
    RootBound(m, roots + {r}, owner, r);
    AllocHolds(m0, m, roots, owner0, owner, r, size, seg.vaddr + seg.memsz, seg.xperm, segs, k);
    var x := LoadSegment(m, r, size, seg);
    if x.SegOk? {
      if !seg.load {
        Uncovered(m, r, Up(size), segs, k);
      } else {
        var owner' := BuildAlloc(m0, m, roots, owner0, owner, r, size, seg.vaddr + seg.memsz, seg.xperm);
        var (y, size1) := Uvmalloc(m, r, size, seg.vaddr + seg.memsz, seg.xperm);
        BuildingFacts(m0, y.m, roots, owner0, owner', r, Up(size1));
        UpMono(seg.vaddr + seg.filesz, size1);
        LoadsegWorks(y.m, roots + {r}, owner', r, Up(size1), seg.vaddr, seg.data, seg.filesz, 0);
        if seg.filesz == 0 {
          Uncovered(y.m, r, Up(size1), segs, k);
          LoadNothing(y.m, r, seg.vaddr, seg.data);
        } else {
          UpCovers(seg.vaddr + seg.filesz, size1);
          LoadedHolds(y.m, x.m, roots + {r}, r, Up(size1), segs, k);
        }
      }
    }
  }

  lemma LoadNothing(m: Mem, r: nat, va: nat, data: seq<Byte>)
    requires r < |m.page|
    ensures Loadseg(m, r, va, data, 0, 0) == Loaded(m)
  {
  }

  /** All program headers: the image holds what the segments say. */
  lemma {:induction false} SegmentsHold(m0: Mem, m: Mem, roots: set<nat>, owner0: Owners, owner: Owners, r: nat,
                                        size: nat,
                                        segs: seq<Seg>, k: nat)
    requires Building(m0, m, roots, owner0, owner, r, Up(size)) && SegsOk(segs) && k <= |segs|
    requires Holds(m, r, Up(size), segs, k)
    ensures var x := LoadAll(m, r, size, segs, k); x.SegOk? ==> Holds(x.m, r, Up(x.size), segs, |segs|)
    decreases |segs| - k
  {
    hide P0, Owned, LoadSegment, Building, Up, Holds;
    if k < |segs| {
      SegmentHolds(m0, m, roots, owner0, owner, r, size, segs, k);
      var owner' := SegmentWorks(m0, m, roots, owner0, owner, r, size, segs[k]);
      var x := LoadSegment(m, r, size, segs[k]);
      if x.SegOk? {
        SegmentsHold(m0, x.m, roots, owner0, owner', r, x.size, segs, k + 1);
      }
    }
  }

  // ---- arguments

  ghost predicate OneAt(m: Mem, r: nat, va: nat, bs: seq<Byte>, a: nat) {
    va <= a < va + |bs| ==> ByteIs(m, r, a, bs[a - va])
  }

  /** The bytes of `bs` lie at `va`. */
  ghost predicate BytesAt(m: Mem, r: nat, va: nat, bs: seq<Byte>) {
    forall a: nat :: OneAt(m, r, va, bs, a)
  }

  /** Bytes outside a range stay. */
  ghost predicate Apart(m: Mem, m': Mem, r: nat, lo: nat, hi: nat) {
    forall a, b :: 0 <= a && (a < lo || hi <= a) && ByteIs(m, r, a, b) ==> ByteIs(m', r, a, b)
  }

  lemma CopyoutShows(m: Mem, roots: set<nat>, owner: Owners, r: nat, va: nat, src: seq<Byte>)
    requires Owned(m, roots, owner) && r in roots
    ensures r < |m.page|
    ensures var x := B.Copyout(m, r, va, src, 0);
      x.Written? ==> BytesAt(x.m, r, va, src) && Apart(m, x.m, r, va, va + |src|) && (src != [] ==> va / 4096 < MAXVPN)
  {
    hide Owned, P0, SameTables, B.Copyout;
    var done := B.CopyoutWrites(m, roots, owner, r, va, src, 0);
    var x := B.Copyout(m, r, va, src, 0);
    if x.Written? {
      forall a: nat
        ensures OneAt(x.m, r, va, src, a)
      {
        assert va <= a < va + |src| ==> B.Writable(m, r, a);
      }
      assert src != [] ==> B.Writable(m, r, va);
    }
  }

  lemma BytesKept(m: Mem, m': Mem, r: nat, lo: nat, hi: nat, va: nat, bs: seq<Byte>)
    requires Apart(m, m', r, lo, hi) && BytesAt(m, r, va, bs) && (va + |bs| <= lo || hi <= va)
    ensures BytesAt(m', r, va, bs)
  {
    hide ByteIs;
    forall a: nat
      ensures OneAt(m', r, va, bs, a)
    {
      assert OneAt(m, r, va, bs, a);
    }
  }

  /** The strings pushed so far stand above sp. */
  ghost predicate Strings(m: Mem, r: nat, sp: nat, args: seq<seq<Byte>>, ustack: seq<nat>) {
    |ustack| <= |args| && forall j :: 0 <= j < |ustack| ==> sp <= ustack[j] && BytesAt(m, r, ustack[j], args[j] + [0])
  }

  /** sys_exec copies each argument into a page. */
  predicate ArgsOk(args: seq<seq<Byte>>) {
    forall k :: 0 <= k < |args| ==> |args[k]| < 4096
  }

  /** A stack pointer that has wrapped round is no user address. */
  lemma NoWrap(sp: nat, d: nat)
    requires d <= 4096 && sp < 0x1_0000_0000_0000_0000 && Aligned(Sub64(sp, d)) / 4096 < MAXVPN
    ensures Aligned(Sub64(sp, d)) + d <= sp
  {
    if sp < d {
      Wrapped(sp - d);
    } else {
      Small(sp - d);
    }
  }

  lemma Wrapped(x: int)
    requires -4096 <= x < 0
    ensures x % 0x1_0000_0000_0000_0000 == x + 0x1_0000_0000_0000_0000
  {
  }

  lemma Small(x: int)
    requires 0 <= x < 0x1_0000_0000_0000_0000
    ensures x % 0x1_0000_0000_0000_0000 == x
  {
  }

  lemma StringsMore(m: Mem, m': Mem, r: nat, sp: nat, sp1: nat, args: seq<seq<Byte>>, ustack: seq<nat>)
    requires Strings(m, r, sp, args, ustack) && |ustack| < |args|
    requires sp1 + |args[|ustack|]| + 1 <= sp
    requires Apart(m, m', r, sp1, sp1 + |args[|ustack|]| + 1) && BytesAt(m', r, sp1, args[|ustack|] + [0])
    ensures Strings(m', r, sp1, args, ustack + [sp1])
  {
    hide ByteIs, BytesAt, Apart;
    var k := |ustack|;
    forall j | 0 <= j < k
      ensures BytesAt(m', r, ustack[j], args[j] + [0])
    {
      BytesKept(m, m', r, sp1, sp1 + |args[k]| + 1, ustack[j], args[j] + [0]);
    }
  }

  lemma ApartBelow(m: Mem, m': Mem, r: nat, lo: nat, hi: nat, base: nat)
    requires Apart(m, m', r, lo, hi) && base <= lo
    ensures Below(m, m', r, base)
  {
    hide ByteIs;
  }

  lemma BelowSelf(m: Mem, r: nat, end: nat)
    ensures Below(m, m, r, end)
  {
  }

  /** The loop over the arguments: every string stands where ustack says, above the stack
      pointer, and nothing below the stack's base has changed. */
  lemma {:induction false} PushArgsShow(m0: Mem, m: Mem, roots: set<nat>, owner0: Owners, owner: Owners, r: nat, n: nat,
                                        sp: nat, base: nat, args: seq<seq<Byte>>, k: nat, ustack: seq<nat>)
    requires Stacked(m0, m, roots, owner0, owner, r, n) && ArgsOk(args) && k == |ustack| <= |args|
    requires Strings(m, r, sp, args, ustack) && sp < 0x1_0000_0000_0000_0000
    ensures r < |m.page|
    ensures var x := PushArgs(m, r, sp, base, args, k, ustack);
      x.Pushed? ==> && |x.ustack| == |args| && Strings(x.m, r, x.sp, args, x.ustack) && x.sp <= sp
                    && Below(m, x.m, r, base) && (k <= 32 ==> |args| <= 32)
    decreases |args| - k
  {
    hide P0, Owned, B.Copyout, Stacked, Sub64, Aligned, Strings, Below, Apart, BytesAt;
    StackedOwned(m0, m, roots, owner0, owner, r, n);
    BelowSelf(m, r, base);
    if k < |args| && k < 32 {
      var sp1 := Aligned(Sub64(sp, |args[k]| + 1));
      if sp1 >= base {
        CopyoutKeeps(m0, m, roots, owner0, owner, r, n, sp1, args[k] + [0]);
        CopyoutShows(m, roots + {r}, owner, r, sp1, args[k] + [0]);
        var x := B.Copyout(m, r, sp1, args[k] + [0], 0);
        if x.Written? {
          NoWrap(sp, |args[k]| + 1);
          StringsMore(m, x.m, r, sp, sp1, args, ustack);
          ApartBelow(m, x.m, r, sp1, sp1 + |args[k]| + 1, base);
          PushArgsShow(m0, x.m, roots, owner0, owner, r, n, sp1, base, args, k + 1, ustack + [sp1]);
          var y := PushArgs(x.m, r, sp1, base, args, k + 1, ustack + [sp1]);
          if y.Pushed? {
            BelowTwice(m, x.m, y.m, r, base);
          }
        }
      }
    }
  }

  lemma {:induction false} WordsLength(s: seq<nat>)
    ensures |Words(s)| == 8 * |s|
    decreases |s|
  {
    if s != [] {
      WordsLength(s[1..]);
    }
  }

  /** What main finds: at sp the array of pointers, closed by 0, each to its string. */
  ghost predicate ArgsAt(m: Mem, r: nat, sp: nat, args: seq<seq<Byte>>, ustack: seq<nat>) {
    && |ustack| == |args| && BytesAt(m, r, sp, Words(ustack + [0]))
    && forall j :: 0 <= j < |args| ==> BytesAt(m, r, ustack[j], args[j] + [0])
  }

  lemma PushAllShows(m0: Mem, m: Mem, roots: set<nat>, owner0: Owners, owner: Owners, r: nat, n: nat,
                     sp: nat, base: nat, args: seq<seq<Byte>>)
    requires Stacked(m0, m, roots, owner0, owner, r, n) && ArgsOk(args) && sp < 0x1_0000_0000_0000_0000
    ensures r < |m.page|
    ensures var x := PushAll(m, r, sp, base, args);
      x.Pushed? ==> ArgsAt(x.m, r, x.sp, args, x.ustack) && Below(m, x.m, r, base) && x.sp % 16 == 0
  {
    hide P0, Owned, B.Copyout, Stacked, PushArgs, Sub64, Words, Below, BytesAt, Apart;
    PushArgsShow(m0, m, roots, owner0, owner, r, n, sp, base, args, 0, []);
    PushArgsKeeps(m0, m, roots, owner0, owner, r, n, sp, base, args, 0, []);
    var x := PushArgs(m, r, sp, base, args, 0, []);
    if x.Pushed? {
      var sp1 := Aligned(Sub64(x.sp, (|args| + 1) * 8));
      var words := Words(x.ustack + [0]);
      WordsLength(x.ustack + [0]);
      StackedOwned(m0, x.m, roots, owner0, owner, r, n);
      CopyoutShows(x.m, roots + {r}, owner, r, sp1, words);
      var y := B.Copyout(x.m, r, sp1, words, 0);
      if sp1 >= base && y.Written? {
        NoWrap(x.sp, (|args| + 1) * 8);
        forall j | 0 <= j < |args|
          ensures BytesAt(y.m, r, x.ustack[j], args[j] + [0])
        {
          BytesKept(x.m, y.m, r, sp1, sp1 + |words|, x.ustack[j], args[j] + [0]);
        }
        ApartBelow(x.m, y.m, r, sp1, sp1 + |words|, base);
        BelowTwice(m, x.m, y.m, r, base);
      }
    }
  }

  // ---- the guard page and the stack

  /** Page `n` cannot be reached by the program, and the `stack` pages above it can be
      written. */
  ghost predicate Fenced(m: Mem, r: nat, n: nat, stack: nat) {
    && (forall a :: n * 4096 <= a < (n + 1) * 4096 ==> !B.Readable(m, r, a))
    && (forall a :: (n + 1) * 4096 <= a < (n + 1 + stack) * 4096 ==> B.Writable(m, r, a))
  }

  /** The entries of an address space stay. */
  ghost predicate SameEntries(m: Mem, m': Mem, r: nat) {
    |m'.page| == |m.page| && forall u :: 0 <= u < MAXVPN ==> P0(m', r, u) == P0(m, r, u)
  }

  lemma FencedKept(m: Mem, m': Mem, r: nat, n: nat, stack: nat)
    requires Fenced(m, r, n, stack) && SameEntries(m, m', r)
    ensures Fenced(m', r, n, stack)
  {
    hide P0, Frame, Valid, UserBit, WriteBit;
    forall a: nat
      ensures B.Readable(m', r, a) == B.Readable(m, r, a) && B.Writable(m', r, a) == B.Writable(m, r, a)
    {
    }
  }

  lemma EntriesTwice(m: Mem, m1: Mem, m2: Mem, r: nat)
    requires SameEntries(m, m1, r) && SameEntries(m1, m2, r)
    ensures SameEntries(m, m2, r)
  {
    hide P0;
  }

  lemma StackPte(f: nat)
    ensures var e := PteOf(f, 22); Valid(e) && UserBit(e) && WriteBit(e) && Frame(e) == f
  {
  }

  lemma GuardPte(f: nat)
    ensures !UserBit(NoUserBit(PteOf(f, 22)))
  {
    assert PteOf(f, 22) - 16 == 16 * (64 * f) + 7;
  }

  /** uvmalloc's pages above `n`, with the user bit of page `n` cleared. */
  lemma FenceBuilt(m: Mem, m': Mem, r: nat, n: nat, stack: nat)
    requires n + 1 + stack <= TRAPFRAME && |m'.page| == |m.page|
    requires forall u :: n <= u < n + 1 + stack ==> NewPage(m, r, u, 22)
    requires forall u :: 0 <= u < NV ==> P0(m', r, u) == if u == n then NoUserBit(P0(m, r, n)) else P0(m, r, u)
    ensures Fenced(m', r, n, stack)
  {
    hide P0, Frame, Valid, UserBit, WriteBit, NoUserBit, PteOf;
    forall a: nat | n * 4096 <= a < (n + 1) * 4096
      ensures !B.Readable(m', r, a)
    {
      assert a / 4096 == n && NewPage(m, r, n, 22);
      GuardPte(Frame(P0(m, r, n)));
    }
    forall a: nat | (n + 1) * 4096 <= a < (n + 1 + stack) * 4096
      ensures B.Writable(m', r, a)
    {
      PageOf(a, n + 1 + stack);
      assert n < a / 4096 && NewPage(m, r, a / 4096, 22);
      StackPte(Frame(P0(m, r, a / 4096)));
    }
  }

  lemma CopyoutEntries(m: Mem, roots: set<nat>, owner: Owners, r: nat, va: nat, src: seq<Byte>)
    requires Owned(m, roots, owner) && r in roots
    ensures r < |m.page|
    ensures var m' := B.Copyout(m, r, va, src, 0).m; SameEntries(m, m', r) && Owned(m', roots, owner)
  {
    hide Owned, P0, P1, P2, B.Copyout, B.Readable, B.UserByte;
    var done := B.CopyoutWrites(m, roots, owner, r, va, src, 0);
  }

  lemma {:induction false} PushArgsEntries(m: Mem, roots: set<nat>, owner: Owners, r: nat, sp: nat, base: nat,
                                           args: seq<seq<Byte>>, k: nat, ustack: seq<nat>)
    requires Owned(m, roots, owner) && r in roots && k <= |args|
    ensures r < |m.page|
    ensures var m' := PushArgs(m, r, sp, base, args, k, ustack).m; SameEntries(m, m', r) && Owned(m', roots, owner)
    decreases |args| - k
  {
    hide Owned, B.Copyout, Sub64, Aligned, SameEntries;
    RootBound(m, roots, owner, r);
    EntriesSelf(m, r);
    if k < |args| && k < 32 {
      var sp1 := Aligned(Sub64(sp, |args[k]| + 1));
      if sp1 >= base {
        CopyoutEntries(m, roots, owner, r, sp1, args[k] + [0]);
        var x := B.Copyout(m, r, sp1, args[k] + [0], 0);
        if x.Written? {
          PushArgsEntries(x.m, roots, owner, r, sp1, base, args, k + 1, ustack + [sp1]);
          EntriesTwice(m, x.m, PushArgs(x.m, r, sp1, base, args, k + 1, ustack + [sp1]).m, r);
        }
      }
    }
  }

  lemma EntriesSelf(m: Mem, r: nat)
    ensures SameEntries(m, m, r)
  {
    hide P0;
  }

  /** Pushing the arguments changes no entry. */
  lemma PushAllEntries(m: Mem, roots: set<nat>, owner: Owners, r: nat, sp: nat, base: nat, args: seq<seq<Byte>>)
    requires Owned(m, roots, owner) && r in roots
    ensures r < |m.page| && SameEntries(m, PushAll(m, r, sp, base, args).m, r)
  {
    hide Owned, B.Copyout, PushArgs, Sub64, Aligned, Words, SameEntries;
    PushArgsEntries(m, roots, owner, r, sp, base, args, 0, []);
    var x := PushArgs(m, r, sp, base, args, 0, []);
    if x.Pushed? {
      var sp1 := Aligned(Sub64(x.sp, (|args| + 1) * 8));
      CopyoutEntries(x.m, roots, owner, r, sp1, Words(x.ustack + [0]));
      EntriesTwice(m, x.m, B.Copyout(x.m, r, sp1, Words(x.ustack + [0]), 0).m, r);
    }
  }

  lemma GoneEntries(m: Mem, m': Mem, roots: set<nat>, owner: Owners, prev: nat, r: nat)
    requires r in roots && prev != r && Gone(m, m', roots, owner, prev)
    ensures SameEntries(m, m', r)
  {
    hide Owned, P0, SameData;
    assert r in roots - {prev};
  }

  // ---- exec as a whole

  /** Only user pages can be read, and those lie below the trapframe. */
  lemma ByteLow(m: Mem, roots: set<nat>, owner: Owners, r: nat, a: nat, b: Byte)
    requires Owned(m, roots, owner) && r in roots && ByteIs(m, r, a, b)
    ensures a < TRAPFRAME * 4096
  {
    hide P0, Frame, Valid, UserBit, Leafy;
    EntryNonZero(m, r, a, b);
    assert Ent0(m, owner, r, a / 4096);
  }

  lemma BytesBelow(m: Mem, m': Mem, roots: set<nat>, owner: Owners, r: nat, va: nat, bs: seq<Byte>)
    requires Owned(m, roots, owner) && r in roots && Below(m, m', r, TRAPFRAME * 4096) && BytesAt(m, r, va, bs)
    ensures BytesAt(m', r, va, bs)
  {
    hide ByteIs, Owned;
    forall a: nat
      ensures OneAt(m', r, va, bs, a)
    {
      assert OneAt(m, r, va, bs, a);
      if va <= a < va + |bs| {
        ByteLow(m, roots, owner, r, a, bs[a - va]);
      }
    }
  }

  lemma ArgsKept(m: Mem, m': Mem, roots: set<nat>, owner: Owners, r: nat, sp: nat, args: seq<seq<Byte>>,
                 ustack: seq<nat>)
    requires Owned(m, roots, owner) && r in roots && Below(m, m', r, TRAPFRAME * 4096) && ArgsAt(m, r, sp, args, ustack)
    ensures ArgsAt(m', r, sp, args, ustack)
  {
    hide Owned, Below, BytesAt, Words;
    BytesBelow(m, m', roots, owner, r, sp, Words(ustack + [0]));
    forall j | 0 <= j < |args|
      ensures BytesAt(m', r, ustack[j], args[j] + [0])
    {
      BytesBelow(m, m', roots, owner, r, ustack[j], args[j] + [0]);
    }
  }

  /** Freeing the old address space touches no byte of the new one. */
  lemma GoneBelow(m: Mem, m': Mem, roots: set<nat>, owner: Owners, prev: nat, r: nat)
    requires Owned(m, roots, owner) && r in roots && prev != r && Gone(m, m', roots, owner, prev)
    ensures Below(m, m', r, TRAPFRAME * 4096)
  {
    hide Owned, P0, Below;
    assert r in roots - {prev};
    DataBelow(m, m', roots, owner, Others(owner, prev), r, TRAPFRAME);
  }

  /** What the program finds: its segments in the `n` pages of its image, zeros elsewhere
      in them, the guard page and the stack above them, and its arguments at sp. */
  ghost predicate Starts(m: Mem, r: nat, n: nat, stack: nat, sp: nat, segs: seq<Seg>, args: seq<seq<Byte>>,
                         ustack: seq<nat>) {
    && Holds(m, r, n, segs, |segs|) && ArgsAt(m, r, sp, args, ustack) && sp % 16 == 0
    && Fenced(m, r, n, stack)
  }

  lemma FinishShows(m0: Mem, m: Mem, roots: set<nat>, owner0: Owners, owner: Owners, r: nat, size: nat, prev: nat,
                    prevPages: nat,
                    segs: seq<Seg>, args: seq<seq<Byte>>, stack: nat, n: nat)
    returns (ustack: seq<nat>)
    requires Stacked(m0, m, roots, owner0, owner, r, Up(size)) && prev in roots && Space(m0, prev, prevPages)
    requires stack * 4096 <= size < 0x1_0000_0000_0000_0000 && ArgsOk(args)
    requires n * 4096 <= size - stack * 4096 && n <= TRAPFRAME && Holds(m, r, n, segs, |segs|)
    requires Fenced(m, r, n, stack)
    ensures r < |m.page|
    ensures var x := Finish(m, r, size, prev, prevPages, args, stack);
      x.Replaced? ==> Starts(x.m, r, n, stack, x.sp, segs, args, ustack)
  {
    hide P0, Owned, FreePagetable, PushAll, GiveUp, Stacked, Space, Up, Holds, ArgsAt, Below, Gone, Fenced, SameEntries;
    var base := size - stack * 4096;
    ustack := [];
    StackedOwned(m0, m, roots, owner0, owner, r, Up(size));
    PushAllKeeps(m0, m, roots, owner0, owner, r, Up(size), size, base, args);
    PushAllShows(m0, m, roots, owner0, owner, r, Up(size), size, base, args);
    PushAllEntries(m, roots + {r}, owner, r, size, base, args);
    var x := PushAll(m, r, size, base, args);
    if x.Pushed? {
      ustack := x.ustack;
      StackedOwned(m0, x.m, roots, owner0, owner, r, Up(size));
      BelowLess(m, x.m, r, base, n * 4096);
      HoldsBelow(m, x.m, r, n, segs, |segs|);
      CommitWorks(m0, x.m, roots, owner0, owner, r, Up(size), prev, prevPages);
      CommitGone(m0, x.m, roots, owner0, owner, r, Up(size), prev, prevPages);
      var m' := FreePagetable(x.m, prev, prevPages).m;
      GoneBelow(x.m, m', roots + {r}, owner, prev, r);
      GoneEntries(x.m, m', roots + {r}, owner, prev, r);
      EntriesTwice(m, x.m, m', r);
      FencedKept(m, m', r, n, stack);
      ArgsKept(x.m, m', roots + {r}, owner, r, x.sp, args, ustack);
      BelowLess(x.m, m', r, TRAPFRAME * 4096, n * 4096);
      HoldsBelow(x.m, m', r, n, segs, |segs|);
    } else {
      GiveUpWorks(m0, x.m, roots, owner0, owner, r, Up(size));
    }
  }

  lemma BelowLess(m: Mem, m': Mem, r: nat, end: nat, less: nat)
    requires Below(m, m', r, end) && less <= end
    ensures Below(m, m', r, less)
  {
    hide ByteIs;
  }

  lemma CommitGone(m0: Mem, m: Mem, roots: set<nat>, owner0: Owners, owner: Owners, r: nat, n: nat, prev: nat,
                   prevPages: nat)
    requires Stacked(m0, m, roots, owner0, owner, r, n) && prev in roots && Space(m0, prev, prevPages)
    ensures prev < |m.page| && prevPages <= MAXVPN && prev != r && FreePagetable(m, prev, prevPages).Done?
    ensures Gone(m, FreePagetable(m, prev, prevPages).m, roots + {r}, owner, prev)
  {
    hide P0, Owned, FreePagetable, Gone, SameData, Others;
    StackedOwned(m0, m, roots, owner0, owner, r, n);
    PrevSpace(m0, m, roots, prev, prevPages);
    FreePagetableWorks(m, roots + {r}, owner, prev, prevPages);
  }

  lemma GrewBelow(m: Mem, m': Mem, roots: set<nat>, owner: Owners, owner': Owners, r: nat, n: nat, n': nat, perm: nat)
    requires Owned(m, roots, owner) && r in roots && n <= TRAPFRAME && Grew(m, m', roots, owner, owner', r, n, n', perm)
    ensures Below(m, m', r, n * 4096)
  {
    hide Owned, P0, Below, NewPage;
    DataBelow(m, m', roots, owner, owner, r, n);
  }

  lemma ClearBelow(m: Mem, m': Mem, roots: set<nat>, owner: Owners, r: nat, v: nat, pte: nat)
    requires Owned(m, roots, owner) && r in roots && v <= TRAPFRAME && TopSet(m, m', roots, owner, owner, r, v, pte)
    ensures Below(m, m', r, v * 4096)
  {
    hide Owned, P0, Below;
    DataBelow(m, m', roots, owner, owner, r, v);
  }

  lemma StackFenced(m: Mem, m1: Mem, m2: Mem, roots: set<nat>, owner: Owners, o1: Owners, r: nat, n: nat, stack: nat)
    requires Grew(m, m1, roots, owner, o1, r, n, n + stack + 1, 22) && r in roots && n + stack + 1 <= TRAPFRAME
    requires TopSet(m1, m2, roots, o1, o1, r, n, NoUserBit(P0(m1, r, n)))
    ensures Fenced(m2, r, n, stack)
  {
    hide P0, Owned, NewPage, Fenced, NoUserBit;
    EntrySet(m1, m2, roots, o1, r, n, NoUserBit(P0(m1, r, n)));
    FenceBuilt(m1, m2, r, n, stack);
  }

  lemma BuildStackShows(m0: Mem, m: Mem, roots: set<nat>, owner0: Owners, owner: Owners, r: nat, size: nat, prev: nat,
                        prevPages: nat,
                        segs: seq<Seg>, args: seq<seq<Byte>>, stack: nat)
    returns (ustack: seq<nat>)
    requires Building(m0, m, roots, owner0, owner, r, Up(size)) && prev in roots && Space(m0, prev, prevPages)
    requires ArgsOk(args) && Holds(m, r, Up(size), segs, |segs|)
    ensures var x := BuildStack(m, r, size, prev, prevPages, args, stack);
      x.Replaced? ==> && x.root == r && Starts(x.m, r, Up(size), stack, x.sp, segs, args, ustack)
                      && x.size == (Up(size) + stack + 1) * 4096
  {
    hide P0, Owned, AllocLoop, GiveUp, Building, Stacked, Space, Up, Uvmclear, Finish, TopSet, UserBit, Holds, Starts,
      Below, Grew, Stepped, Fenced;
    ustack := [];
    var n := Up(size);
    UpOfPages(n, stack + 1);
    BuildingFacts(m0, m, roots, owner0, owner, r, n);
    RootBound(m, roots + {r}, owner, r);
    var owner' := UvmallocWorks(m, roots + {r}, owner, r, n * 4096, n * 4096 + (stack + 1) * 4096, 4);
    var y := Uvmalloc(m, r, n * 4096, n * 4096 + (stack + 1) * 4096, 4).0;
    if y.Got? {
      var n' := n + stack + 1;
      BuildGrown(m0, m, y.m, roots, owner0, owner, owner', r, n, n', 4);
      GrewBelow(m, y.m, roots + {r}, owner, owner', r, n, n', 22);
      HoldsBelow(m, y.m, r, n, segs, |segs|);
      BuildingFacts(m0, y.m, roots, owner0, owner', r, n');
      UvmclearWorks(y.m, roots + {r}, owner', r, n);
      var m1 := Uvmclear(y.m, r, n).m;
      var pte := NoUserBit(P0(y.m, r, n));
      ClearBelow(y.m, m1, roots + {r}, owner', r, n, pte);
      HoldsBelow(y.m, m1, r, n, segs, |segs|);
      StackFenced(m, y.m, m1, roots + {r}, owner, owner', r, n, stack);
      StackCleared(m0, y.m, m1, roots, owner0, owner', r, n', n, pte);
      var top := n * 4096 + (stack + 1) * 4096;
      FinishWorks(m0, m1, roots, owner0, owner', r, top, prev, prevPages, args, stack);
      ustack := FinishShows(m0, m1, roots, owner0, owner', r, top, prev, prevPages, segs, args, stack, n);
    } else {
      BuildStepped(m0, m, y.m, roots, owner0, owner, owner', r, n);
      BuiltStacked(m0, y.m, roots, owner0, owner', r, n);
      GiveUpWorks(m0, y.m, roots, owner0, owner', r, n);
    }
  }

  lemma EmptyHolds(m: Mem, r: nat, segs: seq<Seg>)
    ensures Holds(m, r, Up(0), segs, 0)
  {
  }

  /** A successful exec: the image is that of the program file.  Each byte of its pages is
      the one that the last segment covering it says, or 0; the argument strings are on
      the stack, and at the new stack pointer lies the array of pointers to them.  The
      `n` pages of the image are followed by the guard page, no byte of which the program
      can read, and by the pages of the stack, every byte of which it can write. */
  lemma ExecShows(m: Mem, roots: set<nat>, owner: Owners, prev: nat, prevPages: nat, tramp: nat, tf: nat,
                  segs: seq<Seg>, args: seq<seq<Byte>>, stack: nat)
    returns (n: nat, ustack: seq<nat>)
    requires Owned(m, roots, owner) && prev in roots && Space(m, prev, prevPages) && tramp < |m.page| && tf < |m.page|
    requires SegsOk(segs) && ArgsOk(args)
    ensures var x := Exec(m, prev, prevPages, tramp, tf, segs, args, stack);
      x.Replaced? ==> Starts(x.m, x.root, n, stack, x.sp, segs, args, ustack) && x.size == (n + stack + 1) * 4096
  {
    hide P0, Owned, ProcPagetable, LoadAll, GiveUp, Building, Stacked, Space, BuildStack, Beside, SameFlat, SameData,
      Up, Starts, Holds;
    n, ustack := 0, [];
    var owner' := ProcPagetableWorks(m, roots, owner, tramp, tf);
    var p := ProcPagetable(m, tramp, tf);
    if p.Made? {
      StartBuilding(m, p.m, roots, owner, owner', p.root);
      EmptyHolds(p.m, p.root, segs);
      SegmentsHold(m, p.m, roots, owner, owner', p.root, 0, segs, 0);
      owner' := LoadAllWorks(m, p.m, roots, owner, owner', p.root, 0, segs, 0);
      var x := LoadAll(p.m, p.root, 0, segs, 0);
      if x.SegBad? {
        BuiltStacked(m, x.m, roots, owner, owner', p.root, Up(x.size));
        GiveUpWorks(m, x.m, roots, owner, owner', p.root, Up(x.size));
      } else {
        n := Up(x.size);
        ustack := BuildStackShows(m, x.m, roots, owner, owner', p.root, x.size, prev, prevPages, segs, args, stack);
      }
    }
  }

  /** A pointer of the array: the string copyinstr would read there is the argument. */
  lemma ArgIsString(m: Mem, r: nat, p: nat, arg: seq<Byte>)
    requires BytesAt(m, r, p, arg + [0]) && forall i :: 0 <= i < |arg| ==> arg[i] != 0
    ensures B.StringAt(m, r, p, |arg|) && B.UserBytes(m, r, p, |arg|) == arg
  {
    hide P0, B.Readable, B.UserByte;
    var bs := arg + [0];
    forall a | p <= a < p + |bs|
      ensures B.Readable(m, r, a) && B.UserByte(m, r, a) == bs[a - p]
    {
      assert OneAt(m, r, p, bs, a);
    }
  }
}
