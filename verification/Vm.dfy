/** kernel/vm.c and kernel/kalloc.c at work: page tables are edited in place in physical
    memory.  Each method computes the function that the theorems are about.  Where a
    PTE names a frame outside memory, the access would fault; the theorems show that
    this does not happen. */
module Vm {
  import opened Options
  import opened Bytes
  import opened PageTable
  import opened PageOwner
  import opened VmSpec
  import opened VmMap
  import opened VmFree
  import opened VmUser
  import opened VmCopy
  import B = VmBytes
  import R = VmRuns

  datatype Found = NotFound | At(t: nat)

  /** How a routine ends: success, an error return, or a panic. */
  datatype Code = Ok | Error | Panicked

  /** PX(level, va): nine bits of the virtual address. */
  function Px(level: nat, va: nat): nat
    requires level <= 2
  {
    (if level == 0 then va / 0x1000 else if level == 1 then va / 0x20_0000 else va / 0x4000_0000) % 512
  }

  /** The indices of walk in terms of the virtual page number. */
  lemma PxIs(va: nat)
    requires va / 4096 < MAXVPN
    ensures Px(2, va) == va / 4096 / 0x4_0000 && Px(1, va) == va / 4096 / 512 % 512 && Px(0, va) == va / 4096 % 512
  {
    var v, o := va / 4096, va % 4096;
    Divide(va, v / 0x4_0000, 4096 * (v % 0x4_0000) + o, 0x4000_0000);
    Divide(va, v / 512, 4096 * (v % 512) + o, 0x20_0000);
  }

  /** The numbers from `p` - 1 down to `lo`. */
  function Down(p: nat, lo: nat): seq<nat>
    requires lo <= p
  {
    if p == lo then [] else [p - 1] + Down(p - 1, lo)
  }

  lemma {:induction false} DownFacts(p: nat, lo: nat)
    requires lo <= p
    ensures |Down(p, lo)| == p - lo && forall k :: 0 <= k < p - lo ==> Down(p, lo)[k] == p - 1 - k
    ensures forall f :: f in Down(p, lo) <==> lo <= f < p
  {
    if p > lo {
      DownFacts(p - 1, lo);
    }
  }

  /** A free list without repetitions, of frames below `n`. */
  predicate Pool(free: seq<nat>, n: nat) {
    && (forall a :: 0 <= a < |free| ==> free[a] < n)
    && (forall a, b :: 0 <= a < b < |free| ==> free[a] != free[b])
  }

  lemma PoolBoots(free: seq<nat>, held: nat, n: nat, kernel: set<nat>)
    requires Pool(free, n) && held <= n && forall f :: f in kernel <==> 0 <= f < held
    requires forall f :: f in free <==> held <= f < n
    ensures FreeOk(free, R.Kept(kernel), n)
  {
    forall a | 0 <= a < |free|
      ensures free[a] !in R.Kept(kernel)
    {
      assert free[a] in free;
    }
  }

  lemma PoolFacts(free: seq<nat>, lo: nat, hi: nat)
    requires lo <= hi && Pool(free, lo)
    ensures var all := Down(hi, lo) + free;
      |all| == |free| + (hi - lo) && Pool(all, hi) && forall f :: f in all <==> f in free || lo <= f < hi
  {
    DownFacts(hi, lo);
  }

  lemma PageOf(v: nat)
    ensures v * 4096 / 4096 == v && v * 4096 % 4096 == 0
  {
    Divide(v * 4096, v, 0, 4096);
  }

  lemma NextPage(a: nat)
    requires a % 4096 == 0
    ensures (a + 4096) / 4096 == a / 4096 + 1 && (a + 4096) % 4096 == 0
  {
    Divide(a + 4096, a / 4096 + 1, 0, 4096);
  }

  class Vm {
    var m: Mem

    /** A page from the free list, filled with junk, or none. */
    method Kalloc() returns (f: Found)
      requires m.free != [] ==> m.free[0] < |m.page|
      modifies this
      ensures old(m).free == [] ==> f == NotFound && m == old(m)
      ensures old(m).free != [] ==> f == At(old(m).free[0]) && m == Taken(old(m))
    {
      if m.free == [] {
        return NotFound;
      }
      var r := m.free[0];
      m := m.(free := m.free[1..]);
      Memset(r, 5);
      f := At(r);
    }

    /** Fill a page. */
    method Memset(f: nat, b: Byte)
      requires f < |m.page|
      modifies this
      ensures m == SetPage(old(m), f, Filled(b))
    {
      m := SetPage(m, f, Filled(b));
    }

    /** Put a page on the free list. */
    method Kfree(f: nat)
      requires f < |m.page|
      modifies this
      ensures m == Freed(old(m), f)
    {
      Memset(f, 1);
      m := m.(free := [f] + m.free);
    }

    /** Give the frames `lo..hi` to the allocator. */
    method Freerange(lo: nat, hi: nat)
      requires lo <= hi <= |m.page| && Pool(m.free, lo)
      modifies this
      ensures |m.page| == |old(m).page| && |m.free| == |old(m).free| + (hi - lo) && Pool(m.free, hi)
      ensures forall f :: f in m.free <==> f in old(m).free || lo <= f < hi
    {
      hide Pool;
      var p := lo;
      while p < hi
        invariant lo <= p <= hi <= |m.page| == |old(m).page|
        invariant m.free == Down(p, lo) + old(m).free
      {
        Kfree(p);
        p := p + 1;
      }
      PoolFacts(old(m).free, lo, hi);
    }

    /** kinit: the kernel has the first `held` frames, the allocator all others. */
    method Kinit(held: nat, ghost kernel: set<nat>)
      requires m.free == [] && held <= |m.page| <= 0x100_0000 && forall f :: f in kernel <==> 0 <= f < held
      modifies this
      ensures R.Boot(R.State(m, map[], false), kernel)
    {
      Freerange(held, |m.page|);
      PoolBoots(m.free, held, |m.page|, kernel);
    }

    /** The table page that holds the PTE of `va`, made on the way if `alloc`. */
    method Walk(root: nat, va: nat, alloc: bool) returns (f: Found)
      requires root < |m.page| && va / 4096 < MAXVPN
      modifies this
      ensures var w := VmSpec.Walk(old(m), root, va / 4096, alloc);
        m == w.m && f == if w.Slot? then At(w.t) else NotFound
    {
      PxIs(va);
      hide Px, Word, PutWord;
      var pagetable: nat, level: nat := root, 2;
      while level > 0
        invariant level <= 2 && pagetable < |m.page| == |old(m).page|
        invariant level == 2 ==> m == old(m) && pagetable == root
        invariant level == 1 ==> WalkStep(old(m), root, va / 4096 / 0x4_0000, alloc) == Slot(m, pagetable)
        invariant level == 0 ==> VmSpec.Walk(old(m), root, va / 4096, alloc) == Slot(m, pagetable)
      {
        f := Step(pagetable, Px(level, va), alloc);
        if f == NotFound {
          return;
        }
        pagetable := f.t;
        level := level - 1;
      }
      f := At(pagetable);
    }

    /** One level of walk. */
    method Step(pagetable: nat, k: nat, alloc: bool) returns (f: Found)
      requires pagetable < |m.page| && k < 512
      modifies this
      ensures var w := WalkStep(old(m), pagetable, k, alloc); m == w.m && f == if w.Slot? then At(w.t) else NotFound
    {
      var pte := Pte(m, pagetable, k);
      if Valid(pte) {
        return if Frame(pte) < |m.page| then At(Frame(pte)) else NotFound;
      }
      if !alloc || (m.free != [] && m.free[0] >= |m.page|) {
        return NotFound;
      }
      f := Kalloc();
      if f == NotFound {
        return;
      }
      Memset(f.t, 0);
      m := SetPte(m, pagetable, k, 1024 * f.t + 1);
    }

    /** Map `n` pages from `va` on to the frames from `f` on. */
    method Mappages(root: nat, va: nat, n: nat, f: nat, perm: nat) returns (code: Code)
      requires root < |m.page| && va % 4096 == 0 && n > 0 && va / 4096 + n <= MAXVPN
      modifies this
      ensures var x := VmMap.Mappages(old(m), root, va / 4096, n, f, perm);
        match code
        case Ok => x == Mapped(m)
        case Error => x == NoMemory(m)
        case Panicked => x == Remap
    {
      hide Px, Word, PutWord, VmSpec.Walk, Valid;
      var a, last, g := va, va + n * 4096 - 4096, f;
      ghost var k := 0;
      while true
        invariant k < n && a == va + 4096 * k && a % 4096 == 0 && a / 4096 == va / 4096 + k && g == f + k
        invariant root < |m.page|
        invariant VmMap.Mappages(m, root, va / 4096 + k, n - k, f + k, perm) ==
          VmMap.Mappages(old(m), root, va / 4096, n, f, perm)
        decreases n - k
      {
        var w := Walk(root, a, true);
        if w == NotFound {
          return Error;
        }
        PxIs(a);
        if Valid(Pte(m, w.t, Px(0, a))) {
          return Panicked;
        }
        m := SetPte(m, w.t, Px(0, a), PteOf(g, perm));
        if a == last {
          return Ok;
        }
        NextPage(a);
        a, g, k := a + 4096, g + 1, k + 1;
      }
    }

    /** Remove the mappings of `n` pages from `va` on. */
    method Uvmunmap(root: nat, va: nat, n: nat, free: bool) returns (code: Code)
      requires root < |m.page| && va % 4096 == 0 && va / 4096 + n <= MAXVPN
      modifies this
      ensures var x := Unmap(old(m), root, va / 4096, n, free);
        code == (if x.Done? then Ok else Panicked) && (x.Done? ==> m == x.m)
    {
      hide Px, Word, PutWord, VmSpec.Walk, Valid, Frame, Freed;
      var a := va;
      ghost var k := 0;
      while a < va + n * 4096
        invariant k <= n && a == va + 4096 * k && a % 4096 == 0 && a / 4096 == va / 4096 + k && root < |m.page|
        invariant Unmap(m, root, va / 4096 + k, n - k, free) == Unmap(old(m), root, va / 4096, n, free)
        decreases n - k
      {
        NoAllocSame(m, root, a / 4096);
        var w := Walk(root, a, false);
        if w == NotFound {
          return Panicked;
        }
        PxIs(a);
        var pte := Pte(m, w.t, Px(0, a));
        if !Valid(pte) || pte % 1024 == 1 || Frame(pte) >= |m.page| {
          return Panicked;
        }
        if free {
          Kfree(Frame(pte));
        }
        m := SetPte(m, w.t, Px(0, a), 0);
        NextPage(a);
        a, k := a + 4096, k + 1;
      }
      return Ok;
    }

    /** Grow user memory from `oldsz` to `newsz` bytes; the new size, or 0. */
    method Uvmalloc(root: nat, oldsz: nat, newsz: nat, xperm: nat) returns (code: Code, size: nat)
      requires root < |m.page| && Up(oldsz) <= MAXVPN
      modifies this
      ensures var (x, s) := VmUser.Uvmalloc(old(m), root, oldsz, newsz, xperm);
        match x
        case Bad => code == Panicked
        case Failed(m') => code == Error && m == m' && size == s
        case Got(m') => code == Ok && m == m' && size == s
    {
      hide Px, Word, PutWord, VmMap.MapOne, Unmap, Freed;
      if newsz < oldsz {
        return Ok, oldsz;
      }
      var start := Up(oldsz) * 4096;
      PageOf(Up(oldsz));
      var a := start;
      ghost var v := Up(oldsz);
      while a < newsz
        invariant Up(oldsz) <= v && v <= MAXVPN && a == 4096 * v && a % 4096 == 0 && a / 4096 == v && root < |m.page|
        invariant AllocLoop(m, root, Up(oldsz), v, Up(newsz), 18 + xperm) ==
          AllocLoop(old(m), root, Up(oldsz), Up(oldsz), Up(newsz), 18 + xperm)
        decreases newsz - a
      {
        Below(v, newsz);
        if m.free != [] && m.free[0] >= |m.page| {
          code := UndoTo(root, start, a);
          return code, 0;
        }
        var mem := Kalloc();
        if mem == NotFound {
          code := UndoTo(root, start, a);
          return code, 0;
        }
        if a / 4096 >= MAXVPN {
          return Panicked, 0;
        }
        Memset(mem.t, 0);
        OnePage(m, root, v, mem.t, 18 + xperm);
        var c := Mappages(root, a, 1, mem.t, 18 + xperm);
        if c == Panicked {
          return Panicked, 0;
        }
        if c == Error {
          Kfree(mem.t);
          code := UndoTo(root, start, a);
          return code, 0;
        }
        NextPage(a);
        a, v := a + 4096, v + 1;
      }
      Above(v, newsz);
      return Ok, newsz;
    }

    /** uvmdealloc as uvmalloc calls it: back from `a` to `start`. */
    method UndoTo(root: nat, start: nat, a: nat) returns (code: Code)
      requires root < |m.page| && start % 4096 == 0 && a % 4096 == 0 && start <= a && a / 4096 <= MAXVPN
      modifies this
      ensures start / 4096 <= a / 4096
      ensures var x := Undo(old(m), root, start / 4096, a / 4096);
        code == (if x.Bad? then Panicked else Error) && (x.Failed? ==> m == x.m)
    {
      hide Px, Word, PutWord;
      assert start / 4096 <= a / 4096;
      if start < a {
        code := Uvmunmap(root, start, (a - start) / 4096, true);
        Between(start, a);
        code := if code == Ok then Error else Panicked;
      } else {
        code := Error;
      }
    }

    /** Copy the first `n` pages of `src` and their flags to `dst`. */
    method Uvmcopy(src: nat, dst: nat, n: nat) returns (code: Code)
      requires src < |m.page| && dst < |m.page| && n <= MAXVPN
      modifies this
      ensures var x := VmCopy.Uvmcopy(old(m), src, dst, n);
        match x
        case Bad => code == Panicked
        case Failed(m') => code == Error && m == m'
        case Got(m') => code == Ok && m == m'
    {
      hide Px, Word, PutWord, VmMap.MapOne, Unmap, Freed, VmSpec.Walk, Valid, Frame;
      var i := 0;
      ghost var v := 0;
      while i < n * 4096
        invariant v <= n && i == 4096 * v && i % 4096 == 0 && i / 4096 == v && src < |m.page| && dst < |m.page|
        invariant CopyLoop(m, src, dst, v, n) == CopyLoop(old(m), src, dst, 0, n)
        decreases n - v
      {
        NoAllocSame(m, src, v);
        var w := Walk(src, i, false);
        if w == NotFound {
          return Panicked;
        }
        PxIs(i);
        var pte := Pte(m, w.t, Px(0, i));
        if !Valid(pte) || Frame(pte) >= |m.page| {
          return Panicked;
        }
        var flags, page := pte % 1024, m.page[Frame(pte)];
        if m.free != [] && m.free[0] >= |m.page| {
          code := UndoTo(dst, 0, i);
          return;
        }
        var mem := Kalloc();
        if mem == NotFound {
          code := UndoTo(dst, 0, i);
          return;
        }
        m := SetPage(m, mem.t, page);
        OnePage(m, dst, v, mem.t, flags);
        var c := Mappages(dst, i, 1, mem.t, flags);
        if c == Panicked {
          return Panicked;
        }
        if c == Error {
          Kfree(mem.t);
          code := UndoTo(dst, 0, i);
          return;
        }
        NextPage(i);
        i, v := i + 4096, v + 1;
      }
      return Ok;
    }

    /** Free a table and the tables below it; `level` bounds the depth. */
    method Freewalk(t: nat, level: nat) returns (code: Code)
      requires t < |m.page|
      modifies this
      ensures var x := FreeFrom(old(m), t, level, 0);
        code == (if x.Done? then Ok else Panicked) && (x.Done? ==> m == x.m)
      decreases level
    {
      hide Word, PutWord, Valid, Frame, Leafy, Freed;
      var i := 0;
      while i < 512
        invariant 0 <= i <= 512 && t < |m.page|
        invariant FreeFrom(m, t, level, i) == FreeFrom(old(m), t, level, 0)
      {
        var pte := Pte(m, t, i);
        if Valid(pte) && !Leafy(pte) && level > 0 && Frame(pte) < |m.page| {
          code := Freewalk(Frame(pte), level - 1);
          if code == Panicked {
            return;
          }
          m := SetPte(m, t, i, 0);
        } else if Valid(pte) {
          return Panicked;
        }
        i := i + 1;
      }
      Kfree(t);
      return Ok;
    }

    /** The frame of the user page at `va`. */
    method Walkaddr(root: nat, va: nat) returns (f: Found)
      requires root < |m.page|
      modifies this
      ensures m == old(m)
      ensures var x := B.Walkaddr(m, root, va / 4096); f == if x.Some? then At(x.v) else NotFound
    {
      hide Px, Word, VmSpec.Walk, Valid, UserBit, Frame;
      if va / 4096 >= MAXVPN {
        return NotFound;
      }
      NoAllocSame(m, root, va / 4096);
      f := Walk(root, va, false);
      if f == NotFound {
        return;
      }
      PxIs(va);
      var pte := Pte(m, f.t, Px(0, va));
      if !Valid(pte) || !UserBit(pte) || Frame(pte) >= |m.page| {
        return NotFound;
      }
      return At(Frame(pte));
    }

    /** Copy `len` bytes at `srcva` of the address space. */
    method Copyin(root: nat, srcva: nat, len: nat) returns (code: Code, dst: seq<Byte>)
      requires root < |m.page|
      modifies this
      ensures m == old(m)
      ensures var x := B.Copyin(m, root, srcva, len); if x.Some? then code == Ok && dst == x.v else code == Error
    {
      hide B.Walkaddr, B.Copyin;
      var va: nat, left: nat := srcva, len;
      dst := [];
      CopyinStart(m, root, srcva, len);
      while left > 0
        invariant m == old(m) && left <= len && Joined(B.Copyin(m, root, srcva, len), dst, B.Copyin(m, root, va, left))
      {
        CopyinTurn(m, root, va, left);
        var va0 := va - va % 4096;
        SameTop(va);
        var f := Walkaddr(root, va0);
        if f == NotFound || f.t >= |m.page| {
          return Error, [];
        }
        var n := 4096 - (va - va0);
        if n > left {
          n := left;
        }
        JoinMore(B.Copyin(m, root, srcva, len), dst, m.page[f.t][va - va0..va - va0 + n],
                 B.Copyin(m, root, va0 + 4096, left - n));
        dst := dst + m.page[f.t][va - va0..va - va0 + n];
        left := left - n;
        va := va0 + 4096;
      }
      CopyinStart(m, root, va, 0);
      return Ok, dst;
    }

    /** Copy `src` to `dstva` of the address space. */
    method Copyout(root: nat, dstva: nat, src: seq<Byte>) returns (code: Code)
      requires root < |m.page|
      modifies this
      ensures var x := B.Copyout(old(m), root, dstva, src, 0); m == x.m && code == if x.Written? then Ok else Error
    {
      hide Px, Word, VmSpec.Walk, Valid, UserBit, WriteBit, Frame, B.Overwrite, B.Copyout, Pte;
      var va: nat, k: nat := dstva, 0;
      while k < |src|
        invariant k <= |src| && root < |m.page| && (k < |src| ==> va == dstva + k)
        invariant B.Copyout(m, root, dstva, src, k) == B.Copyout(old(m), root, dstva, src, 0)
      {
        var va0 := va - va % 4096;
        SameTop(va);
        CopyoutTurn(m, root, dstva, src, k);
        if va0 / 4096 >= MAXVPN {
          NoLeaf(m, root, va / 4096);
          return Error;
        }
        NoAllocSame(m, root, va / 4096);
        var w := Walk(root, va0, false);
        if w == NotFound {
          NoLeaf(m, root, va / 4096);
          return Error;
        }
        PxIs(va0);
        var pte := Pte(m, w.t, Px(0, va0));
        assert pte == B.LeafPte(m, root, va / 4096);
        if !Valid(pte) || !UserBit(pte) || !WriteBit(pte) || Frame(pte) >= |m.page| {
          return Error;
        }
        var n := 4096 - (va - va0);
        if n > |src| - k {
          n := |src| - k;
        }
        m := SetPage(m, Frame(pte), B.Overwrite(m.page[Frame(pte)], va - va0, src[k..k + n]));
        k := k + n;
        va := va0 + 4096;
      }
      CopyoutTurn(m, root, dstva, src, k);
      return Ok;
    }

    /** Copy a string of at most `max` bytes, terminator included. */
    method Copyinstr(root: nat, srcva: nat, max: nat) returns (code: Code, dst: seq<Byte>)
      requires root < |m.page|
      modifies this
      ensures m == old(m)
      ensures var x := B.Copyinstr(m, root, srcva, max); if x.Some? then code == Ok && dst == x.v else code == Error
    {
      hide B.Walkaddr, B.Copyinstr;
      var va: nat, left: nat := srcva, max;
      dst := [];
      CopyinStart(m, root, srcva, max);
      while left > 0
        invariant m == old(m) && left <= max
        invariant Joined(B.Copyinstr(m, root, srcva, max), dst, B.Copyinstr(m, root, va, left))
      {
        CopyinstrTurn(m, root, va, left);
        var va0 := va - va % 4096;
        SameTop(va);
        var f := Walkaddr(root, va0);
        if f == NotFound || f.t >= |m.page| {
          return Error, [];
        }
        var n := 4096 - (va - va0);
        if n > left {
          n := left;
        }
        var p, o := m.page[f.t], va - va0;
        var i := o;
        while i < o + n
          invariant o <= i <= o + n && B.Nul(p, o, o + n) == B.Nul(p, i, o + n)
        {
          if p[i] == 0 {
            return Ok, dst + p[o..i];
          }
          i := i + 1;
        }
        JoinMore(B.Copyinstr(m, root, srcva, max), dst, p[o..o + n], B.Copyinstr(m, root, va0 + 4096, left - n));
        dst := dst + p[o..o + n];
        left := left - n;
        va := va0 + 4096;
      }
      CopyinStart(m, root, va, 0);
      return Error, [];
    }
  }

  /** The whole result is what has been copied and then the rest. */
  predicate Joined(all: Opt<seq<Byte>>, done: seq<Byte>, rest: Opt<seq<Byte>>) {
    if rest.None? then all.None? else all.Some? && all.v == done + rest.v
  }

  lemma JoinMore(all: Opt<seq<Byte>>, done: seq<Byte>, x: seq<Byte>, rest: Opt<seq<Byte>>)
    requires Joined(all, done, if rest.None? then None else Some(x + rest.v))
    ensures Joined(all, done + x, rest)
  {
    if rest.Some? {
      assert done + (x + rest.v) == (done + x) + rest.v;
    }
  }

  lemma CopyinStart(m: Mem, root: nat, va: nat, len: nat)
    requires root < |m.page|
    ensures Joined(B.Copyin(m, root, va, len), [], B.Copyin(m, root, va, len))
    ensures Joined(B.Copyinstr(m, root, va, len), [], B.Copyinstr(m, root, va, len))
    ensures B.Copyin(m, root, va, 0) == Some([]) && B.Copyinstr(m, root, va, 0) == None
  {
    hide B.Walkaddr;
  }

  /** One turn of copyin's loop. */
  lemma CopyinTurn(m: Mem, root: nat, va: nat, left: nat)
    requires root < |m.page| && left > 0
    ensures var f, n, va0 := B.Walkaddr(m, root, va / 4096), B.Min(4096 - va % 4096, left), va - va % 4096;
      if f.None? || f.v >= |m.page| then B.Copyin(m, root, va, left) == None
      else
        var rest := B.Copyin(m, root, va0 + 4096, left - n);
        B.Copyin(m, root, va, left) ==
          if rest.None? then None else Some(m.page[f.v][va % 4096..va % 4096 + n] + rest.v)
  {
    hide B.Walkaddr;
  }

  lemma CopyinstrTurn(m: Mem, root: nat, va: nat, left: nat)
    requires root < |m.page| && left > 0
    ensures var f, o, n, va0 := B.Walkaddr(m, root, va / 4096), va % 4096, B.Min(4096 - va % 4096, left),
      va - va % 4096;
      if f.None? || f.v >= |m.page| then B.Copyinstr(m, root, va, left) == None
      else
        var k, rest := B.Nul(m.page[f.v], o, o + n), B.Copyinstr(m, root, va0 + 4096, left - n);
        B.Copyinstr(m, root, va, left) ==
          if k.Some? then Some(m.page[f.v][o..k.v])
          else if rest.None? then None else Some(m.page[f.v][o..o + n] + rest.v)
  {
    hide B.Walkaddr;
  }

  lemma CopyoutTurn(m: Mem, root: nat, va: nat, src: seq<Byte>, k: nat)
    requires root < |m.page| && k <= |src|
    ensures k == |src| ==> B.Copyout(m, root, va, src, k) == B.Written(m)
    ensures k < |src| ==>
      var a := va + k;
      var e, n := B.LeafPte(m, root, a / 4096), B.Min(4096 - a % 4096, |src| - k);
      B.Copyout(m, root, va, src, k) ==
        if !Valid(e) || !UserBit(e) || !WriteBit(e) || Frame(e) >= |m.page| then B.Fault(m)
        else B.Copyout(SetPage(m, Frame(e), B.Overwrite(m.page[Frame(e)], a % 4096, src[k..k + n])), root, va, src,
                       k + n)
  {
    hide B.LeafPte, B.Overwrite, Frame, Valid, UserBit, WriteBit;
  }

  lemma SameTop(va: nat)
    ensures (va - va % 4096) / 4096 == va / 4096
  {
    Divide(va - va % 4096, va / 4096, 0, 4096);
  }

  lemma NoLeaf(m: Mem, root: nat, v: nat)
    requires root < |m.page| && (v < MAXVPN ==> VmSpec.Walk(m, root, v, false).Missing?)
    ensures B.LeafPte(m, root, v) == 0 && !Valid(0)
  {
  }

  lemma NoAllocSame(m: Mem, root: nat, v: nat)
    requires root < |m.page| && v < MAXVPN
    ensures VmSpec.Walk(m, root, v, false).m == m
  {
    hide Pte;
  }

  lemma OnePage(m: Mem, root: nat, v: nat, f: nat, perm: nat)
    requires root < |m.page| && v < MAXVPN
    ensures VmMap.Mappages(m, root, v, 1, f, perm) == MapOne(m, root, v, f, perm)
  {
    hide MapOne;
    var x := MapOne(m, root, v, f, perm);
    if x.Mapped? {
      assert VmMap.Mappages(x.m, root, v + 1, 0, f + 1, perm) == Mapped(x.m);
    }
  }

  lemma Below(v: nat, size: nat)
    requires 4096 * v < size
    ensures v < Up(size)
  {
  }

  lemma Above(v: nat, size: nat)
    requires 4096 * v >= size
    ensures v >= Up(size)
  {
  }

  lemma Between(start: nat, a: nat)
    requires start % 4096 == 0 && a % 4096 == 0 && start <= a
    ensures (a - start) / 4096 == a / 4096 - start / 4096
  {
    Divide(a - start, a / 4096 - start / 4096, 0, 4096);
  }
}
