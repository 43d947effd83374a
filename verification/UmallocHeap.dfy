/** malloc, free and morecore as they run: header fields in memory, a circular list through
    them, and the search loops. */
module UmallocHeap {
  import opened Options
  import opened Umalloc

  /** The headers in memory are those of the free list, in a circle, and of the blocks out. */
  predicate Linked(ptr: map<nat, nat>, size: map<nat, nat>, list: seq<Block>) {
    forall i :: 0 <= i < |list| ==> EntryIs(ptr, size, list[i], list[Succ(i, |list|)].addr)
  }

  predicate EntryIs(ptr: map<nat, nat>, size: map<nat, nat>, b: Block, next: nat) {
    b.addr in ptr && b.addr in size && ptr[b.addr] == next && size[b.addr] == b.size
  }

  predicate Marked(size: map<nat, nat>, live: seq<Block>) {
    forall k :: 0 <= k < |live| ==> live[k].addr in size && size[live[k].addr] == live[k].size
  }

  /** No live block has the header of a list entry or of b. */
  lemma Headers(list: seq<Block>, live: seq<Block>)
    requires Ordered(list) && LiveOk(list, live)
    ensures forall i, k :: 0 <= i < |list| && 0 <= k < |live| ==> list[i].addr != live[k].addr
    ensures forall i, j :: 0 <= i < |list| && 0 <= j < |list| && i != j ==> list[i].addr != list[j].addr
    ensures forall j, k :: 0 <= j < |live| && 0 <= k < |live| && j != k ==> live[j].addr != live[k].addr
  {
    forall i, k | 0 <= i < |list| && 0 <= k < |live|
      ensures list[i].addr != live[k].addr
    {
      assert Outside(live[k], list);
      assert Apart(live[k], list[i]);
      assert 0 < i ==> list[i].size > 0;
    }
    forall i, j | 0 <= i < |list| && 0 <= j < |list| && i != j
      ensures list[i].addr != list[j].addr
    {
      assert i < j ==> Before(list[i], list[j]);
      assert j < i ==> Before(list[j], list[i]);
    }
    forall j, k | 0 <= j < |live| && 0 <= k < |live| && j != k
      ensures live[j].addr != live[k].addr
    {
      assert Outside(live[j], list) && Outside(live[k], list);
      assert j < k ==> Apart(live[j], live[k]);
      assert k < j ==> Apart(live[k], live[j]);
    }
  }

  /** Whether free's search stops at entry i, as its two conditions say. */
  predicate Stops(list: seq<Block>, i: nat, bp: nat)
    requires i < |list|
  {
    var p, next := list[i].addr, list[Succ(i, |list|)].addr;
    (bp > p && bp < next) || (p >= next && (bp > p || bp < next))
  }

  /** The search stops at the one place where the block belongs. */
  lemma StopsAtPos(list: seq<Block>, b: Block, i: nat)
    requires Ordered(list) && Outside(b, list) && i < |list|
    ensures Stops(list, i, b.addr) <==> i == Pos(list, b.addr)
  {
    hide Pos;
    PosSplits(list, b);
    var j := Pos(list, b.addr);
    assert i + 1 < |list| ==> Before(list[i], list[i + 1]);
    assert 0 < i ==> Before(list[0], list[i]);
  }

  function Dist(i: nat, j: nat, n: nat): nat
    requires i < n && j < n
  {
    if i <= j then j - i else j + n - i
  }

  predicate Distinct(list: seq<Block>) {
    forall i, j :: 0 <= i < j < |list| ==> list[i].addr != list[j].addr
  }

  predicate Absent(list: seq<Block>, addr: nat) {
    forall i :: 0 <= i < |list| ==> list[i].addr != addr
  }

  /** The block stands alone behind entry j. */
  lemma LinkAlone(ptr: map<nat, nat>, size: map<nat, nat>, list: seq<Block>, j: nat, b: Block)
    requires Linked(ptr, size, list) && Distinct(list) && Absent(list, b.addr) && j < |list| && b.addr in size
    requires size[b.addr] == b.size
    ensures Linked(ptr[b.addr := list[Succ(j, |list|)].addr][list[j].addr := b.addr], size,
                   list[..j + 1] + [b] + list[j + 1..])
  {
    var ptr' := ptr[b.addr := list[Succ(j, |list|)].addr][list[j].addr := b.addr];
    var r := list[..j + 1] + [b] + list[j + 1..];
    forall i | 0 <= i < |r|
      ensures EntryIs(ptr', size, r[i], r[Succ(i, |r|)].addr)
    {
      var m := if i <= j then i else i - 1;
      assert EntryIs(ptr, size, list[m], list[Succ(m, |list|)].addr);
    }
  }

  /** The block takes in the entry after j. */
  lemma LinkUp(ptr: map<nat, nat>, size: map<nat, nat>, list: seq<Block>, j: nat, b: Block)
    requires Linked(ptr, size, list) && Distinct(list) && Absent(list, b.addr) && j + 1 < |list|
    requires list[j + 1].addr in ptr
    ensures Linked(ptr[b.addr := ptr[list[j + 1].addr]][list[j].addr := b.addr],
                   size[b.addr := b.size + list[j + 1].size],
                   list[j + 1 := Block(b.addr, b.size + list[j + 1].size)])
  {
    var ptr' := ptr[b.addr := ptr[list[j + 1].addr]][list[j].addr := b.addr];
    var size' := size[b.addr := b.size + list[j + 1].size];
    var r := list[j + 1 := Block(b.addr, b.size + list[j + 1].size)];
    forall i | 0 <= i < |r|
      ensures EntryIs(ptr', size', r[i], r[Succ(i, |r|)].addr)
    {
      assert EntryIs(ptr, size, list[i], list[Succ(i, |list|)].addr);
    }
  }

  /** Entry j takes in the block. */
  lemma LinkDown(ptr: map<nat, nat>, size: map<nat, nat>, list: seq<Block>, j: nat, b: Block)
    requires Linked(ptr, size, list) && Distinct(list) && Absent(list, b.addr) && j < |list| && list[j].addr in ptr
    ensures Linked(ptr[b.addr := ptr[list[j].addr]][list[j].addr := ptr[list[j].addr]],
                   size[list[j].addr := list[j].size + b.size], list[j := Block(list[j].addr, list[j].size + b.size)])
  {
    var ptr' := ptr[b.addr := ptr[list[j].addr]][list[j].addr := ptr[list[j].addr]];
    var size' := size[list[j].addr := list[j].size + b.size];
    var r := list[j := Block(list[j].addr, list[j].size + b.size)];
    forall i | 0 <= i < |r|
      ensures EntryIs(ptr', size', r[i], r[Succ(i, |r|)].addr)
    {
      assert EntryIs(ptr, size, list[i], list[Succ(i, |list|)].addr);
    }
  }

  /** Entry j takes in the block and the entry after it. */
  lemma LinkBoth(ptr: map<nat, nat>, size: map<nat, nat>, list: seq<Block>, j: nat, b: Block)
    requires Linked(ptr, size, list) && Distinct(list) && Absent(list, b.addr) && j + 1 < |list|
    requires list[j + 1].addr in ptr
    ensures |Without(list, j + 1)| == |list| - 1
    ensures Linked(ptr[b.addr := ptr[list[j + 1].addr]][list[j].addr := ptr[list[j + 1].addr]],
                   size[b.addr := b.size + list[j + 1].size]
                       [list[j].addr := list[j].size + (b.size + list[j + 1].size)],
                   Without(list, j + 1)[j := Block(list[j].addr, list[j].size + b.size + list[j + 1].size)])
  {
    var ptr' := ptr[b.addr := ptr[list[j + 1].addr]][list[j].addr := ptr[list[j + 1].addr]];
    var size' := size[b.addr := b.size + list[j + 1].size][list[j].addr := list[j].size + (b.size + list[j + 1].size)];
    var r := Without(list, j + 1)[j := Block(list[j].addr, list[j].size + b.size + list[j + 1].size)];
    forall i | 0 <= i < |r|
      ensures EntryIs(ptr', size', r[i], r[Succ(i, |r|)].addr)
    {
      var m := if i <= j then i else i + 1;
      assert EntryIs(ptr, size, list[m], list[Succ(m, |list|)].addr);
      assert EntryIs(ptr, size, list[j + 1], list[Succ(j + 1, |list|)].addr);
    }
  }

  lemma Places(list: seq<Block>, b: Block)
    requires Ordered(list) && Outside(b, list)
    ensures Distinct(list) && Absent(list, b.addr)
  {
    forall i, j | 0 <= i < j < |list|
      ensures list[i].addr != list[j].addr
    {
      assert Before(list[i], list[j]);
    }
    forall i | 0 <= i < |list|
      ensures list[i].addr != b.addr
    {
      assert Apart(b, list[i]);
    }
  }

  /** The headers of other live blocks stay. */
  lemma MarkedKept(size: map<nat, nat>, size': map<nat, nat>, list: seq<Block>, live: seq<Block>, j: nat, k: nat)
    requires Ordered(list) && LiveOk(list, live) && Marked(size, live) && j < |list| && k < |live|
    requires forall a :: a in size && a != list[j].addr && a != live[k].addr ==> a in size' && size'[a] == size[a]
    ensures Marked(size', Without(live, k))
  {
    Headers(list, live);
    var ys := Without(live, k);
    forall m | 0 <= m < |ys|
      ensures ys[m].addr in size' && size'[ys[m].addr] == ys[m].size
    {
      assert ys[m] == live[if m < k then m else m + 1];
    }
  }

  /** Entry 0 is never joined with a block, and no block reaches round to it. */
  lemma Ends(list: seq<Block>, b: Block)
    requires Ordered(list) && Outside(b, list)
    ensures var j := Pos(list, b.addr);
            && (b.addr + b.size == list[Succ(j, |list|)].addr <==>
                j + 1 < |list| && b.addr + b.size == list[j + 1].addr)
            && (list[j].addr + list[j].size == b.addr ==> j > 0)
  {
  }

  class Allocator {
    const base: nat
    var ptr: map<nat, nat>
    var size: map<nat, nat>
    /** 0 before the first call of malloc. */
    var freep: nat
    ghost var heap: Heap

    ghost predicate Valid()
      reads this
    {
      && base > 0 && Inv(heap) && heap.list[0].addr == base && Marked(size, heap.live)
      && (freep == 0 ==> heap.list == [Block(base, 0)] && heap.live == [] && heap.freep == 0)
      && (freep != 0 ==> freep == heap.list[heap.freep].addr && Linked(ptr, size, heap.list))
    }

    constructor (at: nat, brk: nat)
      requires 0 < at < brk
      ensures Valid() && heap == Empty(at, brk) && base == at
    {
      base := at;
      ptr := map[];
      size := map[];
      freep := 0;
      heap := Empty(at, brk);
      new;
      EmptyInv(at, brk);
    }

    /** A program that writes inside the blocks it has got changes no header. */
    method Store(bp: nat, ghost k: nat, unit: nat, x: nat, y: nat)
      requires Valid() && k < |heap.live| && heap.live[k].addr == bp && 1 <= unit < heap.live[k].size
      modifies this`ptr, this`size
      ensures Valid() && heap == old(heap)
    {
      ptr := ptr[bp + unit := x];
      size := size[bp + unit := y];
    }

    /** free's search: round the circle to the entry behind which the block belongs. */
    method Search(bp: nat, ghost k: nat) returns (p: nat, ghost i: nat)
      requires Valid() && k < |heap.live| && heap.live[k].addr == bp
      ensures heap.list[0].addr < bp && i == Pos(heap.list, bp) && p == heap.list[i].addr
    {
      hide Inv, Pos, Ordered, LiveOk, Outside, Stops;
      InvParts(heap);
      LiveOutside(heap, k);
      p := freep;
      i := heap.freep;
      ghost var n, b := |heap.list|, heap.live[k];
      LinkedAt(ptr, size, heap.list, i);
      while !(bp > p && bp < ptr[p])
        invariant i < n && p == heap.list[i].addr && p in ptr
        decreases Dist(i, Pos(heap.list, bp), n)
      {
        LinkedAt(ptr, size, heap.list, i);
        StopsIs(heap.list, i, bp);
        StopsAtPos(heap.list, b, i);
        if p >= ptr[p] && (bp > p || bp < ptr[p]) {
          return;
        }
        p := ptr[p];
        i := Succ(i, n);
        LinkedAt(ptr, size, heap.list, i);
      }
      LinkedAt(ptr, size, heap.list, i);
      StopsIs(heap.list, i, bp);
      StopsAtPos(heap.list, b, i);
    }

    /** free's writes, in the code's order. */
    method Join(bp: nat, p: nat)
      requires p in ptr && p in size && ptr[p] in ptr && ptr[p] in size && bp in size && bp != p && bp != ptr[p]
      modifies this`ptr, this`size
      ensures ptr == FreePtr(old(ptr), old(size), p, Block(bp, old(size)[bp]))
      ensures size == FreeSize(old(ptr), old(size), p, Block(bp, old(size)[bp]))
    {
      var next := ptr[p];
      if bp + size[bp] == next {
        size := size[bp := size[bp] + size[next]];
        ptr := ptr[bp := ptr[next]];
      } else {
        ptr := ptr[bp := next];
      }
      if p + size[p] == bp {
        size := size[p := size[p] + size[bp]];
        ptr := ptr[p := ptr[bp]];
      } else {
        ptr := ptr[p := bp];
      }
    }

    method Free(bp: nat, ghost k: nat)
      requires Valid() && k < |heap.live| && heap.live[k].addr == bp
      modifies this
      ensures Valid() && old(heap).list[0].addr < bp && heap == Umalloc.Free(old(heap), k) && freep != 0
    {
      hide Inv, Pos, Ordered, LiveOk, Outside, Linked, Marked, Inserted, FreePtr, FreeSize;
      InvParts(heap);
      LiveOutside(heap, k);
      ghost var b := heap.live[k];
      MarkedAt(size, heap.live, k);
      ghost var i;
      var p;
      p, i := Search(bp, k);
      Relinked(ptr, size, heap.list, b, i);
      FreeKeeps(heap, k);
      Remarked(ptr, size, heap.list, heap.live, i, k);
      FreedTo(heap, k);
      assert bp != p && bp != ptr[p] by { ElseWhere(ptr, size, heap.list, b, i); }
      Join(bp, p);
      freep := p;
      heap := Umalloc.Free(heap, k);
    }

    /** morecore once sbrk has answered: the new block goes through free. */
    method Morecore(nu: nat, at: nat)
      requires Valid() && freep != 0 && at >= heap.brk && nu > 0
      modifies this
      ensures Valid() && freep != 0 && Inv(old(heap)) && heap == Grow(old(heap), nu, at)
    {
      hide Inv, Linked, Marked, Grow, Umalloc.Free;
      LendKeeps(heap, nu, at);
      LendKept(ptr, size, heap, nu, at);
      InvParts(heap);
      ghost var k := |heap.live|;
      heap := Lend(heap, nu, at);
      size := size[at := nu];
      Free(at, k);
    }

    /** malloc's end: cut the block from entry i and hand it out. */
    method Hand(prevp: nat, p: nat, n: nat, ghost i: nat) returns (bp: nat)
      requires Valid() && freep != 0 && 1 <= i < |heap.list| && heap.list[i].size >= n > 0
      requires p == heap.list[i].addr && prevp == heap.list[i - 1].addr
      modifies this
      ensures Valid() && freep != 0 && heap == Take(old(heap), i, n) && bp == Cut(old(heap).list, i, n).addr
    {
      hide Inv, Linked, Marked, Distinct, Absent, Ordered;
      ghost var h := heap;
      InvParts(h);
      DistinctOf(h.list);
      LinkedAt(ptr, size, h.list, i);
      TakeKeeps(h, i, n);
      Heads(h.list, i);
      ghost var was := size;
      if size[p] == n {
        LinkWithout(ptr, size, h.list, i);
        ptr := ptr[prevp := ptr[p]];
        bp := p;
      } else {
        CutAbsent(h.list, i, n);
        LinkCut(ptr, size, h.list, i, n);
        size := size[p := size[p] - n];
        bp := p + size[p];
        size := size[bp := n];
      }
      TakeMarked(was, size, h, i, n);
      freep := prevp;
      heap := Take(h, i, n);
    }

    /** The first call of malloc: base alone, in a circle. */
    method Init()
      requires Valid() && freep == 0
      modifies this
      ensures Valid() && freep != 0 && heap == old(heap)
    {
      ptr := ptr[base := base];
      size := size[base := 0];
      freep := base;
      FirstLink(ptr, size, heap.list);
    }

    /** malloc: the address of the block's contents, or 0; `broken` when sbrk was asked for
        another number of bytes than the new block is said to have. */
    method Malloc(nbytes: nat, grant: Opt<nat>) returns (r: nat, broken: bool)
      requires Valid() && (grant.Some? ==> grant.v >= heap.brk)
      modifies this
      ensures match Umalloc.Malloc(old(heap), nbytes, grant)
              case Got(h, b) => Valid() && !broken && heap == h && r == b.addr + 1
              case NoMemory(h) => Valid() && !broken && heap == h && r == 0
              case Broken => broken
    {
      hide Inv, Linked, Marked, FirstFit, Take, Grow, Int32, Cut, Units, Umalloc.Malloc, Scanning, Left;
      ghost var h := heap;
      InvParts(h);
      var n := Units(nbytes);
      UnitsPositive(nbytes);
      if freep == 0 {
        Init();
      }
      ghost var grown := false;
      ghost var i: nat := heap.freep;
      ScanStart(heap, n);
      LinkedAt(ptr, size, heap.list, i);
      var prevp := freep;
      var p := ptr[prevp];
      while true
        invariant Valid() && freep != 0 && i < |heap.list| && Scanning(heap, n, i)
        invariant prevp == heap.list[i].addr && p == heap.list[Succ(i, |heap.list|)].addr
        invariant !grown ==> heap == h
        invariant grown ==> Grown(h, nbytes, grant) && heap == Grow(h, Ask(n), grant.v)
        decreases !grown, Left(heap, i)
      {
        ghost var q := Succ(i, |heap.list|);
        LinkedAt(ptr, size, heap.list, q);
        ScanStep(heap, n, i);
        if size[p] >= n {
          MallocGot(h, nbytes, grant, grown, q);
          var bp := Hand(prevp, p, n, q);
          return bp + 1, false;
        }
        AtFreep(heap, q);
        if p == freep {
          MallocMore(h, nbytes, grant, grown);
          var bytes := Int32(Ask(n) * UNIT);
          if bytes > 0 && grant.None? {
            return 0, false;
          }
          if bytes != Ask(n) * UNIT {
            return 0, true;
          }
          Morecore(Ask(n), grant.v);
          grown := true;
          ScanStart(heap, n);
          p := freep;
          q := heap.freep;
          LinkedAt(ptr, size, heap.list, q);
        }
        prevp := p;
        p := ptr[p];
        i := q;
      }
    }
  }

  /** malloc's loop has looked at the entries behind freep up to i and found none. */
  ghost predicate Scanning(h: Heap, n: nat, i: nat) {
    && h.freep < |h.list| && i < |h.list| && n > 0 && h.list[0].size == 0
    && FirstFit(h, n) == Fit(h.list, n, Succ(i, |h.list|), Left(h, i) + 1)
  }

  ghost function Left(h: Heap, i: nat): nat {
    var q := Succ(i, |h.list|);
    if q < |h.list| && h.freep < |h.list| then Dist(q, h.freep, |h.list|) else 0
  }

  lemma ScanStart(h: Heap, n: nat)
    requires Inv(h)
    ensures h.freep < |h.list| && (n > 0 ==> Scanning(h, n, h.freep))
  {
  }

  lemma ScanStep(h: Heap, n: nat, i: nat)
    requires Scanning(h, n, i)
    ensures i < |h.list| && h.freep < |h.list|
    ensures var q := Succ(i, |h.list|);
            && (h.list[q].size >= n ==> FirstFit(h, n) == Some(q) && q == i + 1)
            && (h.list[q].size < n && q == h.freep ==> FirstFit(h, n) == None)
            && (h.list[q].size < n && q != h.freep ==> Scanning(h, n, q) && Left(h, q) < Left(h, i))
  {
    var q := Succ(i, |h.list|);
    FitStep(h.list, n, q, Left(h, i));
  }

  /** sbrk has granted what morecore asked for. */
  ghost predicate Grown(h: Heap, nbytes: nat, grant: Opt<nat>) {
    && Inv(h) && FirstFit(h, Units(nbytes)) == None && grant.Some? && grant.v >= h.brk
    && Int32(Ask(Units(nbytes)) * UNIT) == Ask(Units(nbytes)) * UNIT
  }

  lemma MallocGot(h: Heap, nbytes: nat, grant: Opt<nat>, grown: bool, q: nat)
    requires Inv(h) && (grant.Some? ==> grant.v >= h.brk) && (grown ==> Grown(h, nbytes, grant))
    requires var g := if grown then Grow(h, Ask(Units(nbytes)), grant.v) else h; FirstFit(g, Units(nbytes)) == Some(q)
    ensures var g := if grown then Grow(h, Ask(Units(nbytes)), grant.v) else h;
            1 <= q < |g.list| && g.list[q].size >= Units(nbytes) > 0
            && Umalloc.Malloc(h, nbytes, grant) == Got(Take(g, q, Units(nbytes)), Cut(g.list, q, Units(nbytes)))
  {
    hide Fit;
    var g := if grown then Grow(h, Ask(Units(nbytes)), grant.v) else h;
    if grown {
      GrowKeeps(h, Ask(Units(nbytes)), grant.v);
    }
    FitFinds(g.list, Units(nbytes), Succ(g.freep, |g.list|), |g.list|);
  }

  lemma MallocMore(h: Heap, nbytes: nat, grant: Opt<nat>, grown: bool)
    requires Inv(h) && (grant.Some? ==> grant.v >= h.brk) && (grown ==> Grown(h, nbytes, grant))
    requires var g := if grown then Grow(h, Ask(Units(nbytes)), grant.v) else h; FirstFit(g, Units(nbytes)) == None
    ensures !grown
    ensures var bytes := Int32(Ask(Units(nbytes)) * UNIT);
            Umalloc.Malloc(h, nbytes, grant) ==
              (if bytes > 0 && grant.None? then NoMemory(h)
               else if bytes != Ask(Units(nbytes)) * UNIT then Broken else Umalloc.Malloc(h, nbytes, grant))
            && (bytes == Ask(Units(nbytes)) * UNIT ==> bytes > 0 && (grant.Some? ==> Grown(h, nbytes, grant)))
  {
    hide Fit;
    if grown {
      GrowFits(h, Ask(Units(nbytes)), grant.v, Units(nbytes));
    }
  }

  lemma UnitsPositive(nbytes: nat)
    ensures Units(nbytes) > 0
  {
  }

  lemma FirstLink(ptr: map<nat, nat>, size: map<nat, nat>, list: seq<Block>)
    requires |list| == 1 && list[0].addr in ptr && list[0].addr in size && ptr[list[0].addr] == list[0].addr
    requires size[list[0].addr] == list[0].size
    ensures Linked(ptr, size, list)
  {
  }

  lemma FitStep(list: seq<Block>, n: nat, i: nat, steps: nat)
    requires i < |list|
    ensures Fit(list, n, i, 0) == None
    ensures Fit(list, n, i, steps + 1) == if list[i].size >= n then Some(i) else Fit(list, n, Succ(i, |list|), steps)
    ensures list[i].size < n ==> Fit(list, n, i, 1) == None
  {
  }

  lemma AtFreep(h: Heap, i: nat)
    requires Inv(h) && i < |h.list|
    ensures h.freep < |h.list| && (h.list[i].addr == h.list[h.freep].addr <==> i == h.freep)
  {
    assert i < h.freep ==> Before(h.list[i], h.list[h.freep]);
    assert i > h.freep ==> Before(h.list[h.freep], h.list[i]);
  }

  lemma Heads(list: seq<Block>, i: nat)
    requires Ordered(list) && 1 <= i < |list|
    ensures list[i - 1].addr >= list[0].addr
  {
    assert 1 < i ==> Before(list[0], list[i - 1]);
  }

  /** A block from sbrk, on loan to morecore until free takes it. */
  ghost function Lend(h: Heap, nu: nat, at: nat): Heap {
    h.(live := h.live + [Block(at, nu)], obtained := h.obtained + nu, brk := at + nu)
  }

  lemma LendKeeps(h: Heap, nu: nat, at: nat)
    requires Inv(h) && at >= h.brk && nu > 0
    ensures Inv(Lend(h, nu, at)) && Umalloc.Free(Lend(h, nu, at), |h.live|) == Grow(h, nu, at)
  {
    hide Inserted, Pos, Sum, Ordered, LiveOk;
    var b := Block(at, nu);
    var g := Lend(h, nu, at);
    assert Without(g.live, |h.live|) == h.live;
    SumConcat(h.live, [b]);
    SumOne(b);
    LendLive(h, b);
  }

  lemma LendLive(h: Heap, b: Block)
    requires Inv(h) && b.addr >= h.brk && b.size > 0
    ensures LiveOk(h.list, h.live + [b]) && h.list[0].addr < b.addr
  {
    var ys := h.live + [b];
    assert Outside(b, h.list);
    forall j, k | 0 <= j < k < |ys|
      ensures Apart(ys[j], ys[k])
    {
      assert k < |h.live| ==> Apart(h.live[j], h.live[k]);
    }
  }

  lemma LendKept(ptr: map<nat, nat>, size: map<nat, nat>, h: Heap, nu: nat, at: nat)
    requires Inv(h) && at >= h.brk && nu > 0 && Linked(ptr, size, h.list) && Marked(size, h.live)
    ensures Linked(ptr, size[at := nu], h.list) && Marked(size[at := nu], Lend(h, nu, at).live)
  {
    forall i | 0 <= i < |h.list|
      ensures EntryIs(ptr, size[at := nu], h.list[i], h.list[Succ(i, |h.list|)].addr)
    {
      assert EntryIs(ptr, size, h.list[i], h.list[Succ(i, |h.list|)].addr);
      assert h.list[i].addr < at;
    }
    forall k | 0 <= k < |h.live|
      ensures h.live[k].addr < at
    {
      assert Outside(h.live[k], h.list);
    }
  }

  /** The links after malloc has taken all of entry i, or its tail. */
  lemma LinkWithout(ptr: map<nat, nat>, size: map<nat, nat>, list: seq<Block>, i: nat)
    requires Linked(ptr, size, list) && Distinct(list) && 1 <= i < |list| && list[i].addr in ptr
    ensures Linked(ptr[list[i - 1].addr := ptr[list[i].addr]], size, Without(list, i))
  {
    var ptr' := ptr[list[i - 1].addr := ptr[list[i].addr]];
    var r := Without(list, i);
    forall m | 0 <= m < |r|
      ensures EntryIs(ptr', size, r[m], r[Succ(m, |r|)].addr)
    {
      var k := if m < i then m else m + 1;
      assert EntryIs(ptr, size, list[k], list[Succ(k, |list|)].addr);
      assert EntryIs(ptr, size, list[i], list[Succ(i, |list|)].addr);
    }
  }

  lemma LinkCut(ptr: map<nat, nat>, size: map<nat, nat>, list: seq<Block>, i: nat, n: nat)
    requires Linked(ptr, size, list) && Distinct(list) && 1 <= i < |list| && list[i].size > n
    requires Absent(list, Cut(list, i, n).addr)
    ensures Linked(ptr, size[list[i].addr := list[i].size - n][Cut(list, i, n).addr := n], Rest(list, i, n))
  {
    var size' := size[list[i].addr := list[i].size - n][Cut(list, i, n).addr := n];
    var r := Rest(list, i, n);
    forall m | 0 <= m < |r|
      ensures EntryIs(ptr, size', r[m], r[Succ(m, |r|)].addr)
    {
      assert EntryIs(ptr, size, list[m], list[Succ(m, |list|)].addr);
    }
  }

  lemma CutAbsent(list: seq<Block>, i: nat, n: nat)
    requires Ordered(list) && 1 <= i < |list| && list[i].size > n > 0
    ensures Absent(list, Cut(list, i, n).addr) && Distinct(list)
  {
    forall m | 0 <= m < |list|
      ensures list[m].addr != Cut(list, i, n).addr
    {
      assert m < i ==> Before(list[m], list[i]);
      assert m > i ==> Before(list[i], list[m]);
    }
    forall x, y | 0 <= x < y < |list|
      ensures list[x].addr != list[y].addr
    {
      assert Before(list[x], list[y]);
    }
  }

  lemma DistinctOf(list: seq<Block>)
    requires Ordered(list)
    ensures Distinct(list)
  {
    forall x, y | 0 <= x < y < |list|
      ensures list[x].addr != list[y].addr
    {
      assert Before(list[x], list[y]);
    }
  }

  /** The headers of the live blocks after a block was cut. */
  lemma TakeMarked(size: map<nat, nat>, size': map<nat, nat>, h: Heap, i: nat, n: nat)
    requires Inv(h) && 1 <= i < |h.list| && h.list[i].size >= n > 0 && Marked(size, h.live)
    requires Cut(h.list, i, n).addr in size' && size'[Cut(h.list, i, n).addr] == n
    requires forall a :: a in size && a != h.list[i].addr && a != Cut(h.list, i, n).addr ==>
      a in size' && size'[a] == size[a]
    ensures Marked(size', Take(h, i, n).live)
  {
    Headers(h.list, h.live);
    forall k | 0 <= k < |h.live|
      ensures h.live[k].addr != Cut(h.list, i, n).addr
    {
      assert Outside(h.live[k], h.list);
      RestOutside(h.list, i, n, h.live[k]);
    }
  }

  lemma ElseWhere(ptr: map<nat, nat>, size: map<nat, nat>, list: seq<Block>, b: Block, i: nat)
    requires Ordered(list) && Outside(b, list) && i < |list| && Linked(ptr, size, list)
    ensures list[i].addr in ptr && b.addr != list[i].addr && b.addr != ptr[list[i].addr]
  {
    Places(list, b);
    LinkedAt(ptr, size, list, i);
  }

  lemma Remarked(ptr: map<nat, nat>, size: map<nat, nat>, list: seq<Block>, live: seq<Block>, j: nat, k: nat)
    requires Ordered(list) && LiveOk(list, live) && Marked(size, live) && j < |list| && k < |live|
    requires list[j].addr in ptr && ptr[list[j].addr] in size && list[j].addr in size
    ensures Marked(FreeSize(ptr, size, list[j].addr, live[k]), Without(live, k))
  {
    hide Ordered, LiveOk, Marked;
    MarkedKept(size, FreeSize(ptr, size, list[j].addr, live[k]), list, live, j, k);
  }

  lemma MarkedAt(size: map<nat, nat>, live: seq<Block>, k: nat)
    requires Marked(size, live) && k < |live|
    ensures live[k].addr in size && size[live[k].addr] == live[k].size
  {
  }

  lemma FreedTo(h: Heap, k: nat)
    requires Inv(h) && k < |h.live|
    ensures h.list[0].addr < h.live[k].addr
    ensures var g := Umalloc.Free(h, k);
            && g.freep < |g.list| && g.list[0] == h.list[0]
            && g.list[g.freep].addr == h.list[g.freep].addr >= h.list[0].addr
  {
    LiveOutside(h, k);
    InsertedHead(h.list, h.live[k]);
    Ends(h.list, h.live[k]);
    var j := Pos(h.list, h.live[k].addr);
    assert 0 < j ==> Before(h.list[0], h.list[j]);
  }

  /** What free writes: first the block takes in its successor where they touch, then the
      predecessor takes in the block. */
  function FreePtr(ptr: map<nat, nat>, size: map<nat, nat>, p: nat, b: Block): map<nat, nat>
    requires p in ptr && ptr[p] in ptr && p in size
  {
    var bptr := if b.addr + b.size == ptr[p] then ptr[ptr[p]] else ptr[p];
    ptr[b.addr := bptr][p := if p + size[p] == b.addr then bptr else b.addr]
  }

  function FreeSize(ptr: map<nat, nat>, size: map<nat, nat>, p: nat, b: Block): map<nat, nat>
    requires p in ptr && ptr[p] in size && p in size
  {
    var bsize := if b.addr + b.size == ptr[p] then b.size + size[ptr[p]] else b.size;
    var size1 := if b.addr + b.size == ptr[p] then size[b.addr := bsize] else size;
    if p + size[p] == b.addr then size1[p := size[p] + bsize] else size1
  }

  lemma Relinked(ptr: map<nat, nat>, size: map<nat, nat>, list: seq<Block>, b: Block, j: nat)
    requires Ordered(list) && Outside(b, list) && j == Pos(list, b.addr) && Linked(ptr, size, list) && b.addr in size
    requires size[b.addr] == b.size
    ensures list[j].addr in ptr && list[j].addr in size && ptr[list[j].addr] in ptr && ptr[list[j].addr] in size
    ensures Linked(FreePtr(ptr, size, list[j].addr, b), FreeSize(ptr, size, list[j].addr, b), Inserted(list, b))
  {
    hide Pos, Linked, Ordered, Outside;
    Places(list, b);
    Ends(list, b);
    LinkedAt(ptr, size, list, j);
    LinkedAt(ptr, size, list, Succ(j, |list|));
    var up := j + 1 < |list| && b.addr + b.size == list[j + 1].addr;
    var down := list[j].addr + list[j].size == b.addr;
    if up && down {
      LinkBoth(ptr, size, list, j, b);
    } else if up {
      LinkUp(ptr, size, list, j, b);
    } else if down {
      LinkDown(ptr, size, list, j, b);
    } else {
      LinkAlone(ptr, size, list, j, b);
    }
  }

  lemma LiveOutside(h: Heap, k: nat)
    requires Inv(h) && k < |h.live|
    ensures Outside(h.live[k], h.list) && h.list[0].addr < h.live[k].addr && Pos(h.list, h.live[k].addr) < |h.list|
  {
  }

  lemma LinkedAt(ptr: map<nat, nat>, size: map<nat, nat>, list: seq<Block>, i: nat)
    requires Linked(ptr, size, list) && i < |list|
    ensures EntryIs(ptr, size, list[i], list[Succ(i, |list|)].addr)
  {
  }

  lemma StopsIs(list: seq<Block>, i: nat, bp: nat)
    requires i < |list|
    ensures Stops(list, i, bp) <==>
              (bp > list[i].addr && bp < list[Succ(i, |list|)].addr)
              || (list[i].addr >= list[Succ(i, |list|)].addr && (bp > list[i].addr || bp < list[Succ(i, |list|)].addr))
  {
  }
}
