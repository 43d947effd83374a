/** The user-level allocator (user/umalloc.c) on values: the free list, in address order from
    base, and the blocks that are out.  Addresses and sizes count header-sized units. */
module Umalloc {
  import opened Options

  const UNIT := 16
  const CHUNK := 4096

  /** A block: the address of its header, and its size with the header. */
  datatype Block = Block(addr: nat, size: nat)

  /** `list[0]` is base; `freep` is an index into the list. */
  datatype Heap = Heap(list: seq<Block>, freep: nat, live: seq<Block>, obtained: nat, brk: nat)

  function Sum(bs: seq<Block>): nat {
    if bs == [] then 0 else Sum(bs[..|bs| - 1]) + bs[|bs| - 1].size
  }

  function Without(bs: seq<Block>, k: nat): seq<Block>
    requires k < |bs|
  {
    bs[..k] + bs[k + 1..]
  }

  // ---- what every run keeps

  /** a ends before b starts, and not right before: the two could not be joined. */
  predicate Before(a: Block, b: Block) {
    a.addr + a.size < b.addr
  }

  predicate Apart(a: Block, b: Block) {
    a.addr + a.size <= b.addr || b.addr + b.size <= a.addr
  }

  /** The free list: base first, in address order, disjoint and fully coalesced. */
  predicate Ordered(list: seq<Block>) {
    && |list| > 0 && list[0].size == 0
    && (forall i :: 1 <= i < |list| ==> list[i].size > 0)
    && (forall i, j :: 0 <= i < j < |list| ==> Before(list[i], list[j]))
  }

  predicate ApartFrom(b: Block, bs: seq<Block>) {
    forall i :: 0 <= i < |bs| ==> Apart(b, bs[i])
  }

  /** A block that can be out, next to a free list. */
  predicate Outside(b: Block, list: seq<Block>) {
    |list| > 0 && b.size > 0 && b.addr > list[0].addr && ApartFrom(b, list)
  }

  predicate LiveOk(list: seq<Block>, live: seq<Block>) {
    && (forall k :: 0 <= k < |live| ==> Outside(live[k], list))
    && (forall j, k :: 0 <= j < k < |live| ==> Apart(live[j], live[k]))
  }

  predicate Under(bs: seq<Block>, brk: nat) {
    forall i :: 0 <= i < |bs| ==> bs[i].addr + bs[i].size <= brk
  }

  predicate Inv(h: Heap) {
    && Ordered(h.list) && h.freep < |h.list| && LiveOk(h.list, h.live)
    && Under(h.list, h.brk) && Under(h.live, h.brk) && h.list[0].addr < h.brk
    && Sum(h.list) + Sum(h.live) == h.obtained
  }

  // ---- free

  /** Where free's search ends: the last entry below the address. */
  function Pos(list: seq<Block>, addr: nat): (j: nat)
    requires |list| > 0 && list[0].addr < addr
    ensures j < |list| && list[j].addr < addr
    decreases |list|
  {
    if list[|list| - 1].addr < addr then |list| - 1 else Pos(list[..|list| - 1], addr)
  }

  /** The list with block b put back, joined with its neighbours where they touch. */
  function Inserted(list: seq<Block>, b: Block): (r: seq<Block>)
    requires |list| > 0 && list[0].addr < b.addr
  {
    Joined(list, Pos(list, b.addr), b)
  }

  /** Block b between entry j and the next one. */
  function Joined(list: seq<Block>, j: nat, b: Block): (r: seq<Block>)
    requires j < |list|
  {
    var up := j + 1 < |list| && b.addr + b.size == list[j + 1].addr;
    var down := list[j].addr + list[j].size == b.addr;
    if up && down then Without(list, j + 1)[j := Block(list[j].addr, list[j].size + b.size + list[j + 1].size)]
    else if up then list[j + 1 := Block(b.addr, b.size + list[j + 1].size)]
    else if down then list[j := Block(list[j].addr, list[j].size + b.size)]
    else list[..j + 1] + [b] + list[j + 1..]
  }

  function Free(h: Heap, k: nat): Heap
    requires |h.list| > 0 && k < |h.live| && h.list[0].addr < h.live[k].addr
  {
    var b := h.live[k];
    h.(list := Inserted(h.list, b), freep := Pos(h.list, b.addr), live := Without(h.live, k))
  }

  // ---- morecore

  function Ask(nunits: nat): nat {
    if nunits < CHUNK then CHUNK else nunits
  }

  /** sbrk takes an int: the number of bytes, as 32 bits with a sign. */
  function Int32(n: nat): int {
    var m := n % 0x1_0000_0000;
    if m < 0x8000_0000 then m else m - 0x1_0000_0000
  }

  /** morecore after sbrk has given nu units at an address at or above the old break. */
  function Grow(h: Heap, nu: nat, at: nat): Heap
    requires |h.list| > 0 && h.list[0].addr < at
  {
    var b := Block(at, nu);
    h.(list := Inserted(h.list, b), freep := Pos(h.list, at), obtained := h.obtained + nu, brk := at + nu)
  }

  // ---- malloc

  function Units(nbytes: nat): nat {
    (nbytes + UNIT - 1) / UNIT + 1
  }

  /** The next entry round the list. */
  function Succ(i: nat, n: nat): nat {
    if i + 1 < n then i + 1 else 0
  }

  /** The first block that is large enough, of the next `steps` ones round the list. */
  function Fit(list: seq<Block>, nunits: nat, i: nat, steps: nat): Opt<nat>
    requires i < |list|
    decreases steps
  {
    if steps == 0 then None
    else if list[i].size >= nunits then Some(i)
    else Fit(list, nunits, Succ(i, |list|), steps - 1)
  }

  function FirstFit(h: Heap, nunits: nat): Opt<nat>
    requires |h.list| > 0
  {
    Fit(h.list, nunits, Succ(h.freep, |h.list|), |h.list|)
  }

  /** The block that is handed out from free block i: all of it, or its tail. */
  function Cut(list: seq<Block>, i: nat, nunits: nat): Block
    requires i < |list| && list[i].size >= nunits
  {
    Block(list[i].addr + list[i].size - nunits, nunits)
  }

  function Take(h: Heap, i: nat, nunits: nat): Heap
    requires 1 <= i < |h.list| && h.list[i].size >= nunits
  {
    h.(list := if h.list[i].size == nunits then Without(h.list, i)
               else h.list[i := Block(h.list[i].addr, h.list[i].size - nunits)],
       freep := i - 1, live := h.live + [Cut(h.list, i, nunits)])
  }

  /** What malloc does: it hands out a block, it returns 0, or it breaks the heap, because
      sbrk has not grown it by what morecore puts in the new block's header. */
  datatype Outcome = Got(h: Heap, b: Block) | NoMemory(h: Heap) | Broken

  /** `grant` is where sbrk would put new memory; none when it would refuse.  It does not
      refuse to shrink. */
  function Malloc(h: Heap, nbytes: nat, grant: Opt<nat>): Outcome
    requires Inv(h) && (grant.Some? ==> grant.v >= h.brk)
  {
    var n := Units(nbytes);
    var i := FirstFit(h, n);
    if i.Some? then
      FitFinds(h.list, n, Succ(h.freep, |h.list|), |h.list|);
      Got(Take(h, i.v, n), Cut(h.list, i.v, n))
    else
      var bytes := Int32(Ask(n) * UNIT);
      if bytes > 0 && grant.None? then NoMemory(h)
      else if bytes != Ask(n) * UNIT then Broken
      else
        GrowKeeps(h, Ask(n), grant.v);
        var g := Grow(h, Ask(n), grant.v);
        var j := FirstFit(g, n);
        GrowFits(h, Ask(n), grant.v, n);
        FitFinds(g.list, n, Succ(g.freep, |g.list|), |g.list|);
        Got(Take(g, j.v, n), Cut(g.list, j.v, n))
  }

  // ---- sums

  lemma {:induction false} SumConcat(a: seq<Block>, b: seq<Block>)
    ensures Sum(a + b) == Sum(a) + Sum(b)
    decreases |b|
  {
    if b == [] {
      assert a + b == a;
    } else {
      var k := |b| - 1;
      assert (a + b)[..|a| + k] == a + b[..k];
      SumConcat(a, b[..k]);
    }
  }

  lemma SumOne(b: Block)
    ensures Sum([b]) == b.size
  {
    assert [b][..0] == [];
  }

  lemma SumAround(a: seq<Block>, b: Block, c: seq<Block>)
    ensures Sum(a + [b] + c) == Sum(a) + b.size + Sum(c)
  {
    hide Sum;
    SumConcat(a + [b], c);
    SumConcat(a, [b]);
    SumOne(b);
  }

  lemma SumWithout(bs: seq<Block>, k: nat)
    requires k < |bs|
    ensures Sum(Without(bs, k)) + bs[k].size == Sum(bs)
  {
    hide Sum;
    SumAround(bs[..k], bs[k], bs[k + 1..]);
    SumConcat(bs[..k], bs[k + 1..]);
    assert bs == bs[..k] + [bs[k]] + bs[k + 1..];
  }

  lemma SumSet(bs: seq<Block>, k: nat, c: Block)
    requires k < |bs|
    ensures Sum(bs[k := c]) + bs[k].size == Sum(bs) + c.size
  {
    hide Sum;
    assert bs[k := c] == bs[..k] + [c] + bs[k + 1..];
    SumAround(bs[..k], c, bs[k + 1..]);
    SumAround(bs[..k], bs[k], bs[k + 1..]);
    assert bs == bs[..k] + [bs[k]] + bs[k + 1..];
  }

  // ---- the search of free

  lemma {:induction false} PosIs(list: seq<Block>, addr: nat)
    requires |list| > 0 && list[0].addr < addr
    ensures forall i :: Pos(list, addr) < i < |list| ==> list[i].addr >= addr
    decreases |list|
  {
    if list[|list| - 1].addr >= addr {
      PosIs(list[..|list| - 1], addr);
    }
  }

  /** A block outside an ordered list lies between the entries that free finds. */
  lemma PosSplits(list: seq<Block>, b: Block)
    requires Ordered(list) && Outside(b, list)
    ensures forall i :: 0 <= i <= Pos(list, b.addr) ==> list[i].addr + list[i].size <= b.addr && list[i].addr < b.addr
    ensures forall i :: Pos(list, b.addr) < i < |list| ==> b.addr + b.size <= list[i].addr
  {
    PosIs(list, b.addr);
    var j := Pos(list, b.addr);
    forall i | 0 <= i <= j
      ensures list[i].addr + list[i].size <= b.addr && list[i].addr < b.addr
    {
      assert Apart(b, list[i]);
      assert i < j ==> Before(list[i], list[j]);
    }
    forall i | j < i < |list|
      ensures b.addr + b.size <= list[i].addr
    {
      assert Apart(b, list[i]);
    }
  }

  // ---- putting a block back

  /** c fits in the order where entry k is. */
  predicate FitsAt(list: seq<Block>, k: nat, c: Block) {
    && c.size > 0
    && (forall m :: 0 <= m < |list| && m < k ==> Before(list[m], c))
    && (forall m :: k < m < |list| ==> Before(c, list[m]))
  }

  lemma ReplaceOrdered(list: seq<Block>, k: nat, c: Block)
    requires Ordered(list) && 1 <= k < |list| && FitsAt(list, k, c)
    ensures Ordered(list[k := c])
  {
    var r := list[k := c];
    forall x, y | 0 <= x < y < |r|
      ensures Before(r[x], r[y])
    {
      assert Before(list[x], list[y]);
    }
  }

  lemma InsertOrdered(list: seq<Block>, k: nat, c: Block)
    requires Ordered(list) && k < |list| && FitsAt(list, k, c) && Before(list[k], c)
    ensures Ordered(list[..k + 1] + [c] + list[k + 1..])
  {
    var r := list[..k + 1] + [c] + list[k + 1..];
    forall x, y | 0 <= x < y < |r|
      ensures Before(r[x], r[y])
    {
      assert x != k + 1 && y != k + 1 ==> Before(list[if x <= k then x else x - 1], list[if y <= k then y else y - 1]);
    }
  }

  lemma BothOrdered(list: seq<Block>, j: nat, c: Block)
    requires Ordered(list) && 1 <= j < |list| - 1 && c.size > 0
    requires forall m :: 0 <= m < j ==> Before(list[m], c)
    requires forall m :: j + 1 < m < |list| ==> Before(c, list[m])
    ensures |Without(list, j + 1)| == |list| - 1 && Ordered(Without(list, j + 1)[j := c])
  {
    hide Ordered;
    WithoutOrdered(list, j + 1);
    ReplaceOrdered(Without(list, j + 1), j, c);
  }

  lemma InsertedOrdered(list: seq<Block>, b: Block)
    requires Ordered(list) && Outside(b, list)
    ensures Ordered(Inserted(list, b))
  {
    hide Pos, Ordered, Without;
    OrderedPairs(list);
    PosSplits(list, b);
    var j := Pos(list, b.addr);
    var up := j + 1 < |list| && b.addr + b.size == list[j + 1].addr;
    var down := list[j].addr + list[j].size == b.addr;
    if up && down {
      BothOrdered(list, j, Block(list[j].addr, list[j].size + b.size + list[j + 1].size));
    } else if up {
      ReplaceOrdered(list, j + 1, Block(b.addr, b.size + list[j + 1].size));
    } else if down {
      ReplaceOrdered(list, j, Block(list[j].addr, list[j].size + b.size));
    } else {
      InsertOrdered(list, j, b);
    }
  }

  lemma OrderedPairs(list: seq<Block>)
    requires Ordered(list)
    ensures |list| > 0 && list[0].size == 0
    ensures forall i :: 1 <= i < |list| ==> list[i].size > 0
    ensures forall i, j :: 0 <= i < j < |list| ==> Before(list[i], list[j])
  {
  }

  lemma SumInsert(list: seq<Block>, k: nat, b: Block)
    requires k < |list|
    ensures Sum(list[..k + 1] + [b] + list[k + 1..]) == Sum(list) + b.size
  {
    hide Sum;
    SumAround(list[..k + 1], b, list[k + 1..]);
    SumConcat(list[..k + 1], list[k + 1..]);
    assert list == list[..k + 1] + list[k + 1..];
  }

  lemma SumBoth(list: seq<Block>, j: nat, b: Block)
    requires j + 1 < |list|
    ensures |Without(list, j + 1)| == |list| - 1
    ensures Sum(Without(list, j + 1)[j := Block(list[j].addr, list[j].size + b.size + list[j + 1].size)]) ==
      Sum(list) + b.size
  {
    hide Sum;
    SumWithout(list, j + 1);
    SumSet(Without(list, j + 1), j, Block(list[j].addr, list[j].size + b.size + list[j + 1].size));
  }

  lemma JoinedSum(list: seq<Block>, j: nat, b: Block)
    requires j < |list|
    ensures Sum(Joined(list, j, b)) == Sum(list) + b.size
  {
    hide Sum, Without;
    var up := j + 1 < |list| && b.addr + b.size == list[j + 1].addr;
    var down := list[j].addr + list[j].size == b.addr;
    if up && down {
      SumBoth(list, j, b);
    } else if up {
      SumSet(list, j + 1, Block(b.addr, b.size + list[j + 1].size));
    } else if down {
      SumSet(list, j, Block(list[j].addr, list[j].size + b.size));
    } else {
      SumInsert(list, j, b);
    }
  }

  /** Joining blocks takes no memory that was neither in the list nor in b. */
  lemma InsertedOutside(list: seq<Block>, b: Block, c: Block)
    requires Ordered(list) && Outside(b, list) && Outside(c, list) && Apart(b, c)
    ensures Outside(c, Inserted(list, b))
  {
    PosSplits(list, b);
    var j := Pos(list, b.addr);
    var r := Inserted(list, b);
    forall i | 0 <= i < |r|
      ensures Apart(c, r[i])
    {
      assert forall m :: 0 <= m < |list| ==> Apart(c, list[m]);
    }
  }

  lemma InsertedUnder(list: seq<Block>, b: Block, brk: nat)
    requires |list| > 0 && list[0].addr < b.addr && Under(list, brk) && b.addr + b.size <= brk
    ensures Under(Inserted(list, b), brk)
  {
  }

  lemma WithoutLive(list: seq<Block>, live: seq<Block>, k: nat)
    requires LiveOk(list, live) && k < |live|
    ensures LiveOk(list, Without(live, k))
    ensures forall i :: 0 <= i < |Without(live, k)| ==> Apart(live[k], Without(live, k)[i])
  {
    var ys := Without(live, k);
    forall i | 0 <= i < |ys|
      ensures Apart(live[k], ys[i])
    {
      var m := if i < k then i else i + 1;
      assert ys[i] == live[m];
      assert m < k ==> Apart(live[m], live[k]);
    }
    forall i, j | 0 <= i < j < |ys|
      ensures Apart(ys[i], ys[j])
    {
      assert ys[i] == live[if i < k then i else i + 1] && ys[j] == live[if j < k then j else j + 1];
    }
  }

  lemma InsertedLive(list: seq<Block>, live: seq<Block>, b: Block)
    requires Ordered(list) && Outside(b, list) && LiveOk(list, live)
    requires forall k :: 0 <= k < |live| ==> Apart(b, live[k])
    ensures LiveOk(Inserted(list, b), live)
  {
    forall k | 0 <= k < |live|
      ensures Outside(live[k], Inserted(list, b))
    {
      InsertedOutside(list, b, live[k]);
    }
  }

  lemma FreeKeeps(h: Heap, k: nat)
    requires Inv(h) && k < |h.live|
    ensures h.list[0].addr < h.live[k].addr && Inv(Free(h, k))
  {
    hide Joined, Pos, Sum;
    var b := h.live[k];
    assert Outside(b, h.list);
    InsertedOrdered(h.list, b);
    JoinedSum(h.list, Pos(h.list, b.addr), b);
    SumWithout(h.live, k);
    WithoutLive(h.list, h.live, k);
    InsertedLive(h.list, Without(h.live, k), b);
    InsertedUnder(h.list, b, h.brk);
    InsertedHead(h.list, b);
  }

  lemma InsertedHead(list: seq<Block>, b: Block)
    requires Ordered(list) && Outside(b, list)
    ensures Pos(list, b.addr) < |Inserted(list, b)| && Inserted(list, b)[0] == list[0]
  {
  }

  lemma GrowKeeps(h: Heap, nu: nat, at: nat)
    requires Inv(h) && at >= h.brk && nu > 0
    ensures Inv(Grow(h, nu, at))
  {
    hide Joined, Pos, Sum;
    var b := Block(at, nu);
    assert Outside(b, h.list);
    InsertedOrdered(h.list, b);
    JoinedSum(h.list, Pos(h.list, b.addr), b);
    InsertedLive(h.list, h.live, b);
    InsertedUnder(h.list, b, at + nu);
    InsertedHead(h.list, b);
  }

  // ---- first fit

  lemma {:induction false} FitFinds(list: seq<Block>, n: nat, i: nat, steps: nat)
    requires i < |list|
    ensures Fit(list, n, i, steps).Some? ==>
      Fit(list, n, i, steps).v < |list| && list[Fit(list, n, i, steps).v].size >= n
    decreases steps
  {
    if steps > 0 && list[i].size < n {
      FitFinds(list, n, Succ(i, |list|), steps - 1);
    }
  }

  /** The entry k steps on. */
  function Round(i: nat, k: nat, n: nat): nat {
    if i + k < n then i + k else i + k - n
  }

  /** After a full round nothing is missed. */
  lemma {:induction false} FitMisses(list: seq<Block>, n: nat, i: nat, steps: nat, k: nat)
    requires i < |list| && k < steps <= |list| && Fit(list, n, i, steps) == None
    ensures list[Round(i, k, |list|)].size < n
    decreases steps
  {
    if k > 0 {
      FitMisses(list, n, Succ(i, |list|), steps - 1, k - 1);
    }
  }

  /** malloc's scan fails only when no free block is large enough. */
  lemma NoFit(h: Heap, n: nat, i: nat)
    requires |h.list| > 0 && h.freep < |h.list| && i < |h.list| && FirstFit(h, n) == None
    ensures h.list[i].size < n
  {
    var m := |h.list|;
    var from := Succ(h.freep, m);
    FitMisses(h.list, n, from, m, if i >= from then i - from else i + m - from);
  }

  lemma GrowFits(h: Heap, nu: nat, at: nat, n: nat)
    requires Inv(h) && at >= h.brk && nu >= n > 0
    ensures |Grow(h, nu, at).list| > 0 && FirstFit(Grow(h, nu, at), n).Some?
  {
    hide Fit;
    GrowKeeps(h, nu, at);
    var g := Grow(h, nu, at);
    if FirstFit(g, n) == None {
      assert Outside(Block(at, nu), h.list);
      PosSplits(h.list, Block(at, nu));
      var j := Pos(h.list, at);
      NoFit(g, n, if h.list[j].addr + h.list[j].size == at then j else j + 1);
    }
  }

  // ---- handing a block out

  lemma TakeOrdered(list: seq<Block>, i: nat, n: nat)
    requires Ordered(list) && 1 <= i < |list| && list[i].size > n
    ensures Ordered(list[i := Block(list[i].addr, list[i].size - n)])
  {
    var r := list[i := Block(list[i].addr, list[i].size - n)];
    forall x, y | 0 <= x < y < |r|
      ensures Before(r[x], r[y])
    {
      assert Before(list[x], list[y]);
    }
  }

  lemma WithoutOrdered(list: seq<Block>, i: nat)
    requires Ordered(list) && 1 <= i < |list|
    ensures Ordered(Without(list, i))
  {
    var r := Without(list, i);
    forall x, y | 0 <= x < y < |r|
      ensures Before(r[x], r[y])
    {
      assert r[x] == list[if x < i then x else x + 1] && r[y] == list[if y < i then y else y + 1];
      assert Before(list[if x < i then x else x + 1], list[if y < i then y else y + 1]);
    }
  }

  /** The list after a block was cut from entry i. */
  function Rest(list: seq<Block>, i: nat, n: nat): seq<Block>
    requires i < |list| && list[i].size >= n
  {
    if list[i].size == n then Without(list, i) else list[i := Block(list[i].addr, list[i].size - n)]
  }

  lemma RestOutside(list: seq<Block>, i: nat, n: nat, c: Block)
    requires Ordered(list) && 1 <= i < |list| && list[i].size >= n && Outside(c, list)
    ensures Outside(c, Rest(list, i, n)) && Apart(Cut(list, i, n), c)
  {
    var r := Rest(list, i, n);
    assert Apart(c, list[i]);
    forall k | 0 <= k < |r|
      ensures Apart(c, r[k])
    {
      assert Apart(c, list[if list[i].size == n && k >= i then k + 1 else k]);
    }
  }

  lemma CutOutside(list: seq<Block>, i: nat, n: nat)
    requires Ordered(list) && 1 <= i < |list| && list[i].size >= n > 0
    ensures Outside(Cut(list, i, n), Rest(list, i, n))
  {
    var r := Rest(list, i, n);
    var b := Cut(list, i, n);
    assert Before(list[0], list[i]);
    forall k | 0 <= k < |r|
      ensures Apart(b, r[k])
    {
      var m := if list[i].size == n && k >= i then k + 1 else k;
      assert m < i ==> Before(list[m], list[i]);
      assert m > i ==> Before(list[i], list[m]);
    }
  }

  lemma TakeLive(list: seq<Block>, live: seq<Block>, i: nat, n: nat)
    requires Ordered(list) && LiveOk(list, live) && 1 <= i < |list| && list[i].size >= n > 0
    ensures LiveOk(Rest(list, i, n), live + [Cut(list, i, n)])
  {
    hide Ordered, ApartFrom;
    var ys := live + [Cut(list, i, n)];
    CutOutside(list, i, n);
    forall k | 0 <= k < |live|
      ensures Outside(live[k], Rest(list, i, n)) && Apart(live[k], Cut(list, i, n))
    {
      RestOutside(list, i, n, live[k]);
    }
  }

  lemma TakeSums(h: Heap, i: nat, n: nat)
    requires 1 <= i < |h.list| && h.list[i].size >= n
    ensures Sum(Take(h, i, n).list) + Sum(Take(h, i, n).live) == Sum(h.list) + Sum(h.live)
  {
    hide Sum;
    SumConcat(h.live, [Cut(h.list, i, n)]);
    SumOne(Cut(h.list, i, n));
    if h.list[i].size > n {
      SumSet(h.list, i, Block(h.list[i].addr, h.list[i].size - n));
    } else {
      SumWithout(h.list, i);
    }
  }

  lemma TakeKeeps(h: Heap, i: nat, n: nat)
    requires Inv(h) && 1 <= i < |h.list| && h.list[i].size >= n > 0
    ensures Inv(Take(h, i, n))
  {
    hide Sum, LiveOk;
    TakeSums(h, i, n);
    TakeLive(h.list, h.live, i, n);
    if h.list[i].size == n {
      WithoutOrdered(h.list, i);
    } else {
      TakeOrdered(h.list, i, n);
    }
  }

  // ---- malloc as a whole

  /** sbrk is asked for what morecore wants exactly below 2 to the 27th units. */
  lemma IntExact(nu: nat)
    requires nu <= 0x1000_0001
    ensures Int32(nu * UNIT) == nu * UNIT <==> nu < 0x800_0000
    ensures Int32(nu * UNIT) <= nu * UNIT
  {
  }

  /** The largest request, in bytes, that needs fewer units than that. */
  lemma UnitsOf(nbytes: nat)
    requires nbytes < 0x1_0000_0000
    ensures Units(nbytes) <= 0x1000_0001
    ensures (Units(nbytes) - 1) * UNIT >= nbytes
    ensures Units(nbytes) < 0x800_0000 <==> nbytes <= 0x7fff_ffe0
  {
  }

  ghost predicate SomeFit(h: Heap, n: nat) {
    exists i :: 0 <= i < |h.list| && h.list[i].size >= n
  }

  lemma FitIff(h: Heap, n: nat)
    requires |h.list| > 0 && h.freep < |h.list|
    ensures FirstFit(h, n).Some? <==> SomeFit(h, n)
  {
    hide Fit;
    if FirstFit(h, n).Some? {
      FitFinds(h.list, n, Succ(h.freep, |h.list|), |h.list|);
    } else if SomeFit(h, n) {
      var i :| 0 <= i < |h.list| && h.list[i].size >= n;
      NoFit(h, n, i);
    }
  }

  /** malloc hands out a block that is large enough and overlaps no block that is out, and
      keeps the heap in order.  It returns 0 only when nothing fits and sbrk refuses, and
      then nothing has changed. */
  lemma MallocWorks(h: Heap, nbytes: nat, grant: Opt<nat>)
    requires Inv(h) && (grant.Some? ==> grant.v >= h.brk) && nbytes < 0x1_0000_0000
    ensures var r := Malloc(h, nbytes, grant);
            && (r.Got? ==> && Inv(r.h) && r.h.list[0] == h.list[0] && r.h.live == h.live + [r.b]
                           && (r.b.size - 1) * UNIT >= nbytes && ApartFrom(r.b, h.live))
            && (r.NoMemory? <==> !SomeFit(h, Units(nbytes)) && grant.None? && Int32(Ask(Units(nbytes)) * UNIT) > 0)
            && (r.NoMemory? ==> r.h == h)
  {
    hide Inv, Fit, Int32, Units;
    var n := Units(nbytes);
    UnitsOf(nbytes);
    InvParts(h);
    FitIff(h, n);
    var i := FirstFit(h, n);
    if i.Some? {
      FitFinds(h.list, n, Succ(h.freep, |h.list|), |h.list|);
      TakeKeeps(h, i.v, n);
      TakeApart(h, i.v, n);
    } else if grant.Some? && Int32(Ask(n) * UNIT) == Ask(n) * UNIT {
      GrowKeeps(h, Ask(n), grant.v);
      GrowFits(h, Ask(n), grant.v, n);
      var g := Grow(h, Ask(n), grant.v);
      InvParts(g);
      var j := FirstFit(g, n).v;
      FitFinds(g.list, n, Succ(g.freep, |g.list|), |g.list|);
      TakeKeeps(g, j, n);
      TakeApart(g, j, n);
      assert g.list[0] == h.list[0] by { GrowBase(h, Ask(n), grant.v); }
    }
  }

  lemma GrowBase(h: Heap, nu: nat, at: nat)
    requires Inv(h) && at >= h.brk && nu > 0
    ensures SameBase(Grow(h, nu, at), h)
  {
    assert Outside(Block(at, nu), h.list);
    InsertedHead(h.list, Block(at, nu));
  }

  lemma InvParts(h: Heap)
    requires Inv(h)
    ensures |h.list| > 0 && h.list[0].size == 0 && h.freep < |h.list| && h.list[0].addr < h.brk && Ordered(h.list)
    ensures LiveOk(h.list, h.live)
  {
  }

  lemma TakeApart(h: Heap, i: nat, n: nat)
    requires Inv(h) && 1 <= i < |h.list| && h.list[i].size >= n
    ensures ApartFrom(Cut(h.list, i, n), h.live)
  {
    forall k | 0 <= k < |h.live|
      ensures Apart(Cut(h.list, i, n), h.live[k])
    {
      assert Outside(h.live[k], h.list);
      assert Apart(h.live[k], h.list[i]);
    }
  }

  /** malloc breaks the heap exactly when nothing fits, the request is of more than
      2147483616 bytes, and sbrk does not refuse what the wrapped count asks for. */
  lemma MallocBreaks(h: Heap, nbytes: nat, grant: Opt<nat>)
    requires Inv(h) && (grant.Some? ==> grant.v >= h.brk) && nbytes < 0x1_0000_0000
    ensures Malloc(h, nbytes, grant).Broken? <==>
              !SomeFit(h, Units(nbytes)) && nbytes > 0x7fff_ffe0
                && (grant.Some? || Int32(Ask(Units(nbytes)) * UNIT) <= 0)
  {
    hide Inv, Fit, Int32, Units;
    UnitsOf(nbytes);
    IntExact(Ask(Units(nbytes)));
    InvParts(h);
    FitIff(h, Units(nbytes));
  }

  /** A request for 2 to the 31st bytes of an empty heap asks sbrk to shrink it. */
  lemma LargeRequestBreaks()
    ensures Int32(Ask(Units(0x8000_0000)) * UNIT) < 0
    ensures Inv(Empty(1, 256)) && Malloc(Empty(1, 256), 0x8000_0000, Some(256)).Broken?
  {
    hide Malloc, Inv, Units, Int32;
    EmptyInv(1, 256);
    ShrinkArgument();
    UnitsOf(0x8000_0000);
    MallocBreaks(Empty(1, 256), 0x8000_0000, Some(256));
    assert Units(0x8000_0000) > 0;
  }

  lemma ShrinkArgument()
    ensures Int32(Ask(Units(0x8000_0000)) * UNIT) == -0x7fff_fff0
  {
    assert Units(0x8000_0000) == 0x800_0001;
  }

  // ---- runs

  /** Nothing but base. */
  function Empty(base: nat, brk: nat): Heap {
    Heap([Block(base, 0)], 0, [], 0, brk)
  }

  lemma EmptyInv(base: nat, brk: nat)
    requires base < brk
    ensures Inv(Empty(base, brk))
  {
    SumOne(Block(base, 0));
  }

  datatype Call = CallMalloc(nbytes: nat, grant: Opt<nat>) | CallFree(k: nat)

  /** A call that a program may make: malloc of a size that sbrk's argument can hold, where
      sbrk puts new memory above the old, or free of a block that is out. */
  predicate Allowed(h: Heap, c: Call) {
    match c
    case CallMalloc(nbytes, grant) => nbytes <= 0x7fff_ffe0 && (grant.Some? ==> grant.v >= h.brk)
    case CallFree(k) => k < |h.live|
  }

  lemma AllowedKeeps(h: Heap, c: Call)
    requires Inv(h) && Allowed(h, c)
    ensures c.CallMalloc? ==> !Malloc(h, c.nbytes, c.grant).Broken? && Inv(Malloc(h, c.nbytes, c.grant).h)
    ensures c.CallFree? ==> h.list[0].addr < h.live[c.k].addr && Inv(Free(h, c.k))
  {
    hide Inv, Fit;
    match c
    case CallMalloc(nbytes, grant) =>
      MallocBreaks(h, nbytes, grant);
      MallocWorks(h, nbytes, grant);
    case CallFree(k) => FreeKeeps(h, k);
  }

  /** The heap after some calls; others than allowed ones are left out. */
  function After(h: Heap, calls: seq<Call>): (r: Heap)
    requires Inv(h)
    ensures Inv(r)
    decreases |calls|
  {
    if calls == [] then h
    else
      var n := |calls| - 1;
      var g := After(h, calls[..n]);
      if !Allowed(g, calls[n]) then g
      else
        AllowedKeeps(g, calls[n]);
        match calls[n]
        case CallMalloc(nbytes, grant) => Malloc(g, nbytes, grant).h
        case CallFree(k) => Free(g, k)
  }

  /** In every run the free list starts at base, is in address order, disjoint and fully
      coalesced, freep is on it, no two blocks that are out overlap, none overlaps a free
      one, and free and allocated units add up to the units obtained from sbrk. */
  lemma RunsKeep(base: nat, brk: nat, calls: seq<Call>)
    requires base < brk
    ensures Inv(Empty(base, brk))
    ensures var h := After(Empty(base, brk), calls);
            && h.list[0] == Block(base, 0) && h.freep < |h.list|
            && (forall i, j :: 0 <= i < j < |h.list| ==> h.list[i].addr + h.list[i].size < h.list[j].addr)
            && (forall j, k :: 0 <= j < k < |h.live| ==> Apart(h.live[j], h.live[k]))
            && (forall i, k :: 0 <= i < |h.list| && 0 <= k < |h.live| ==>
                  Apart(h.live[k], h.list[i]) && h.live[k].addr > base)
            && Sum(h.list) + Sum(h.live) == h.obtained
  {
    hide Sum;
    EmptyInv(base, brk);
    var h := After(Empty(base, brk), calls);
    BaseKept(Empty(base, brk), calls);
    forall i, k | 0 <= i < |h.list| && 0 <= k < |h.live|
      ensures Apart(h.live[k], h.list[i]) && h.live[k].addr > base
    {
      assert Outside(h.live[k], h.list);
    }
    forall i, j | 0 <= i < j < |h.list|
      ensures h.list[i].addr + h.list[i].size < h.list[j].addr
    {
      assert Before(h.list[i], h.list[j]);
    }
  }

  lemma {:induction false} BaseKept(h: Heap, calls: seq<Call>)
    requires Inv(h)
    ensures After(h, calls).list[0] == h.list[0]
    decreases |calls|
  {
    if calls != [] {
      var n := |calls| - 1;
      BaseKept(h, calls[..n]);
      var g := After(h, calls[..n]);
      if Allowed(g, calls[n]) {
        BaseStep(g, calls[n]);
      }
    }
  }

  predicate SameBase(g: Heap, h: Heap) {
    |g.list| > 0 && |h.list| > 0 && g.list[0] == h.list[0]
  }

  lemma BaseStep(h: Heap, c: Call)
    requires Inv(h) && Allowed(h, c)
    ensures c.CallMalloc? ==> !Malloc(h, c.nbytes, c.grant).Broken? && SameBase(Malloc(h, c.nbytes, c.grant).h, h)
    ensures c.CallFree? ==> h.list[0].addr < h.live[c.k].addr && Free(h, c.k).list[0] == h.list[0]
  {
    hide Fit, Sum, Malloc;
    AllowedKeeps(h, c);
    match c
    case CallFree(k) =>
      assert Outside(h.live[k], h.list);
      InsertedHead(h.list, h.live[k]);
    case CallMalloc(nbytes, grant) => MallocWorks(h, nbytes, grant);
  }

  // ---- free after malloc

  lemma {:induction false} PosUnique(list: seq<Block>, addr: nat, j: nat)
    requires Ordered(list) && j < |list| && list[j].addr < addr && (j + 1 < |list| ==> list[j + 1].addr >= addr)
    ensures list[0].addr < addr && Pos(list, addr) == j
  {
    assert 0 < j ==> Before(list[0], list[j]);
    PosIs(list, addr);
    var p := Pos(list, addr);
    assert j + 1 < p ==> Before(list[j + 1], list[p]);
  }

  /** Freeing the block that malloc has cut gives back the same free list, piece by piece. */
  lemma FreeUndoes(h: Heap, i: nat, n: nat)
    requires Inv(h) && 1 <= i < |h.list| && h.list[i].size >= n > 0
    ensures Inv(Take(h, i, n)) && Free(Take(h, i, n), |h.live|).list == h.list
    ensures Free(Take(h, i, n), |h.live|).live == h.live
  {
    hide Sum, Pos, LiveOk, Ordered, Joined, Rest;
    InvParts(h);
    TakeKeeps(h, i, n);
    JoinedBack(h.list, i, n);
    var g := Take(h, i, n);
    assert g.list == Rest(h.list, i, n) by { TakeIs(h, i, n); }
    assert Without(g.live, |h.live|) == h.live;
  }

  lemma TakeIs(h: Heap, i: nat, n: nat)
    requires 1 <= i < |h.list| && h.list[i].size >= n
    ensures Take(h, i, n).list == Rest(h.list, i, n)
  {
  }

  lemma JoinedBack(list: seq<Block>, i: nat, n: nat)
    requires Ordered(list) && 1 <= i < |list| && list[i].size >= n > 0
    ensures |Rest(list, i, n)| > 0 && Rest(list, i, n)[0].addr < Cut(list, i, n).addr
    ensures Inserted(Rest(list, i, n), Cut(list, i, n)) == list
  {
    hide Pos;
    var b := Cut(list, i, n);
    var r := Rest(list, i, n);
    assert Before(list[0], list[i]) && Before(list[i - 1], list[i])
      && (i + 1 < |list| ==> Before(list[i], list[i + 1]));
    if list[i].size == n {
      WithoutOrdered(list, i);
      PosUnique(r, b.addr, i - 1);
      assert Joined(r, i - 1, b) == r[..i] + [b] + r[i..];
    } else {
      TakeOrdered(list, i, n);
      PosUnique(r, b.addr, i);
      assert Joined(r, i, b) == r[i := list[i]];
    }
  }

  lemma {:induction false} SumHolds(bs: seq<Block>, k: nat)
    requires k < |bs|
    ensures bs[k].size <= Sum(bs)
  {
    if k < |bs| - 1 {
      SumHolds(bs[..|bs| - 1], k);
    }
  }

  /** No size field can wrap while fewer than 2 to the 32nd units were obtained. */
  lemma SizesFit(h: Heap)
    requires Inv(h)
    ensures forall i :: 0 <= i < |h.list| ==> h.list[i].size <= h.obtained
    ensures forall k :: 0 <= k < |h.live| ==> h.live[k].size <= h.obtained
  {
    forall i | 0 <= i < |h.list|
      ensures h.list[i].size <= h.obtained
    {
      SumHolds(h.list, i);
    }
    forall k | 0 <= k < |h.live|
      ensures h.live[k].size <= h.obtained
    {
      SumHolds(h.live, k);
    }
  }
}
