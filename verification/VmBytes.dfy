/** copyin, copyout and copyinstr (kernel/vm.c) as byte-wise access through the flat map. */
module VmBytes {
  import opened Options
  import opened Bytes
  import opened PageTable
  import opened PageOwner
  import opened VmSpec
  import opened VmMap

  function Min(a: nat, b: nat): nat {
    if a < b then a else b
  }

  // ---- the bytes of an address space

  /** The user may read the byte at `va`. */
  predicate Readable(m: Mem, r: nat, va: nat) {
    var v := va / 4096;
    v < MAXVPN && Valid(P0(m, r, v)) && UserBit(P0(m, r, v)) && Frame(P0(m, r, v)) < |m.page|
  }

  predicate Writable(m: Mem, r: nat, va: nat) {
    Readable(m, r, va) && WriteBit(P0(m, r, va / 4096))
  }

  function UserByte(m: Mem, r: nat, va: nat): Byte
    requires Readable(m, r, va)
  {
    m.page[Frame(P0(m, r, va / 4096))][va % 4096]
  }

  // ---- walkaddr

  /** The frame of user page `v`, or none. */
  function Walkaddr(m: Mem, r: nat, v: nat): Opt<nat>
    requires r < |m.page|
  {
    if v >= MAXVPN then None
    else
      var w := Walk(m, r, v, false);
      if w.Missing? then None
      else
        var e := Pte(m, w.t, v % 512);
        if !Valid(e) || !UserBit(e) || Frame(e) >= |m.page| then None else Some(Frame(e))
  }

  lemma WalkaddrFinds(m: Mem, roots: set<nat>, owner: Owners, r: nat, va: nat)
    requires Owned(m, roots, owner) && r in roots
    ensures r < |m.page|
    ensures Walkaddr(m, r, va / 4096) == if Readable(m, r, va) then Some(Frame(P0(m, r, va / 4096))) else None
  {
    hide Owned, P0, P1, Frame, Valid, UserBit, Pte, Walk, Stepped;
    RootBound(m, roots, owner, r);
    PointerTo(0);
    var v := va / 4096;
    if v < MAXVPN {
      var o := WalkFinds(m, roots, owner, r, v, false);
      if Walk(m, r, v, false).Slot? {
        SlotEntry(m, roots, owner, r, v);
      }
    }
  }

  // ---- copyin

  /** The loop of copyin. */
  function Copyin(m: Mem, r: nat, va: nat, len: nat): Opt<seq<Byte>>
    requires r < |m.page|
    decreases len
  {
    if len == 0 then Some([])
    else
      var f := Walkaddr(m, r, va / 4096);
      if f.None? || f.v >= |m.page| then None
      else
        var o := va % 4096;
        var n := Min(4096 - o, len);
        var rest := Copyin(m, r, va + n, len - n);
        if rest.None? then None else Some(m.page[f.v][o..o + n] + rest.v)
  }

  ghost predicate AllReadable(m: Mem, r: nat, va: nat, len: nat) {
    forall a :: va <= a < va + len ==> Readable(m, r, a)
  }

  /** The bytes at `va..va+len` of the address space. */
  ghost function UserBytes(m: Mem, r: nat, va: nat, len: nat): (b: seq<Byte>)
    requires AllReadable(m, r, va, len)
    ensures |b| == len
  {
    seq<Byte>(len, k requires 0 <= k < len => UserByte(m, r, va + k))
  }

  lemma SamePage(va: nat, a: nat)
    requires va <= a < va + 4096 - va % 4096
    ensures a / 4096 == va / 4096 && a % 4096 == va % 4096 + (a - va)
  {
    Divide(a, va / 4096, va % 4096 + (a - va), 4096);
  }

  /** A byte of the page at hand. */
  lemma PageByte(m: Mem, r: nat, va: nat, a: nat)
    requires Readable(m, r, va) && va <= a < va + 4096 - va % 4096
    ensures Readable(m, r, a) && UserByte(m, r, a) == m.page[Frame(P0(m, r, va / 4096))][va % 4096 + (a - va)]
  {
    SamePage(va, a);
    hide P0, Frame;
  }

  lemma SamePageRead(m: Mem, r: nat, va: nat, n: nat)
    requires n > 0 && va % 4096 + n <= 4096
    ensures AllReadable(m, r, va, n) <==> Readable(m, r, va)
    ensures Readable(m, r, va) ==>
      UserBytes(m, r, va, n) == m.page[Frame(P0(m, r, va / 4096))][va % 4096..va % 4096 + n]
  {
    forall a | va <= a < va + n ensures Readable(m, r, a) <==> Readable(m, r, va) {
      SamePage(va, a);
    }
    assert va <= va < va + n;
    if Readable(m, r, va) {
      SliceRead(m, r, va, n);
    }
  }

  lemma SliceRead(m: Mem, r: nat, va: nat, n: nat)
    requires va % 4096 + n <= 4096 && Readable(m, r, va) && AllReadable(m, r, va, n)
    ensures UserBytes(m, r, va, n) == m.page[Frame(P0(m, r, va / 4096))][va % 4096..va % 4096 + n]
  {
    hide P0, Frame, Readable, UserByte;
    ReadableFrame(m, r, va);
    var p := m.page[Frame(P0(m, r, va / 4096))];
    var x, y := UserBytes(m, r, va, n), p[va % 4096..va % 4096 + n];
    forall k | 0 <= k < n ensures x[k] == y[k] {
      PageByte(m, r, va, va + k);
    }
  }

  lemma BytesJoin(m: Mem, r: nat, va: nat, n: nat, len: nat)
    requires n <= len
    ensures AllReadable(m, r, va, len) <==> AllReadable(m, r, va, n) && AllReadable(m, r, va + n, len - n)
    ensures AllReadable(m, r, va, len) ==>
      UserBytes(m, r, va, len) == UserBytes(m, r, va, n) + UserBytes(m, r, va + n, len - n)
  {
    hide Readable, UserByte;
  }

  /** copyin succeeds exactly if the whole range is readable, and then copies it. */
  lemma {:induction false} CopyinReads(m: Mem, roots: set<nat>, owner: Owners, r: nat, va: nat, len: nat)
    requires Owned(m, roots, owner) && r in roots
    ensures r < |m.page|
    ensures Copyin(m, r, va, len) == if AllReadable(m, r, va, len) then Some(UserBytes(m, r, va, len)) else None
    decreases len
  {
    hide Owned, P0, Frame, Readable, UserByte, Walkaddr;
    RootBound(m, roots, owner, r);
    if len == 0 {
      assert UserBytes(m, r, va, 0) == [];
    } else {
      WalkaddrFinds(m, roots, owner, r, va);
      var n := Min(4096 - va % 4096, len);
      SamePageRead(m, r, va, n);
      BytesJoin(m, r, va, n, len);
      ReadableFrame(m, r, va);
      CopyinReads(m, roots, owner, r, va + n, len - n);
    }
  }

  lemma ReadableFrame(m: Mem, r: nat, va: nat)
    ensures Readable(m, r, va) ==> va / 4096 < MAXVPN && Frame(P0(m, r, va / 4096)) < |m.page|
  {
  }

  // ---- copyinstr

  /** The first zero byte of `p` at `o..e`: the inner loop. */
  function Nul(p: Page, o: nat, e: nat): (k: Opt<nat>)
    requires o <= e <= 4096
    ensures k.Some? ==> o <= k.v < e && p[k.v] == 0 && forall i :: o <= i < k.v ==> p[i] != 0
    ensures k.None? ==> forall i :: o <= i < e ==> p[i] != 0
    decreases e - o
  {
    if o == e then None else if p[o] == 0 then Some(o) else Nul(p, o + 1, e)
  }

  /** The loop of copyinstr: the string without its terminator, or none. */
  function Copyinstr(m: Mem, r: nat, va: nat, max: nat): Opt<seq<Byte>>
    requires r < |m.page|
    decreases max
  {
    if max == 0 then None
    else
      var f := Walkaddr(m, r, va / 4096);
      if f.None? || f.v >= |m.page| then None
      else
        var o := va % 4096;
        var n := Min(4096 - o, max);
        var k := Nul(m.page[f.v], o, o + n);
        if k.Some? then Some(m.page[f.v][o..k.v])
        else
          var rest := Copyinstr(m, r, va + n, max - n);
          if rest.None? then None else Some(m.page[f.v][o..o + n] + rest.v)
  }

  /** A string of `k` bytes and its terminator lie at `va`. */
  ghost predicate StringAt(m: Mem, r: nat, va: nat, k: nat) {
    && AllReadable(m, r, va, k + 1) && Readable(m, r, va + k) && UserByte(m, r, va + k) == 0
    && forall a :: va <= a < va + k ==> Readable(m, r, a) && UserByte(m, r, a) != 0
  }

  /** At most one length fits. */
  lemma OneString(m: Mem, r: nat, va: nat, k: nat, k': nat)
    requires StringAt(m, r, va, k) && StringAt(m, r, va, k')
    ensures k == k'
  {
    hide Readable, UserByte;
  }

  /** Within the page: the inner loop finds the end of the string. */
  lemma NulHere(m: Mem, r: nat, va: nat, k: nat)
    requires Readable(m, r, va) && va % 4096 <= k < 4096
    requires var p := m.page[Frame(P0(m, r, va / 4096))]; p[k] == 0 && forall i :: va % 4096 <= i < k ==> p[i] != 0
    ensures StringAt(m, r, va, k - va % 4096)
    ensures UserBytes(m, r, va, k - va % 4096) == m.page[Frame(P0(m, r, va / 4096))][va % 4096..k]
  {
    var n := k - va % 4096;
    hide P0, Frame, Readable, UserByte;
    forall a | va <= a < va + n + 1 ensures Readable(m, r, a) && (UserByte(m, r, a) == 0 <==> a == va + n) {
      PageByte(m, r, va, a);
      assert a < va + n ==> va % 4096 + (a - va) < k;
    }
    ReadableFrame(m, r, va);
    SliceRead(m, r, va, n);
  }

  /** Beyond the page: the string goes on. */
  lemma StringOn(m: Mem, r: nat, va: nat, n: nat, k: nat)
    requires AllReadable(m, r, va, n) && forall a :: va <= a < va + n ==> Readable(m, r, a) && UserByte(m, r, a) != 0
    ensures k >= n ==> (StringAt(m, r, va, k) <==> StringAt(m, r, va + n, k - n))
    ensures k < n ==> !StringAt(m, r, va, k)
  {
    hide Readable, UserByte;
    if k >= n {
      BytesJoin(m, r, va, n, k + 1);
    }
  }

  /** copyinstr finds the string at `va` if one ends within `max` bytes and all of it is
      readable, and fails otherwise.  No other length would do. */
  lemma CopyinstrReads(m: Mem, roots: set<nat>, owner: Owners, r: nat, va: nat, max: nat)
    requires Owned(m, roots, owner) && r in roots
    ensures r < |m.page|
    ensures IsString(m, r, va, max, Copyinstr(m, r, va, max))
    ensures Copyinstr(m, r, va, max).Some? ==>
              forall k: nat :: StringAt(m, r, va, k) <==> k == |Copyinstr(m, r, va, max).v|
  {
    hide Owned, StringAt, UserBytes, Copyinstr;
    StringFound(m, roots, owner, r, va, max);
    var s := Copyinstr(m, r, va, max);
    if s.Some? {
      forall k: nat | StringAt(m, r, va, k)
        ensures k == |s.v|
      {
        OneString(m, r, va, k, |s.v|);
      }
    }
  }

  lemma {:induction false} StringFound(m: Mem, roots: set<nat>, owner: Owners, r: nat, va: nat, max: nat)
    requires Owned(m, roots, owner) && r in roots
    ensures r < |m.page|
    ensures IsString(m, r, va, max, Copyinstr(m, r, va, max))
    decreases max
  {
    hide Owned, P0, Frame, Readable, UserByte, Walkaddr, UserBytes, StringAt;
    RootBound(m, roots, owner, r);
    if max > 0 {
      WalkaddrFinds(m, roots, owner, r, va);
      ReadableFrame(m, r, va);
      if !Readable(m, r, va) {
        NoString(m, r, va);
      } else {
        var p := m.page[Frame(P0(m, r, va / 4096))];
        var o := va % 4096;
        var n := Min(4096 - o, max);
        var k := Nul(p, o, o + n);
        if k.Some? {
          NulHere(m, r, va, k.v);
        } else {
          PageFull(m, r, va, n);
          StringFound(m, roots, owner, r, va + n, max - n);
          GoesOn(m, r, va, n, max, Copyinstr(m, r, va + n, max - n));
        }
      }
    }
  }

  /** `s` is what copyinstr should answer. */
  ghost predicate IsString(m: Mem, r: nat, va: nat, max: nat, s: Opt<seq<Byte>>) {
    match s
    case Some(b) => |b| < max && StringAt(m, r, va, |b|) && b == UserBytes(m, r, va, |b|)
    case None => forall k: nat :: k < max ==> !StringAt(m, r, va, k)
  }

  lemma GoesOn(m: Mem, r: nat, va: nat, n: nat, max: nat, rest: Opt<seq<Byte>>)
    requires n <= max && AllReadable(m, r, va, n) && IsString(m, r, va + n, max - n, rest)
    requires forall a :: va <= a < va + n ==> Readable(m, r, a) && UserByte(m, r, a) != 0
    ensures IsString(m, r, va, max, if rest.None? then None else Some(UserBytes(m, r, va, n) + rest.v))
  {
    hide Readable, UserByte, UserBytes, StringAt;
    if rest.Some? {
      StringOn(m, r, va, n, n + |rest.v|);
      StringReads(m, r, va, n + |rest.v|);
      BytesJoin(m, r, va, n, n + |rest.v|);
    } else {
      forall k: nat | k < max ensures !StringAt(m, r, va, k) {
        StringOn(m, r, va, n, k);
      }
    }
  }

  lemma StringReads(m: Mem, r: nat, va: nat, k: nat)
    requires StringAt(m, r, va, k)
    ensures AllReadable(m, r, va, k)
  {
    hide Readable, UserByte;
  }

  lemma NoString(m: Mem, r: nat, va: nat)
    requires !Readable(m, r, va)
    ensures forall k: nat :: !StringAt(m, r, va, k)
  {
    hide Readable, UserByte;
  }

  lemma PageFull(m: Mem, r: nat, va: nat, n: nat)
    requires Readable(m, r, va) && 0 < n && va % 4096 + n <= 4096
    requires var p := m.page[Frame(P0(m, r, va / 4096))]; forall i :: va % 4096 <= i < va % 4096 + n ==> p[i] != 0
    ensures AllReadable(m, r, va, n) && forall a :: va <= a < va + n ==> Readable(m, r, a) && UserByte(m, r, a) != 0
    ensures UserBytes(m, r, va, n) == m.page[Frame(P0(m, r, va / 4096))][va % 4096..va % 4096 + n]
  {
    SamePageRead(m, r, va, n);
    hide P0, Frame, Readable, UserByte;
    forall a | va <= a < va + n ensures Readable(m, r, a) && UserByte(m, r, a) != 0 {
      PageByte(m, r, va, a);
    }
  }

  // ---- copyout

  datatype Out = Written(m: Mem) | Fault(m: Mem)

  /** A page with `x` written at byte `o`. */
  function Overwrite(p: Page, o: nat, x: seq<Byte>): Page
    requires o + |x| <= 4096
  {
    p[..o] + x + p[o + |x|..]
  }

  /** The PTE that copyout looks at, or 0. */
  function LeafPte(m: Mem, r: nat, v: nat): nat
    requires r < |m.page|
  {
    if v >= MAXVPN then 0
    else
      var w := Walk(m, r, v, false);
      if w.Missing? then 0 else Pte(m, w.t, v % 512)
  }

  /** The loop of copyout after `k` bytes. */
  function Copyout(m: Mem, r: nat, va: nat, src: seq<Byte>, k: nat): (x: Out)
    requires r < |m.page| && k <= |src|
    ensures |x.m.page| == |m.page|
    decreases |src| - k
  {
    if k == |src| then Written(m)
    else
      var a := va + k;
      var e := LeafPte(m, r, a / 4096);
      if !Valid(e) || !UserBit(e) || !WriteBit(e) || Frame(e) >= |m.page| then Fault(m)
      else
        var n := Min(4096 - a % 4096, |src| - k);
        Copyout(SetPage(m, Frame(e), Overwrite(m.page[Frame(e)], a % 4096, src[k..k + n])), r, va, src, k + n)
  }

  lemma LeafPteIs(m: Mem, roots: set<nat>, owner: Owners, r: nat, v: nat)
    requires Owned(m, roots, owner) && r in roots
    ensures r < |m.page| && LeafPte(m, r, v) == if v < MAXVPN then P0(m, r, v) else 0
  {
    hide Owned, P0, P1, Frame, Valid, Pte, Walk, Stepped;
    RootBound(m, roots, owner, r);
    if v < MAXVPN {
      var o := WalkFinds(m, roots, owner, r, v, false);
      if Walk(m, r, v, false).Slot? {
        SlotEntry(m, roots, owner, r, v);
      }
    }
  }

  /** Bytes `i..k` of `src` were written at `va + i` of address space `r`; all other bytes
      of all address spaces are as they were, and so are the tables. */
  ghost predicate WroteUser(m: Mem, m': Mem, roots: set<nat>, r: nat, va: nat, src: seq<Byte>, i: nat, k: nat) {
    && i <= k <= |src| && m'.free == m.free && |m'.page| == |m.page| && SameTables(m, m', roots)
    && (forall s, a :: s in roots && 0 <= a && Readable(m, s, a) ==>
          Readable(m', s, a) && UserByte(m', s, a) == if s == r && va + i <= a < va + k then src[a - va]
            else UserByte(m, s, a))
  }

  /** Frames that are not part of address space `r` hold what they held. */
  ghost predicate SpareOthers(m: Mem, m': Mem, owner: Owners, r: nat) {
    && |m'.page| == |m.page|
    && forall g :: g in owner && g < |m.page| && !(owner[g].Part? && owner[g].root == r) ==> m'.page[g] == m.page[g]
  }

  lemma WroteNone(m: Mem, roots: set<nat>, r: nat, va: nat, src: seq<Byte>, i: nat)
    requires i <= |src|
    ensures WroteUser(m, m, roots, r, va, src, i, i)
  {
    hide P0, P1, P2;
  }

  lemma WroteMore(m: Mem, m1: Mem, m2: Mem, roots: set<nat>, r: nat, va: nat, src: seq<Byte>, i: nat, j: nat, k: nat)
    requires WroteUser(m, m1, roots, r, va, src, i, j) && WroteUser(m1, m2, roots, r, va, src, j, k)
    ensures WroteUser(m, m2, roots, r, va, src, i, k)
  {
    hide P0, P1, P2, Readable, UserByte, SameTables;
    SameTablesTwice(m, m1, m2, roots);
  }

  /** One page's worth. */
  lemma WritePage(m: Mem, roots: set<nat>, owner: Owners, r: nat, va: nat, src: seq<Byte>, k: nat, n: nat)
    requires Owned(m, roots, owner) && r in roots && k + n <= |src| && 0 < n && (va + k) % 4096 + n <= 4096
    requires Readable(m, r, va + k)
    ensures var f := Frame(P0(m, r, (va + k) / 4096));
      var m' := SetPage(m, f, Overwrite(m.page[f], (va + k) % 4096, src[k..k + n]));
      && Owned(m', roots, owner) && WroteUser(m, m', roots, r, va, src, k, k + n) && SpareOthers(m, m', owner, r)
  {
    hide P0, Frame, Owned, SameTables, Overwrite, UserBit, WriteBit, Valid;
    var v := (va + k) / 4096;
    var f := Frame(P0(m, r, v));
    PointerTo(0);
    MappedFacts(m, roots, owner, r, v);
    assert v < TRAPFRAME;
    var m' := SetPage(m, f, Overwrite(m.page[f], (va + k) % 4096, src[k..k + n]));
    WriteOwned(m, roots, owner, f, Overwrite(m.page[f], (va + k) % 4096, src[k..k + n]));
    forall s, a | s in roots && 0 <= a && Readable(m, s, a)
      ensures Readable(m', s, a)
      ensures UserByte(m', s, a) == if s == r && va + k <= a < va + k + n then src[a - va] else UserByte(m, s, a)
    {
      ByteAfter(m, m', roots, owner, r, va, src, k, n, s, a);
    }
  }

  lemma ByteAfter(m: Mem, m': Mem, roots: set<nat>, owner: Owners, r: nat, va: nat, src: seq<Byte>, k: nat, n: nat,
                  s: nat, a: nat)
    requires Owned(m, roots, owner) && r in roots && s in roots && k + n <= |src| && 0 < n
    requires (va + k) % 4096 + n <= 4096
    requires Readable(m, r, va + k) && Readable(m, s, a) && SameTables(m, m', roots)
    requires var f := Frame(P0(m, r, (va + k) / 4096));
      m' == SetPage(m, f, Overwrite(m.page[f], (va + k) % 4096, src[k..k + n]))
    ensures Readable(m', s, a)
    ensures UserByte(m', s, a) == if s == r && va + k <= a < va + k + n then src[a - va] else UserByte(m, s, a)
  {
    hide Owned, Frame, UserBit, Valid, P0;
    var b := va + k;
    PointerTo(0);
    SameAt2(m, m', roots, s, a / 4096);
    SameFrame(m, roots, owner, r, b / 4096, s, a / 4096);
    if b <= a < b + n {
      SamePage(b, a);
    } else if a / 4096 == b / 4096 {
      InPage(a, b);
    }
  }

  lemma InPage(a: nat, b: nat)
    requires a / 4096 == b / 4096
    ensures a - b == a % 4096 - b % 4096
  {
  }

  lemma SameAt2(m: Mem, m': Mem, roots: set<nat>, r: nat, v: nat)
    requires SameTables(m, m', roots) && r in roots && v < NV
    ensures P0(m', r, v) == P0(m, r, v)
  {
  }

  /** Two user pages with the same frame are the same page. */
  lemma SameFrame(m: Mem, roots: set<nat>, owner: Owners, r: nat, v: nat, s: nat, u: nat)
    requires Owned(m, roots, owner) && r in roots && s in roots && v < MAXVPN && u < MAXVPN
    requires P0(m, r, v) != 0 && P0(m, s, u) != 0 && UserBit(P0(m, r, v)) && UserBit(P0(m, s, u))
    ensures Frame(P0(m, r, v)) == Frame(P0(m, s, u)) ==> r == s && v == u
  {
    hide Owned, Frame, UserBit, P0;
    MappedFacts(m, roots, owner, r, v);
    MappedFacts(m, roots, owner, s, u);
  }

  /** copyout writes the whole range if every byte of it is writable; otherwise it stops
      at the first page that is not, having written the bytes before it. */
  lemma {:induction false} CopyoutWrites(m: Mem, roots: set<nat>, owner: Owners, r: nat, va: nat, src: seq<Byte>,
                                         k: nat)
    returns (done: nat)
    requires Owned(m, roots, owner) && r in roots && k <= |src|
    ensures r < |m.page|
    ensures var x := Copyout(m, r, va, src, k);
      && Owned(x.m, roots, owner) && WroteUser(m, x.m, roots, r, va, src, k, done) && SpareOthers(m, x.m, owner, r)
      && k <= done <= |src| && (forall a :: va + k <= a < va + done ==> Writable(m, r, a))
      && if x.Written? then done == |src| else done < |src| && !Writable(m, r, va + done)
    decreases |src| - k
  {
    hide P0, Frame, Owned, WroteUser, Overwrite, Writable, LeafPte, Valid, UserBit, WriteBit;
    RootBound(m, roots, owner, r);
    done := k;
    WroteNone(m, roots, r, va, src, k);
    if k < |src| {
      var a := va + k;
      LeafPteIs(m, roots, owner, r, a / 4096);
      WritableIs(m, roots, owner, r, a);
      if Writable(m, r, a) {
        var n := Min(4096 - a % 4096, |src| - k);
        WritableReadable(m, r, a);
        WritePage(m, roots, owner, r, va, src, k, n);
        var f := Frame(P0(m, r, a / 4096));
        var m1 := SetPage(m, f, Overwrite(m.page[f], a % 4096, src[k..k + n]));
        done := CopyoutWrites(m1, roots, owner, r, va, src, k + n);
        WroteMore(m, m1, Copyout(m1, r, va, src, k + n).m, roots, r, va, src, k, k + n, done);
        WritableSame(m, m1, roots, r, va, src, k, n, done);
      }
    }
  }

  lemma WritableReadable(m: Mem, r: nat, a: nat)
    requires Writable(m, r, a)
    ensures Readable(m, r, a)
  {
  }

  lemma WritableIs(m: Mem, roots: set<nat>, owner: Owners, r: nat, a: nat)
    requires Owned(m, roots, owner) && r in roots
    ensures var e := if a / 4096 < MAXVPN then P0(m, r, a / 4096) else 0;
      Writable(m, r, a) <==> Valid(e) && UserBit(e) && WriteBit(e) && Frame(e) < |m.page|
    ensures Writable(m, r, a) ==> a / 4096 < MAXVPN && Frame(P0(m, r, a / 4096)) < |m.page|
  {
    hide Owned, P0;
  }

  lemma WritableSame(m: Mem, m1: Mem, roots: set<nat>, r: nat, va: nat, src: seq<Byte>, k: nat, n: nat, done: nat)
    requires WroteUser(m, m1, roots, r, va, src, k, k + n) && r in roots && Writable(m, r, va + k) && k + n <= done
    requires (va + k) % 4096 + n <= 4096 && forall a :: va + k + n <= a < va + done ==> Writable(m1, r, a)
    ensures forall a :: va + k <= a < va + done ==> Writable(m, r, a)
    ensures Writable(m1, r, va + done) <==> Writable(m, r, va + done)
  {
    hide Frame, UserBit, WriteBit, Valid, UserByte, Overwrite;
    forall a: nat ensures Writable(m1, r, a) <==> Writable(m, r, a) {
      if a / 4096 < MAXVPN {
        SameAt2(m, m1, roots, r, a / 4096);
      }
    }
    hide P0;
    forall a | va + k <= a < va + done ensures Writable(m, r, a) {
      if a < va + k + n {
        SamePage(va + k, a);
      }
    }
  }
}
