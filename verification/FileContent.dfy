/** What a file map says about files: growth by newly allocated blocks, removal of an
    inode's blocks, and files as byte sequences (kernel/fs.c, bmap to writei). */
module FileContent {
  import opened Bytes
  import opened LogFormat
  import opened Bitmap
  import opened BlockMap

  // ---- growth

  /** From `m` to `m'` inode `i` got blocks in the slots `added`, which were empty, and
      nothing else changed: no other slot, no size, no data block. */
  ghost predicate Grown(m: FileMap, m': FileMap, owner: Owners, i: nat, added: seq<nat>)
    requires Wf(m) && Wf(m')
  {
    && |m'.inodes| == |m.inodes| && i < |m.inodes|
    && (forall j :: 0 <= j < |m.inodes| ==> m'.inodes[j].size == m.inodes[j].size)
    && (forall j, t :: SlotOk(m, j, t) ==> (j == i && t in added) || Addr(m', j, t) == Addr(m, j, t))
    && (forall k :: 0 <= k < |added| ==> added[k] < NSLOTS && Addr(m, i, added[k]) == 0 && Addr(m', i, added[k]) != 0)
    && SameData(m, m', owner)
  }

  /** The owners after `m` has grown to `m'`. */
  ghost predicate OwnersGrown(owner: Owners, owner': Owners) {
    forall b :: b in owner ==> b in owner' && owner'[b] == owner[b]
  }

  lemma OwnersGrownOne(owner: Owners, b: nat, v: (nat, nat))
    ensures OwnersGrown(owner, owner)
    ensures b !in owner ==> OwnersGrown(owner, owner[b := v])
  {
  }

  lemma OwnersGrownTwice(o: Owners, o': Owners, o'': Owners)
    requires OwnersGrown(o, o') && OwnersGrown(o', o'')
    ensures OwnersGrown(o, o'')
  {
  }

  lemma GrownNone(m: FileMap, owner: Owners, i: nat)
    requires Wf(m) && i < |m.inodes|
    ensures Grown(m, m, owner, i, [])
  {
  }

  lemma GrownTwice(m: FileMap, m': FileMap, m'': FileMap, owner: Owners, owner': Owners, i: nat, f: seq<nat>,
                   f': seq<nat>)
    requires Wf(m) && Wf(m') && Wf(m'')
    requires Grown(m, m', owner, i, f) && Grown(m', m'', owner', i, f') && OwnersGrown(owner, owner')
    ensures Grown(m, m'', owner, i, f + f')
    ensures forall t :: t in f ==> t !in f'
  {
    hide Addr;
    forall t | t in f ensures t !in f' && SlotOk(m, i, t) && Addr(m, i, t) == 0 && Addr(m'', i, t) != 0 {
      assert SlotOk(m', i, t);
    }
    forall t | t in f' ensures SlotOk(m, i, t) && Addr(m, i, t) == 0 && Addr(m'', i, t) != 0 {
      assert SlotOk(m, i, t);
    }
  }

  /** Filling one slot is growth. */
  lemma SlotGrown(m: FileMap, m': FileMap, owner: Owners, i: nat, s: nat, b: nat)
    requires Wf(m) && Wf(m') && SlotOk(m, i, s) && Addr(m, i, s) == 0 && b != 0
    requires OnlySlot(m, m', i, s, b) && SameData(m, m', owner)
    requires forall j :: 0 <= j < |m.inodes| ==> m'.inodes[j].size == m.inodes[j].size
    ensures Grown(m, m', owner, i, [s])
  {
    hide Addr;
  }

  /** bmap's allocation seen from outside. */
  lemma AllocSlotGrown(bm: seq<BitBlock>, m: FileMap, reserved: set<nat>, owner: Owners,
                       i: nat, s: nat, b: nat, z: Block)
    requires Owned(bm, m, reserved, owner) && b < |m.data| && !Bit(bm, b) && IsZero(z)
    requires SlotOk(m, i, s) && Addr(m, i, s) == 0 && (s > 12 ==> m.inodes[i].addrs[12] != 0)
    ensures b != 0 && b !in owner && Wf(WithBlock(m, b, z))
    ensures var m' := WithSlot(WithBlock(m, b, z), i, s, b);
      && Owned(SetBit(bm, b), m', reserved, owner[b := (i, s)]) && Wf(m')
      && Grown(m, m', owner, i, [s]) && Addr(m', i, s) == b && m'.data[b] == z
      && |m'.data| == |m.data| && |m'.inodes| == |m.inodes|
      && Addr(m', i, 12) == if s == 12 then b else Addr(m, i, 12)
  {
    AllocSlotOwned(bm, m, reserved, owner, i, s, b, z);
    var m' := WithSlot(WithBlock(m, b, z), i, s, b);
    hide Bit, PutWord, BitsTell, SlotsOwn, OwnersNamed;
    SlotGrown(m, m', owner, i, s, b);
  }

  // ---- removal

  /** The owners without the slots `lo..hi` of inode `i`. */
  ghost function Without(owner: Owners, i: nat, lo: nat, hi: nat): Owners {
    map b | b in owner && !(owner[b].0 == i && lo <= owner[b].1 < hi) :: owner[b]
  }

  lemma WithoutNone(owner: Owners, i: nat, lo: nat)
    ensures Without(owner, i, lo, lo) == owner
  {
  }

  /** Taking out slot `lo`, which owns `a` or nothing, and then the slots after it. */
  lemma WithoutFirst(owner: Owners, i: nat, lo: nat, hi: nat, a: nat)
    requires forall b :: b in owner && owner[b] == (i, lo) ==> b == a
    requires if a == 0 then 0 !in owner else a in owner && owner[a] == (i, lo)
    requires lo < hi
    ensures Without(if a == 0 then owner else owner - {a}, i, lo + 1, hi) == Without(owner, i, lo, hi)
  {
  }

  lemma WithoutTwice(owner: Owners, i: nat, lo: nat, mid: nat, hi: nat)
    requires lo <= mid <= hi
    ensures Without(Without(owner, i, lo, mid), i, mid, hi) == Without(owner, i, lo, hi)
  {
  }

  /** Ownership depends on the slots only. */
  lemma OwnedSameSlots(bm: seq<BitBlock>, m: FileMap, m': FileMap, reserved: set<nat>, owner: Owners)
    requires Owned(bm, m, reserved, owner) && Wf(m')
    requires |m'.inodes| == |m.inodes| && |m'.data| == |m.data|
    requires forall i, s :: SlotOk(m, i, s) ==> Addr(m', i, s) == Addr(m, i, s)
    ensures Owned(bm, m', reserved, owner)
  {
    hide Addr, Bit;
    forall b | b in owner
      ensures SlotOk(m', owner[b].0, owner[b].1) && Addr(m', owner[b].0, owner[b].1) == b
    {
      assert SlotOk(m, owner[b].0, owner[b].1);
    }
  }

  // ---- files as bytes

  /** Byte `k` of file `j` lies in a block that the file has. */
  predicate Held(m: FileMap, j: nat, k: nat) {
    && Wf(m) && j < |m.inodes| && k < 274432
    && 0 < Addr(m, j, Slot(k / 1024)) < |m.data|
  }

  function ByteAt(m: FileMap, j: nat, k: nat): Byte
    requires Held(m, j, k)
  {
    m.data[Addr(m, j, Slot(k / 1024))][k % 1024]
  }

  /** Bytes `a..b` of `src` were written to file `i` at `off`: they are there now, and
      every other byte of every file is as it was. */
  ghost predicate Wrote(m: FileMap, m': FileMap, i: nat, off: nat, src: seq<Byte>, a: nat, b: nat)
    requires a <= b <= |src|
  {
    && (forall k :: off + a <= k < off + b ==> Held(m', i, k) && ByteAt(m', i, k) == src[k - off])
    && (forall j: nat, k: nat :: Held(m, j, k) && !(j == i && off + a <= k < off + b) ==>
          Held(m', j, k) && ByteAt(m', j, k) == ByteAt(m, j, k))
  }

  lemma WroteNothing(m: FileMap, m': FileMap, i: nat, off: nat, src: seq<Byte>, a: nat)
    requires a <= |src|
    requires forall j: nat, k: nat :: Held(m, j, k) ==> Held(m', j, k) && ByteAt(m', j, k) == ByteAt(m, j, k)
    ensures Wrote(m, m', i, off, src, a, a)
  {
  }

  lemma WroteTwice(m: FileMap, m1: FileMap, m2: FileMap, i: nat, off: nat, src: seq<Byte>, a: nat, b: nat, c: nat)
    requires a <= b <= c <= |src|
    requires Wrote(m, m1, i, off, src, a, b) && Wrote(m1, m2, i, off, src, b, c)
    ensures Wrote(m, m2, i, off, src, a, c)
  {
    hide Held, ByteAt;
  }

  /** Growth keeps the bytes of every file. */
  lemma GrownKeepsBytes(bm: seq<BitBlock>, m: FileMap, m': FileMap, reserved: set<nat>, owner: Owners,
                        i: nat, added: seq<nat>, j: nat, k: nat)
    requires Owned(bm, m, reserved, owner) && Wf(m') && Grown(m, m', owner, i, added) && Held(m, j, k)
    ensures Held(m', j, k) && ByteAt(m', j, k) == ByteAt(m, j, k)
    ensures Addr(m', j, Slot(k / 1024)) == Addr(m, j, Slot(k / 1024))
  {
    var s := Slot(k / 1024);
    var a := Addr(m, j, s);
    hide Addr, Bit;
    assert SlotOk(m, j, s);
    assert a in owner && owner[a] == (j, s);
  }
}
