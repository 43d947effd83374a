/** itrunc (kernel/fs.c): every block of an inode is freed, slot by slot, and none of
    them is found free already. */
module FsTrunc {
  import opened Bytes
  import opened LogFormat
  import opened Bitmap
  import opened BlockMap
  import opened FileContent
  import opened FsSpec

  datatype Outcome = Done(v: Volume) | FreeingFreeBlock

  /** bfree: clear the block's bit, or panic if it is clear already. */
  function Bfree(bmapstart: nat, v: Volume, b: nat): (r: Outcome)
    ensures r.Done? ==> r.v.files == v.files
  {
    if Covers(v.bitmap, b) && Bit(v.bitmap, b)
    then Done(v.(bitmap := ClearBit(v.bitmap, b), logged := v.logged + {b / 8192 + bmapstart}))
    else FreeingFreeBlock
  }

  /** The volume with a slot of the inode itself set to 0. */
  function Cleared(v: Volume, i: nat, s: nat): (v': Volume)
    requires Wf(v.files) && i < |v.files.inodes| && s <= 12
    ensures Wf(v'.files) && |v'.files.inodes| == |v.files.inodes|
  {
    v.(files := WithSlot(v.files, i, s, 0))
  }

  /** The first loop of itrunc, from direct slot `k` on. */
  function FreeDirect(bmapstart: nat, v: Volume, i: nat, k: nat): (r: Outcome)
    requires Wf(v.files) && i < |v.files.inodes| && k <= 12
    ensures r.Done? ==> Wf(r.v.files) && |r.v.files.inodes| == |v.files.inodes|
    decreases 12 - k
  {
    if k == 12 then Done(v)
    else if Addr(v.files, i, k) == 0 then FreeDirect(bmapstart, v, i, k + 1)
    else
      var r := Bfree(bmapstart, v, Addr(v.files, i, k));
      if r.FreeingFreeBlock? then r else FreeDirect(bmapstart, Cleared(r.v, i, k), i, k + 1)
  }

  /** The second loop of itrunc, from entry `j` of the indirect block on; the entries
      themselves are not cleared. */
  function FreeEntries(bmapstart: nat, v: Volume, ind: Block, j: nat): (r: Outcome)
    requires j <= 256
    ensures r.Done? ==> r.v.files == v.files
    decreases 256 - j
  {
    if j == 256 then Done(v)
    else if Word(ind, 4 * j, 4) == 0 then FreeEntries(bmapstart, v, ind, j + 1)
    else
      var r := Bfree(bmapstart, v, Word(ind, 4 * j, 4));
      if r.FreeingFreeBlock? then r else FreeEntries(bmapstart, r.v, ind, j + 1)
  }

  /** The indirect part of itrunc: the entries, then the indirect block. */
  function FreeIndirect(bmapstart: nat, v: Volume, i: nat): (r: Outcome)
    requires Wf(v.files) && i < |v.files.inodes|
    ensures r.Done? ==> |r.v.files.inodes| == |v.files.inodes|
  {
    var ind := Addr(v.files, i, 12);
    if ind == 0 then Done(v)
    else
      var r := FreeEntries(bmapstart, v, v.files.data[ind], 0);
      if r.FreeingFreeBlock? then r
      else
        var r2 := Bfree(bmapstart, r.v, ind);
        if r2.FreeingFreeBlock? then r2 else Done(Cleared(r2.v, i, 12))
  }

  /** itrunc: both loops, then size 0 and iupdate, which logs the inode's block. */
  function Itrunc(bmapstart: nat, inodestart: nat, v: Volume, i: nat): Outcome
    requires Wf(v.files) && i < |v.files.inodes|
  {
    var r := FreeDirect(bmapstart, v, i, 0);
    if r.FreeingFreeBlock? then r
    else
      var r2 := FreeIndirect(bmapstart, r.v, i);
      if r2.FreeingFreeBlock? then r2
      else
        var m := r2.v.files;
        Done(r2.v.(files := m.(inodes := m.inodes[i := m.inodes[i].(size := 0)]),
                   logged := r2.v.logged + {i / 16 + inodestart}))
  }

  // ---- direct slots

  /** One direct slot: its block is owned, so bfree succeeds. */
  lemma FreeDirectSlot(bmapstart: nat, reserved: set<nat>, v: Volume, owner: Owners, i: nat, k: nat)
    requires Good(v, reserved, owner) && Wf(v.files) && i < |v.files.inodes| && k < 12 && Addr(v.files, i, k) != 0
    ensures var a := Addr(v.files, i, k);
      var r := Bfree(bmapstart, v, a);
      && r.Done? && a in owner && owner[a] == (i, k)
      && Good(Cleared(r.v, i, k), reserved, owner - {a})
  {
    assert SlotOk(v.files, i, k);
    SlotSet(v.files, i, k, 0);
    ClearSlotOwned(v.bitmap, v.files, WithSlot(v.files, i, k, 0), reserved, owner, i, k);
  }

  /** No block is owned by an empty slot; an owned slot owns its block alone. */
  lemma SlotOwnsOne(v: Volume, reserved: set<nat>, owner: Owners, i: nat, s: nat)
    requires Good(v, reserved, owner) && SlotOk(v.files, i, s) && Wf(v.files)
    ensures forall b :: b in owner && owner[b] == (i, s) ==> b == Addr(v.files, i, s)
  {
  }

  /** The map with the direct slots of inode `i` from `k` on cleared. */
  ghost predicate DirectCleared(m: FileMap, m': FileMap, i: nat, k: nat)
    requires Wf(m) && Wf(m') && i < |m.inodes| && |m'.inodes| == |m.inodes|
  {
    && m'.data == m.data
    && m'.inodes[i].size == m.inodes[i].size
    && (forall j :: 0 <= j < |m.inodes| && j != i ==> m'.inodes[j] == m.inodes[j])
    && (forall s :: 0 <= s <= 12 ==> m'.inodes[i].addrs[s] == if k <= s < 12 then 0 else m.inodes[i].addrs[s])
  }

  /** Slot `k` owns its block alone, or nothing. */
  lemma SlotTaken(v: Volume, reserved: set<nat>, owner: Owners, i: nat, k: nat, hi: nat)
    requires Good(v, reserved, owner) && Wf(v.files) && SlotOk(v.files, i, k) && k < hi
    ensures var a := Addr(v.files, i, k);
      && (a == 0 ==> Without(owner, i, k + 1, hi) == Without(owner, i, k, hi))
      && (a != 0 ==> Without(owner - {a}, i, k + 1, hi) == Without(owner, i, k, hi))
  {
    SlotOwnsOne(v, reserved, owner, i, k);
    hide Addr, Without;
    WithoutFirst(owner, i, k, hi, Addr(v.files, i, k));
  }

  lemma DirectClearedMore(v: Volume, w: Volume, i: nat, k: nat)
    requires Wf(v.files) && Wf(w.files) && i < |v.files.inodes| && |w.files.inodes| == |v.files.inodes| && k < 12
    requires DirectCleared(Cleared(v, i, k).files, w.files, i, k + 1)
    ensures DirectCleared(v.files, w.files, i, k)
  {
  }

  /** The first loop succeeds and leaves no direct block. */
  lemma {:induction false} FreeDirectOwned(bmapstart: nat, reserved: set<nat>, v: Volume, owner: Owners, i: nat, k: nat)
    requires Good(v, reserved, owner) && Wf(v.files) && i < |v.files.inodes| && k <= 12
    ensures var r := FreeDirect(bmapstart, v, i, k);
      && r.Done? && Good(r.v, reserved, Without(owner, i, k, 12))
      && DirectCleared(v.files, r.v.files, i, k)
    decreases 12 - k
  {
    if k == 12 {
      WithoutNone(owner, i, 12);
    } else {
      var a := Addr(v.files, i, k);
      SlotTaken(v, reserved, owner, i, k, 12);
      hide Good, Bfree, Without;
      if a == 0 {
        FreeDirectOwned(bmapstart, reserved, v, owner, i, k + 1);
      } else {
        FreeDirectSlot(bmapstart, reserved, v, owner, i, k);
        var v' := Cleared(Bfree(bmapstart, v, a).v, i, k);
        hide DirectCleared;
        FreeDirectOwned(bmapstart, reserved, v', owner - {a}, i, k + 1);
        DirectClearedMore(v, FreeDirect(bmapstart, v', i, k + 1).v, i, k);
      }
    }
  }

  // ---- entries of the indirect block

  /** `vm` is the map in which the entries of the indirect block up to slot `s` are
      cleared already; the block on disk still holds them. */
  ghost predicate EntriesLeft(vm: FileMap, m: FileMap, i: nat, s: nat)
    requires Wf(m) && i < |m.inodes|
  {
    && Wf(vm) && vm.inodes == m.inodes && |vm.data| == |m.data| && Addr(m, i, 12) != 0
    && vm.data == m.data[Addr(m, i, 12) := vm.data[Addr(m, i, 12)]]
    && forall t :: 13 <= t < NSLOTS ==> Addr(vm, i, t) == if t < s then 0 else Addr(m, i, t)
  }

  lemma FreeEntry(bmapstart: nat, reserved: set<nat>, v: Volume, vm: FileMap, owner: Owners, i: nat, s: nat)
    requires Wf(v.files) && i < |v.files.inodes| && 13 <= s < NSLOTS && EntriesLeft(vm, v.files, i, s)
    requires Owned(v.bitmap, vm, reserved, owner) && Addr(v.files, i, s) != 0
    ensures var a := Addr(v.files, i, s);
      var r := Bfree(bmapstart, v, a);
      && r.Done? && a in owner && owner[a] == (i, s)
      && Wf(vm) && EntriesLeft(WithSlot(vm, i, s, 0), v.files, i, s + 1)
      && Owned(r.v.bitmap, WithSlot(vm, i, s, 0), reserved, owner - {a})
  {
    assert SlotOk(vm, i, s);
    IndirectBlocksDiffer(v.bitmap, vm, reserved, owner, i);
    SlotSet(vm, i, s, 0);
    ClearSlotOwned(v.bitmap, vm, WithSlot(vm, i, s, 0), reserved, owner, i, s);
  }

  lemma EntryTaken(reserved: set<nat>, v: Volume, vm: FileMap, owner: Owners, i: nat, s: nat)
    requires Wf(v.files) && i < |v.files.inodes| && 13 <= s < NSLOTS && EntriesLeft(vm, v.files, i, s)
    requires Owned(v.bitmap, vm, reserved, owner)
    ensures var a := Addr(v.files, i, s);
      && a == Word(v.files.data[Addr(v.files, i, 12)], 4 * (s - 13), 4)
      && (a == 0 ==>
            EntriesLeft(vm, v.files, i, s + 1) && Without(owner, i, s + 1, NSLOTS) == Without(owner, i, s, NSLOTS))
      && (a != 0 ==> Without(owner - {a}, i, s + 1, NSLOTS) == Without(owner, i, s, NSLOTS))
  {
    hide Without;
    SlotTaken(v.(files := vm), reserved, owner, i, s, NSLOTS);
  }

  /** The second loop succeeds, and no block of the entries is owned any more. */
  lemma {:induction false} FreeEntriesOwned(bmapstart: nat, reserved: set<nat>, v: Volume, vm: FileMap,
                                            owner: Owners, i: nat, j: nat)
    returns (vm': FileMap)
    requires Wf(v.files) && i < |v.files.inodes| && j <= 256 && EntriesLeft(vm, v.files, i, 13 + j)
    requires Owned(v.bitmap, vm, reserved, owner)
    ensures var r := FreeEntries(bmapstart, v, v.files.data[Addr(v.files, i, 12)], j);
      && r.Done? && EntriesLeft(vm', v.files, i, NSLOTS)
      && Owned(r.v.bitmap, vm', reserved, Without(owner, i, 13 + j, NSLOTS))
    decreases 256 - j
  {
    vm' := vm;
    if j == 256 {
      WithoutNone(owner, i, NSLOTS);
    } else {
      var s := 13 + j;
      var a := Addr(v.files, i, s);
      EntryTaken(reserved, v, vm, owner, i, s);
      hide Owned, Bfree, Without, EntriesLeft, Addr, Wf, Word;
      if a == 0 {
        vm' := FreeEntriesOwned(bmapstart, reserved, v, vm, owner, i, j + 1);
      } else {
        FreeEntry(bmapstart, reserved, v, vm, owner, i, s);
        vm' := FreeEntriesOwned(bmapstart, reserved, Bfree(bmapstart, v, a).v, WithSlot(vm, i, s, 0),
                                owner - {a}, i, j + 1);
      }
    }
  }

  /** Once no entry is left, the indirect block goes, and what the block held is of no
      account any more. */
  lemma DropIndirect(reserved: set<nat>, bm: seq<BitBlock>, m: FileMap, vm: FileMap, owner: Owners, i: nat)
    requires Wf(m) && i < |m.inodes| && EntriesLeft(vm, m, i, NSLOTS) && Owned(bm, vm, reserved, owner)
    ensures var ind := Addr(m, i, 12);
      && Covers(bm, ind) && Bit(bm, ind) && ind in owner && owner[ind] == (i, 12)
      && Owned(ClearBit(bm, ind), WithSlot(m, i, 12, 0), reserved, owner - {ind})
  {
    var ind := Addr(m, i, 12);
    assert SlotOk(vm, i, 12);
    IndirectBlocksDiffer(bm, vm, reserved, owner, i);
    SlotSet(vm, i, 12, 0);
    var vm' := WithSlot(vm, i, 12, 0);
    ClearSlotOwned(bm, vm, vm', reserved, owner, i, 12);
    BlockWriteKeepsSlots(vm', ind, m.data[ind]);
    assert WithSlot(m, i, 12, 0) == WithBlock(vm', ind, m.data[ind]);
    hide Addr, Bit, ClearBit, EntriesLeft;
    OwnedSameSlots(ClearBit(bm, ind), vm', WithSlot(m, i, 12, 0), reserved, owner - {ind});
  }

  lemma NoEntriesOwned(v: Volume, reserved: set<nat>, owner: Owners, i: nat)
    requires Good(v, reserved, owner) && Wf(v.files) && i < |v.files.inodes| && Addr(v.files, i, 12) == 0
    ensures Without(owner, i, 12, NSLOTS) == owner
  {
    forall b | b in owner && owner[b].0 == i ensures owner[b].1 < 12 {
      assert SlotOk(v.files, i, owner[b].1) && Addr(v.files, i, owner[b].1) == b;
    }
  }

  lemma FreeIndirectOwned(bmapstart: nat, reserved: set<nat>, v: Volume, owner: Owners, i: nat)
    requires Good(v, reserved, owner) && Wf(v.files) && i < |v.files.inodes|
    ensures var r := FreeIndirect(bmapstart, v, i);
      && r.Done? && Good(r.v, reserved, Without(owner, i, 12, NSLOTS))
      && r.v.files == WithSlot(v.files, i, 12, 0)
  {
    var ind := Addr(v.files, i, 12);
    if ind == 0 {
      NoEntriesOwned(v, reserved, owner, i);
      assert v.files.inodes[i].addrs[12 := 0] == v.files.inodes[i].addrs;
    } else {
      assert EntriesLeft(v.files, v.files, i, 13);
      SlotTaken(v, reserved, owner, i, 12, NSLOTS);
      var vm := FreeEntriesOwned(bmapstart, reserved, v, v.files, owner, i, 0);
      var r := FreeEntries(bmapstart, v, v.files.data[ind], 0);
      hide Addr, EntriesLeft, FreeEntries, Owned, Wf, Bit, Without;
      DropIndirect(reserved, r.v.bitmap, v.files, vm, Without(owner, i, 13, NSLOTS), i);
      WithoutSwap(owner, i, ind);
    }
  }

  lemma WithoutSwap(owner: Owners, i: nat, ind: nat)
    ensures Without(owner, i, 13, NSLOTS) - {ind} == Without(owner - {ind}, i, 13, NSLOTS)
  {
  }

  /** An inode with no blocks and no bytes. */
  function Empty(): Inode {
    Inode([0, 0, 0, 0, 0, 0, 0, 0, 0, 0, 0, 0, 0], 0)
  }

  lemma SizeOnly(bm: seq<BitBlock>, m: FileMap, reserved: set<nat>, owner: Owners, i: nat, size: nat)
    requires Owned(bm, m, reserved, owner) && i < |m.inodes|
    ensures Owned(bm, m.(inodes := m.inodes[i := m.inodes[i].(size := size)]), reserved, owner)
  {
    var m' := m.(inodes := m.inodes[i := m.inodes[i].(size := size)]);
    assert forall j, s :: SlotOk(m, j, s) ==> Addr(m', j, s) == Addr(m, j, s);
    hide Addr, Bit;
    OwnedSameSlots(bm, m, m', reserved, owner);
  }

  /** itrunc never finds a block free that it means to free.  It leaves the inode empty,
      gives back exactly that inode's blocks, and changes no other inode and no block. */
  lemma ItruncFrees(bmapstart: nat, inodestart: nat, reserved: set<nat>, v: Volume, owner: Owners, i: nat)
    requires Good(v, reserved, owner) && Wf(v.files) && i < |v.files.inodes|
    ensures var r := Itrunc(bmapstart, inodestart, v, i);
      && r.Done? && Good(r.v, reserved, Without(owner, i, 0, NSLOTS))
      && r.v.files == FileMap(v.files.inodes[i := Empty()], v.files.data)
  {
    FreeDirectOwned(bmapstart, reserved, v, owner, i, 0);
    var r := FreeDirect(bmapstart, v, i, 0);
    WithoutTwice(owner, i, 0, 12, NSLOTS);
    FreeIndirectOwned(bmapstart, reserved, r.v, Without(owner, i, 0, 12), i);
    var r2 := FreeIndirect(bmapstart, r.v, i);
    hide FreeDirect, FreeIndirect, Without, Owned;
    SizeOnly(r2.v.bitmap, r2.v.files, reserved, Without(owner, i, 0, NSLOTS), i, 0);
    AllCleared(v.files, r.v.files, i);
  }

  lemma AllCleared(m: FileMap, m1: FileMap, i: nat)
    requires Wf(m) && Wf(m1) && i < |m.inodes| && |m1.inodes| == |m.inodes| && DirectCleared(m, m1, i, 0)
    ensures var m2 := WithSlot(m1, i, 12, 0);
      m2.(inodes := m2.inodes[i := m2.inodes[i].(size := 0)]) == FileMap(m.inodes[i := Empty()], m.data)
  {
    var m2 := WithSlot(m1, i, 12, 0);
    assert m2.inodes[i].addrs == Empty().addrs;
    assert m2.inodes[i := m2.inodes[i].(size := 0)] == m.inodes[i := Empty()];
  }
}
