/** How inodes name their blocks (kernel/fs.c): twelve direct slots, one slot for an
    indirect block, and the entries of that block.  Ownership says that the bitmap
    marks exactly the blocks that one and only one of these slots names. */
module BlockMap {
  import opened Bytes
  import opened LogFormat
  import opened Bitmap

  const NDIRECT := 12
  const NINDIRECT := 256
  const MAXFILE := 268

  /** The slots of an inode: 0..11 are direct, 12 is the indirect pointer, and
      13..268 are the entries of the indirect block. */
  const NSLOTS := 269

  datatype Inode = Inode(addrs: seq<nat>, size: nat)

  datatype FileMap = FileMap(inodes: seq<Inode>, data: seq<Block>)

  predicate Wf(m: FileMap) {
    && |m.data| <= 0x1_0000_0000
    && forall i :: 0 <= i < |m.inodes| ==> WfInode(m.inodes[i], |m.data|)
  }

  predicate WfInode(ip: Inode, n: nat) {
    |ip.addrs| == 13 && forall s :: 0 <= s < 13 ==> ip.addrs[s] < n
  }

  predicate SlotOk(m: FileMap, i: int, s: int) {
    0 <= i < |m.inodes| && 0 <= s < NSLOTS
  }

  /** The slot that file block `bn` uses. */
  function Slot(bn: nat): (s: nat)
    ensures s != 12
  {
    if bn < 12 then bn else bn + 1
  }

  /** The block that a slot names, or 0. */
  function Addr(m: FileMap, i: nat, s: nat): nat
    requires Wf(m) && SlotOk(m, i, s)
  {
    var a := m.inodes[i].addrs;
    if s <= 12 then a[s]
    else if a[12] == 0 then 0
    else Word(m.data[a[12]], 4 * (s - 13), 4)
  }

  /** The slot given a new value, in the inode or in its indirect block. */
  function WithSlot(m: FileMap, i: nat, s: nat, v: nat): FileMap
    requires Wf(m) && SlotOk(m, i, s)
  {
    var ip := m.inodes[i];
    if s <= 12 then m.(inodes := m.inodes[i := ip.(addrs := ip.addrs[s := v])])
    else
      var ind := ip.addrs[12];
      m.(data := m.data[ind := PutWord(m.data[ind], 4 * (s - 13), 4, v)])
  }

  /** Block contents changed, inodes as they were. */
  function WithBlock(m: FileMap, b: nat, x: Block): FileMap
    requires b < |m.data|
  {
    m.(data := m.data[b := x])
  }

  predicate IsZero(b: Block) {
    forall k :: 0 <= k < BSIZE ==> b[k] == 0
  }

  // ---- ownership

  /** `owner` tells for each block in use which slot of which inode names it. */
  type Owners = map<nat, (nat, nat)>

  ghost predicate SlotsOwn(m: FileMap, owner: Owners)
    requires Wf(m)
  {
    forall i, s :: SlotOk(m, i, s) ==>
      Addr(m, i, s) == 0 || (Addr(m, i, s) in owner && owner[Addr(m, i, s)] == (i, s))
  }

  ghost predicate OwnersNamed(m: FileMap, reserved: set<nat>, owner: Owners)
    requires Wf(m)
  {
    forall b :: b in owner ==>
      && 0 < b < |m.data| && b !in reserved
      && SlotOk(m, owner[b].0, owner[b].1) && Addr(m, owner[b].0, owner[b].1) == b
  }

  ghost predicate BitsTell(bm: seq<BitBlock>, n: nat, reserved: set<nat>, owner: Owners) {
    && n <= 8192 * |bm|
    && forall b :: 0 <= b < n ==> (Bit(bm, b) <==> b in reserved || b in owner)
  }

  /** The whole ownership invariant.  `reserved` are the blocks that hold no file data:
      boot block, superblock, log, inodes and bitmap. */
  ghost predicate Owned(bm: seq<BitBlock>, m: FileMap, reserved: set<nat>, owner: Owners) {
    && Wf(m) && 0 in reserved
    && SlotsOwn(m, owner) && OwnersNamed(m, reserved, owner)
    && BitsTell(bm, |m.data|, reserved, owner)
  }

  /** A block's bit is set exactly when it is reserved or some slot names it, and no
      two slots name the same block. */
  lemma OwnershipMeans(bm: seq<BitBlock>, m: FileMap, reserved: set<nat>, owner: Owners)
    requires Owned(bm, m, reserved, owner)
    ensures forall b :: 0 <= b < |m.data| && b !in reserved ==>
      (Bit(bm, b) <==> exists i, s :: SlotOk(m, i, s) && Addr(m, i, s) == b)
    ensures forall i, s, j, t | SlotOk(m, i, s) && SlotOk(m, j, t) ::
      Addr(m, i, s) == Addr(m, j, t) != 0 ==> i == j && s == t
  {
    forall b | 0 <= b < |m.data| && b !in reserved && Bit(bm, b)
      ensures exists i, s :: SlotOk(m, i, s) && Addr(m, i, s) == b
    {
      assert b in owner;
      assert SlotOk(m, owner[b].0, owner[b].1) && Addr(m, owner[b].0, owner[b].1) == b;
    }
  }

  // ---- what a change does to the slots

  /** Writing a block that is nobody's indirect block moves no slot. */
  lemma BlockWriteKeepsSlots(m: FileMap, b: nat, x: Block)
    requires Wf(m) && b < |m.data|
    requires forall i :: 0 <= i < |m.inodes| ==> m.inodes[i].addrs[12] != b || b == 0
    ensures Wf(WithBlock(m, b, x))
    ensures forall i, s :: SlotOk(m, i, s) ==> Addr(WithBlock(m, b, x), i, s) == Addr(m, i, s)
  {
  }

  lemma ZeroWord(b: Block, j: nat)
    requires IsZero(b) && j < NINDIRECT
    ensures Word(b, 4 * j, 4) == 0
  {
    DecodeZero(b[4 * j..4 * j + 4]);
  }

  /** Giving a direct slot a value changes that slot only. */
  lemma DirectSlotSet(m: FileMap, i: nat, s: nat, v: nat)
    requires Wf(m) && SlotOk(m, i, s) && s < 12 && v < |m.data|
    ensures Wf(WithSlot(m, i, s, v))
    ensures forall j, t :: SlotOk(m, j, t) ==>
      Addr(WithSlot(m, i, s, v), j, t) == if (j, t) == (i, s) then v else Addr(m, j, t)
  {
  }

  /** Giving the indirect slot an all-zero block, or taking one away whose entries are
      all zero, changes that slot only. */
  lemma IndirectSlotSet(m: FileMap, i: nat, v: nat)
    requires Wf(m) && 0 <= i < |m.inodes| && v < |m.data|
    requires forall s :: 13 <= s < NSLOTS ==> Addr(m, i, s) == 0
    requires v == 0 || IsZero(m.data[v])
    ensures Wf(WithSlot(m, i, 12, v))
    ensures forall j, t :: SlotOk(m, j, t) ==>
      Addr(WithSlot(m, i, 12, v), j, t) == if (j, t) == (i, 12) then v else Addr(m, j, t)
  {
    var m' := WithSlot(m, i, 12, v);
    forall j, t | SlotOk(m, j, t)
      ensures Addr(m', j, t) == if (j, t) == (i, 12) then v else Addr(m, j, t)
    {
      if j == i && t > 12 && v != 0 {
        ZeroWord(m.data[v], t - 13);
      }
    }
  }

  /** Giving an entry of the indirect block a value changes that slot only, because no
      other inode has the same indirect block. */
  lemma EntrySlotSet(m: FileMap, i: nat, s: nat, v: nat)
    requires Wf(m) && SlotOk(m, i, s) && s > 12 && v < 0x1_0000_0000
    requires m.inodes[i].addrs[12] != 0
    requires forall j :: 0 <= j < |m.inodes| && j != i ==> m.inodes[j].addrs[12] != m.inodes[i].addrs[12]
    ensures Wf(WithSlot(m, i, s, v))
    ensures forall j, t :: SlotOk(m, j, t) ==>
      Addr(WithSlot(m, i, s, v), j, t) == if (j, t) == (i, s) then v else Addr(m, j, t)
  {
    var m' := WithSlot(m, i, s, v);
    var ind := m.inodes[i].addrs[12];
    Pow256Of4();
    WordOfPut(m.data[ind], 4 * (s - 13), 4, v);
    forall j, t | SlotOk(m, j, t)
      ensures Addr(m', j, t) == if (j, t) == (i, s) then v else Addr(m, j, t)
    {
      if j == i && t > 12 && t != s {
        WordElsewhere(m.data[ind], 4 * (s - 13), 4, v, 4 * (t - 13), 4);
      }
    }
  }

  // ---- ownership is kept

  /** `m'` differs from `m` in no slot but the given one, which holds `v`. */
  ghost predicate OnlySlot(m: FileMap, m': FileMap, i: nat, s: nat, v: nat)
    requires Wf(m) && Wf(m')
  {
    && |m'.inodes| == |m.inodes| && |m'.data| == |m.data|
    && forall j, t :: SlotOk(m, j, t) ==> Addr(m', j, t) == if (j, t) == (i, s) then v else Addr(m, j, t)
  }

  /** balloc: a free block is marked and zeroed, and for now only held in reserve. */
  lemma AllocOwned(bm: seq<BitBlock>, m: FileMap, reserved: set<nat>, owner: Owners, b: nat, z: Block)
    requires Owned(bm, m, reserved, owner) && b < |m.data| && !Bit(bm, b)
    ensures b != 0 && b !in reserved && b !in owner
    ensures Owned(SetBit(bm, b), WithBlock(m, b, z), reserved + {b}, owner)
    ensures forall i, s :: SlotOk(m, i, s) ==> Addr(WithBlock(m, b, z), i, s) == Addr(m, i, s)
  {
    forall i | 0 <= i < |m.inodes| ensures m.inodes[i].addrs[12] != b {
      assert SlotOk(m, i, 12) && Addr(m, i, 12) == m.inodes[i].addrs[12];
    }
    BlockWriteKeepsSlots(m, b, z);
    forall c | 0 <= c < |m.data| ensures Bit(SetBit(bm, b), c) <==> c in reserved + {b} || c in owner {
      BitOfSet(bm, b, c);
    }
  }

  /** A held block is given to an empty slot. */
  lemma SetSlotOwned(bm: seq<BitBlock>, m: FileMap, m': FileMap, reserved: set<nat>, owner: Owners,
                     i: nat, s: nat, b: nat)
    requires Owned(bm, m, reserved + {b}, owner) && b !in reserved && 0 in reserved && b < |m.data|
    requires SlotOk(m, i, s) && Addr(m, i, s) == 0
    requires Wf(m') && OnlySlot(m, m', i, s, b)
    ensures Owned(bm, m', reserved, owner[b := (i, s)])
  {
    hide Addr;
    var owner' := owner[b := (i, s)];
    assert b !in owner;
    forall c | c in owner'
      ensures && 0 < c < |m'.data| && c !in reserved
        && SlotOk(m', owner'[c].0, owner'[c].1) && Addr(m', owner'[c].0, owner'[c].1) == c
    {
      assert c != b ==> Addr(m, owner[c].0, owner[c].1) == c;
    }
  }

  /** A slot's block is freed and the slot cleared. */
  lemma ClearSlotOwned(bm: seq<BitBlock>, m: FileMap, m': FileMap, reserved: set<nat>, owner: Owners,
                       i: nat, s: nat)
    requires Owned(bm, m, reserved, owner) && SlotOk(m, i, s) && Addr(m, i, s) != 0
    requires Wf(m') && OnlySlot(m, m', i, s, 0)
    ensures var a := Addr(m, i, s);
      a < |m.data| && Bit(bm, a) && Owned(ClearBit(bm, a), m', reserved, owner - {a})
  {
    hide Addr;
    var a := Addr(m, i, s);
    var owner' := owner - {a};
    forall c | c in owner'
      ensures && 0 < c < |m'.data| && c !in reserved
        && SlotOk(m', owner'[c].0, owner'[c].1) && Addr(m', owner'[c].0, owner'[c].1) == c
    {
      assert Addr(m, owner[c].0, owner[c].1) == c;
    }
    forall c | 0 <= c < |m.data| ensures Bit(ClearBit(bm, a), c) <==> c in reserved || c in owner' {
      BitOfClear(bm, a, c);
    }
  }

  /** Writing a block of file data leaves ownership alone. */
  lemma DataWriteOwned(bm: seq<BitBlock>, m: FileMap, reserved: set<nat>, owner: Owners, b: nat, x: Block)
    requires Owned(bm, m, reserved, owner) && b in owner && owner[b].1 != 12
    ensures Owned(bm, WithBlock(m, b, x), reserved, owner)
    ensures forall i, s :: SlotOk(m, i, s) ==> Addr(WithBlock(m, b, x), i, s) == Addr(m, i, s)
  {
    forall i | 0 <= i < |m.inodes| ensures m.inodes[i].addrs[12] != b {
      assert SlotOk(m, i, 12) && Addr(m, i, 12) == m.inodes[i].addrs[12];
    }
    BlockWriteKeepsSlots(m, b, x);
    hide Addr;
    var m' := WithBlock(m, b, x);
    forall c | c in owner ensures Addr(m', owner[c].0, owner[c].1) == c {
      assert SlotOk(m, owner[c].0, owner[c].1);
    }
  }

  /** The blocks that hold file data are as they were. */
  ghost predicate SameData(m: FileMap, m': FileMap, owner: Owners) {
    && |m'.data| == |m.data|
    && forall b :: b in owner && owner[b].1 != 12 && b < |m.data| ==> m'.data[b] == m.data[b]
  }

  lemma IndirectBlocksDiffer(bm: seq<BitBlock>, m: FileMap, reserved: set<nat>, owner: Owners, i: nat)
    requires Owned(bm, m, reserved, owner) && i < |m.inodes| && m.inodes[i].addrs[12] != 0
    ensures m.inodes[i].addrs[12] in owner && owner[m.inodes[i].addrs[12]] == (i, 12)
    ensures forall j :: 0 <= j < |m.inodes| && j != i ==> m.inodes[j].addrs[12] != m.inodes[i].addrs[12]
  {
    assert SlotOk(m, i, 12);
    forall j | 0 <= j < |m.inodes| && j != i ensures m.inodes[j].addrs[12] != m.inodes[i].addrs[12] {
      assert SlotOk(m, j, 12) && Addr(m, j, 12) == m.inodes[j].addrs[12];
    }
  }

  /** A slot set on a map whose indirect blocks differ changes that slot only. */
  lemma SlotSet(m: FileMap, i: nat, s: nat, v: nat)
    requires Wf(m) && SlotOk(m, i, s) && v < |m.data|
    requires s == 12 ==> (v == 0 || IsZero(m.data[v])) && forall t :: 13 <= t < NSLOTS ==> Addr(m, i, t) == 0
    requires s > 12 ==> m.inodes[i].addrs[12] != 0
    requires s > 12 ==> forall j :: 0 <= j < |m.inodes| && j != i ==> m.inodes[j].addrs[12] != m.inodes[i].addrs[12]
    ensures Wf(WithSlot(m, i, s, v)) && OnlySlot(m, WithSlot(m, i, s, v), i, s, v)
  {
    if s < 12 {
      DirectSlotSet(m, i, s, v);
    } else if s == 12 {
      IndirectSlotSet(m, i, v);
    } else {
      EntrySlotSet(m, i, s, v);
    }
  }

  /** Only the new block and the indirect block change their contents. */
  lemma AllocSlotData(bm: seq<BitBlock>, m: FileMap, reserved: set<nat>, owner: Owners,
                      i: nat, s: nat, b: nat, z: Block)
    requires Owned(bm, m, reserved, owner) && b < |m.data| && b !in owner && b != 0
    requires SlotOk(m, i, s) && (s > 12 ==> m.inodes[i].addrs[12] != 0) && Wf(WithBlock(m, b, z))
    ensures var m' := WithSlot(WithBlock(m, b, z), i, s, b); SameData(m, m', owner) && m'.data[b] == z
  {
    hide Bit, Addr, PutWord, BitsTell, SlotsOwn, OwnersNamed;
    if s > 12 {
      IndirectBlocksDiffer(bm, m, reserved, owner, i);
    }
  }

  /** balloc followed by storing the new block in an empty slot: bmap's three cases. */
  lemma AllocSlotOwned(bm: seq<BitBlock>, m: FileMap, reserved: set<nat>, owner: Owners,
                       i: nat, s: nat, b: nat, z: Block)
    requires Owned(bm, m, reserved, owner) && b < |m.data| && !Bit(bm, b) && IsZero(z)
    requires SlotOk(m, i, s) && Addr(m, i, s) == 0 && (s > 12 ==> m.inodes[i].addrs[12] != 0)
    ensures b != 0 && b !in owner && Wf(WithBlock(m, b, z))
    ensures var m' := WithSlot(WithBlock(m, b, z), i, s, b);
      && Owned(SetBit(bm, b), m', reserved, owner[b := (i, s)])
      && OnlySlot(m, m', i, s, b) && SameData(m, m', owner) && m'.data[b] == z
  {
    var m1 := WithBlock(m, b, z);
    AllocOwned(bm, m, reserved, owner, b, z);
    AllocSlotData(bm, m, reserved, owner, i, s, b, z);
    if s > 12 {
      IndirectBlocksDiffer(bm, m, reserved, owner, i);
    } else if s == 12 {
      assert forall t :: 13 <= t < NSLOTS ==> Addr(m, i, t) == 0;
    }
    assert Covers(bm, b);
    hide Bit, Addr, PutWord, BitsTell, SlotsOwn, OwnersNamed, SameData;
    SlotSet(m1, i, s, b);
    SetSlotOwned(SetBit(bm, b), m1, WithSlot(m1, i, s, b), reserved, owner, i, s, b);
  }
}
