/** The bound of MAXOPBLOCKS blocks for one chunk of filewrite is reached: a disk with
    four bitmap blocks, one free block left in each, and a file that ends inside its
    last direct block. */
module FsTight {
  import opened Bytes
  import opened LogFormat
  import opened Bitmap
  import opened BlockMap
  import opened FileContent
  import opened FsSpec
  import opened FsFiles

  // ---- the volume

  function AllSet(): (bm: seq<BitBlock>)
    ensures |bm| == 4
  {
    seq(4, i => seq(1024, j => 0xFF))
  }

  /** Exactly the last block of each bitmap block is free. */
  function Bits(): (bm: seq<BitBlock>)
    ensures |bm| == 4
  {
    ClearBit(ClearBit(ClearBit(ClearBit(AllSet(), 8191), 16383), 24575), 32767)
  }

  lemma AllSetBit(b: nat)
    requires b < 32768
    ensures Bit(AllSet(), b)
  {
    MaskValues(b % 8);
    var m := Mask(b % 8);
    assert m == 1 || m == 2 || m == 4 || m == 8 || m == 16 || m == 32 || m == 64 || m == 128;
  }

  lemma BitsBit(b: nat)
    requires b < 32768
    ensures Bit(Bits(), b) <==> b != 8191 && b != 16383 && b != 24575 && b != 32767
  {
    hide Bit, ClearBit, AllSet;
    AllSetBit(b);
    var b1 := ClearBit(AllSet(), 8191);
    var b2 := ClearBit(b1, 16383);
    var b3 := ClearBit(b2, 24575);
    BitOfClear(AllSet(), 8191, b);
    BitOfClear(b1, 16383, b);
    BitOfClear(b2, 24575, b);
    BitOfClear(b3, 32767, b);
  }

  /** Direct blocks 1 to 12, no indirect block. */
  function Addrs(): seq<nat> {
    seq(13, s => if 0 <= s < 12 then s + 1 else 0)
  }

  function Start(): Volume {
    Volume(Bits(), FileMap([Inode(Addrs(), 11265)], seq(32768, i => Zero())), {})
  }

  /** Neither free nor a block of the file. */
  predicate IsTaken(b: nat) {
    (b == 0 || b > 12) && b != 8191 && b != 16383 && b != 24575 && b != 32767
  }

  ghost function Taken(): set<nat> {
    set b: nat | b < 32768 && IsTaken(b)
  }

  predicate IsDirect(b: nat) {
    1 <= b <= 12
  }

  ghost function StartOwners(): Owners {
    map b: nat | b < 13 && IsDirect(b) :: (0, b - 1)
  }

  lemma StartBits()
    ensures forall b :: 0 <= b < 32768 ==> (Bit(Start().bitmap, b) <==> b in Taken() || b in StartOwners())
  {
    hide Bit, Bits;
    forall b | 0 <= b < 32768 ensures Bit(Start().bitmap, b) <==> b in Taken() || b in StartOwners() {
      BitsBit(b);
    }
  }

  lemma StartOwned()
    ensures Wf(Start().files)
    ensures SlotsOwn(Start().files, StartOwners()) && OwnersNamed(Start().files, Taken(), StartOwners())
  {
    hide Bits;
    assert WfInode(Start().files.inodes[0], 32768);
    forall s | 0 <= s < NSLOTS ensures Addr(Start().files, 0, s) == if s < 12 then s + 1 else 0 {
      StartAddr(s);
    }
    hide Addr, Start, Wf;
    assert |Start().files.inodes| == 1 && |Start().files.data| == 32768;
  }

  lemma StartAddr(s: nat)
    requires s < NSLOTS
    ensures Wf(Start().files) && Addr(Start().files, 0, s) == if s < 12 then s + 1 else 0
  {
    hide Bits;
    assert WfInode(Start().files.inodes[0], 32768);
  }

  lemma StartFilled()
    ensures Filled(Start().files)
  {
    hide Bits;
    assert WfInode(Start().files.inodes[0], 32768);
    forall k | 0 <= k < 11265 ensures Held(Start().files, 0, k) {
      assert k / 1024 < 12;
    }
  }

  lemma StartGood()
    ensures Good(Start(), Taken(), StartOwners()) && Filled(Start().files) && Shaped(Start())
  {
    hide Bit, Bits, SlotsOwn, OwnersNamed, Filled, Wf;
    StartBits();
    StartOwned();
    StartFilled();
  }

  // ---- the write

  /** Blocks below `f` are in use and `f` is free. */
  ghost predicate FreeAt(v: Volume, f: nat) {
    && Shaped(v) && f < |v.files.data| && !Bit(v.bitmap, f)
    && forall b :: 0 <= b < f ==> Bit(v.bitmap, b)
  }

  lemma {:induction false} FirstFreeAt(bm: seq<BitBlock>, n: nat, b: nat, f: nat)
    requires b <= f < n <= 8192 * |bm| && !Bit(bm, f) && forall c :: b <= c < f ==> Bit(bm, c)
    ensures FirstFree(bm, n, b) == f
    decreases f - b
  {
    hide Bit;
    if b < f {
      FirstFreeAt(bm, n, b + 1, f);
    }
  }

  /** An empty slot is filled with the first free block. */
  lemma SlotFilled(bmapstart: nat, reserved: set<nat>, v: Volume, owner: Owners, i: nat, s: nat, f: nat)
    returns (owner': Owners)
    requires Good(v, reserved, owner) && Shaped(v) && SlotOk(v.files, i, s) && Addr(v.files, i, s) == 0
    requires (s > 12 ==> Addr(v.files, i, 12) != 0) && FreeAt(v, f) && f > 0
    ensures var r := UseSlot(bmapstart, v, i, s);
      && r.addr == f && Good(r.v, reserved, owner') && Shaped(r.v)
      && r.v.bitmap == SetBit(v.bitmap, f)
      && r.v.logged == v.logged + {f / 8192 + bmapstart, f} + Indirect(v.files, i, s)
      && |r.v.files.inodes| == |v.files.inodes| && |r.v.files.data| == |v.files.data|
      && forall t :: 0 <= t < NSLOTS ==> Addr(r.v.files, i, t) == if t == s then f else Addr(v.files, i, t)
  {
    FirstFreeAt(v.bitmap, |v.files.data|, 0, f);
    AllocSlotExtends(bmapstart, reserved, v, owner, i, s);
    AllocSlotLogged(bmapstart, v, i, s);
    owner' := owner[f := (i, s)];
    hide Good, FirstFree, Wf, Addr, SetBit, Bit, WithSlot, IsZero, Indirect;
    var r := AllocSlot(bmapstart, v, i, s);
    ExtendedGood(reserved, v, r.v, owner, owner', i, [s]);
    forall t | 0 <= t < NSLOTS ensures Addr(r.v.files, i, t) == if t == s then f else Addr(v.files, i, t) {
      if t != s {
        SlotsKept(reserved, v, r.v, owner, owner', i, [s], t);
      }
    }
  }

  /** Where the write stands: file 0 has indirect block `ind` (0 if none yet), no entries
      from slot `s` on, the free blocks are the last ones from bitmap block `q` on, and
      `l` is logged. */
  ghost predicate At(v: Volume, owner: Owners, ind: nat, s: nat, q: nat, l: set<nat>) {
    && Good(v, Taken(), owner) && Shaped(v) && |v.files.inodes| == 1 && |v.files.data| == 32768 && |v.bitmap| == 4
    && s <= NSLOTS && Addr(v.files, 0, 12) == ind && v.logged == l
    && (forall t :: s <= t < NSLOTS && t != 12 ==> Addr(v.files, 0, t) == 0)
    && (forall b :: 0 <= b < 32768 ==> (Bit(v.bitmap, b) <==> b % 8192 != 8191 || b / 8192 < q))
  }

  lemma FreeAtQ(v: Volume, owner: Owners, ind: nat, s: nat, q: nat, l: set<nat>)
    requires At(v, owner, ind, s, q, l) && q < 4
    ensures FreeAt(v, 8192 * q + 8191)
  {
    hide Bit, Good, Addr, Wf;
    forall b | 0 <= b < 8192 * q + 8191 ensures Bit(v.bitmap, b) {
      assert b % 8192 != 8191 || b / 8192 < q;
    }
  }

  lemma BitsAfter(bm: seq<BitBlock>, q: nat)
    requires |bm| == 4 && q < 4
    requires forall b :: 0 <= b < 32768 ==> (Bit(bm, b) <==> b % 8192 != 8191 || b / 8192 < q)
    ensures forall b :: 0 <= b < 32768 ==>
      (Bit(SetBit(bm, 8192 * q + 8191), b) <==> b % 8192 != 8191 || b / 8192 < q + 1)
  {
    var f := 8192 * q + 8191;
    hide Bit, SetBit;
    forall b | 0 <= b < 32768 ensures Bit(SetBit(bm, f), b) <==> b % 8192 != 8191 || b / 8192 < q + 1 {
      BitOfSet(bm, f, b);
      SameBlock(b, q);
    }
  }

  lemma SameBlock(b: nat, q: nat)
    ensures b == 8192 * q + 8191 <==> b % 8192 == 8191 && b / 8192 == q
  {
  }

  /** What filling a slot with the free block of bitmap block `q` adds to the log. */
  function Logs(l: set<nat>, q: nat, ind: nat): set<nat> {
    l + {q + 45, 8192 * q + 8191, ind}
  }

  lemma BitsOf(v: Volume, owner: Owners, ind: nat, s: nat, q: nat, l: set<nat>)
    requires At(v, owner, ind, s, q, l) && q < 4
    ensures FreeAt(v, 8192 * q + 8191)
    ensures forall b :: 0 <= b < 32768 ==>
      (Bit(SetBit(v.bitmap, 8192 * q + 8191), b) <==> b % 8192 != 8191 || b / 8192 < q + 1)
  {
    hide Bit, SetBit, Good, Addr, Wf;
    FreeAtQ(v, owner, ind, s, q, l);
    BitsAfter(v.bitmap, q);
  }

  /** The indirect block is allocated. */
  lemma FillIndirect(v: Volume, owner: Owners, s: nat, q: nat, l: set<nat>)
    returns (owner': Owners)
    requires At(v, owner, 0, s, q, l) && q < 4
    ensures var r := UseSlot(45, v, 0, 12);
      r.addr == 8192 * q + 8191 && At(r.v, owner', r.addr, s, q + 1, Logs(l, q, r.addr))
  {
    hide Good, Addr, Wf, Bit, SetBit, UseSlot, FreeAt;
    BitsOf(v, owner, 0, s, q, l);
    owner' := SlotFilled(45, Taken(), v, owner, 0, 12, 8192 * q + 8191);
    SameBlock(8192 * q + 8191, q);
  }

  /** An entry is allocated. */
  lemma FillEntry(v: Volume, owner: Owners, ind: nat, s: nat, q: nat, l: set<nat>)
    returns (owner': Owners)
    requires At(v, owner, ind, s, q, l) && q < 4 && 12 < s < NSLOTS && ind != 0
    ensures var r := UseSlot(45, v, 0, s);
      && r.addr == 8192 * q + 8191 && At(r.v, owner', ind, s + 1, q + 1, Logs(l, q, ind))
      && r.addr == Addr(r.v.files, 0, s)
  {
    hide Good, Addr, Wf, Bit, SetBit, UseSlot, FreeAt;
    BitsOf(v, owner, ind, s, q, l);
    owner' := SlotFilled(45, Taken(), v, owner, 0, s, 8192 * q + 8191);
    SameBlock(8192 * q + 8191, q);
  }

  /** Writing into the block that bmap returned logs that block and moves no slot. */
  lemma PieceAfter(r: Found, owner: Owners, ind: nat, s: nat, q: nat, l: set<nat>, src: seq<Byte>, tot: nat)
    requires At(r.v, owner, ind, s, q, l) && |src| == 3072 && tot < 3072
    requires r.addr == Addr(r.v.files, 0, Slot((11265 + tot) / 1024)) && r.addr != 0
    ensures r.addr < |r.v.files.data| && At(WritePiece(r, 11265, src, tot), owner, ind, s, q, l + {r.addr})
  {
    WritePieceGood(Taken(), r, owner, 0, 11265, src, tot);
    hide Good, Addr, Wf, Bit, Overwrite;
    var w := WritePiece(r, 11265, src, tot);
    assert SlotOk(r.v.files, 0, 12);
    forall t | s <= t < NSLOTS && t != 12 ensures Addr(w.files, 0, t) == 0 {
      assert SlotOk(r.v.files, 0, t);
    }
  }

  lemma LoopStep(v: Volume, src: seq<Byte>, tot: nat, m: nat)
    requires Shaped(v) && |v.files.inodes| == 1 && |src| == 3072 && tot < 3072 && m == Piece(11265 + tot, 3072 - tot)
    ensures var r := Bmap(45, v, 0, (11265 + tot) / 1024);
      0 < r.addr < |r.v.files.data| ==>
        WriteLoop(45, v, 0, 11265, src, tot) == WriteLoop(45, WritePiece(r, 11265, src, tot), 0, 11265, src, tot + m)
  {
    hide Bmap, WritePiece, Shaped;
  }

  lemma BmapEntry(v: Volume, bn: nat)
    requires Shaped(v) && |v.files.inodes| == 1 && 12 <= bn < MAXFILE
    ensures var w := UseSlot(45, v, 0, 12);
      && (w.addr != 0 ==> Bmap(45, v, 0, bn) == UseSlot(45, w.v, 0, bn + 1))
      && (Addr(v.files, 0, 12) != 0 ==> w == Found(v, Addr(v.files, 0, 12)))
  {
  }

  ghost predicate Shape1(v: Volume) {
    Shaped(v) && |v.files.inodes| == 1 && Wf(v.files)
  }

  lemma AtShape(v: Volume, owner: Owners, ind: nat, s: nat, q: nat, l: set<nat>)
    requires At(v, owner, ind, s, q, l)
    ensures Shape1(v) && Addr(v.files, 0, 12) == ind && v.logged == l
  {
  }

  /** One turn that finds the indirect block and fills one entry. */
  lemma EntryTurn(v: Volume, w: Volume, owner: Owners, ind: nat, bn: nat, q: nat, l: set<nat>, src: seq<Byte>, tot: nat,
                  m: nat)
    returns (v': Volume, owner': Owners)
    requires At(w, owner, ind, bn + 1, q, l) && 12 <= bn < 15 && q < 4 && ind != 0
    requires |src| == 3072 && tot < 3072 && bn == (11265 + tot) / 1024 && m == Piece(11265 + tot, 3072 - tot)
    requires Shape1(v) && Bmap(45, v, 0, bn) == UseSlot(45, w, 0, bn + 1)
    ensures At(v', owner', ind, bn + 2, q + 1, Logs(l, q, ind))
    ensures Shape1(v') && WriteLoop(45, v, 0, 11265, src, tot) == WriteLoop(45, v', 0, 11265, src, tot + m)
  {
    hide At, Wf, UseSlot, WritePiece, WriteLoop, Addr, Bmap, Shaped, Piece;
    owner' := FillEntry(w, owner, ind, bn + 1, q, l);
    var r := Bmap(45, v, 0, bn);
    PieceAfter(r, owner', ind, bn + 2, q + 1, Logs(l, q, ind), src, tot);
    v' := WritePiece(r, 11265, src, tot);
    assert Logs(l, q, ind) + {r.addr} == Logs(l, q, ind);
    LoopStep(v, src, tot, m);
    AtShape(v', owner', ind, bn + 2, q + 1, Logs(l, q, ind));
  }

  /** The first turn writes the rest of the last direct block. */
  lemma FirstTurn(src: seq<Byte>)
    returns (v': Volume)
    requires |src| == 3072
    ensures At(v', StartOwners(), 0, 13, 0, {12})
    ensures Shaped(Start()) && WriteLoop(45, Start(), 0, 11265, src, 0) == WriteLoop(45, v', 0, 11265, src, 1023)
  {
    var v := Start();
    StartGood();
    StartAt();
    hide Good, Filled, Bits, WriteLoop, WritePiece;
    assert Bmap(45, v, 0, 11) == Found(v, 12);
    hide At, Addr;
    PieceAfter(Found(v, 12), StartOwners(), 0, 13, 0, {}, src, 0);
    assert {} + {12} == {12};
    v' := WritePiece(Found(v, 12), 11265, src, 0);
    LoopStep(v, src, 0, 1023);
  }

  lemma StartAt()
    ensures At(Start(), StartOwners(), 0, 13, 0, {})
  {
    StartGood();
    hide Good, Bit, Bits, Filled;
    forall b | 0 <= b < 32768 ensures Bit(Start().bitmap, b) <==> b % 8192 != 8191 {
      BitsBit(b);
    }
  }

  /** The write logs ten blocks: the old block, four new ones, the indirect block among
      them, their four bitmap blocks, and the inode's block. */
  lemma TenBlocks(src: seq<Byte>)
    requires |src| == 3072
    ensures Good(Start(), Taken(), StartOwners()) && Filled(Start().files) && Shaped(Start()) && Start().logged == {}
    ensures var r := Writei(45, 32, Start(), 0, 11265, src);
      r.ret == 3072 && |r.v.logged| == MAXOPBLOCKS
  {
    hide At, Wf, UseSlot, WritePiece, WriteLoop, Addr, Bmap, Shaped, Good, Filled, Bits, Taken, StartOwners, Shape1,
      Logs, Writei;
    StartGood();
    var v1 := FirstTurn(src);
    AtShape(v1, StartOwners(), 0, 13, 0, {12});
    BmapEntry(v1, 12);
    var o := FillIndirect(v1, StartOwners(), 13, 0, {12});
    assert LogsTo(1) == Logs({12}, 0, 8191);
    var v2, o2 := EntryTurn(v1, UseSlot(45, v1, 0, 12).v, o, 8191, 12, 1, LogsTo(1), src, 1023, 1024);
    AtShape(v2, o2, 8191, 14, 2, LogsTo(2));
    BmapEntry(v2, 13);
    var v3, o3 := EntryTurn(v2, v2, o2, 8191, 13, 2, LogsTo(2), src, 2047, 1024);
    AtShape(v3, o3, 8191, 15, 3, LogsTo(3));
    BmapEntry(v3, 14);
    var v4, o4 := EntryTurn(v3, v3, o3, 8191, 14, 3, LogsTo(3), src, 3071, 1);
    AtShape(v4, o4, 8191, 16, 4, LogsTo(4));
    LoopDone(v4, src);
    WriteiIs(src, v4);
    CountLogs(4);
  }

  lemma CountMore(l: set<nat>, q: nat, ind: nat)
    requires q + 45 !in l && 8192 * q + 8191 !in l && q < 4 && (ind in l || ind == 8192 * q + 8191)
    ensures |Logs(l, q, ind)| == |l| + 2
  {
    var l1 := l + {q + 45};
    assert |l1| == |l| + 1;
    assert Logs(l, q, ind) == l1 + {8192 * q + 8191};
  }

  /** The log after `q` allocations. */
  function LogsTo(q: nat): set<nat> {
    if q == 0 then {12} else Logs(LogsTo(q - 1), q - 1, 8191)
  }

  lemma {:induction false} CountLogs(q: nat)
    requires q <= 4
    ensures |LogsTo(q)| == 1 + 2 * q && (q > 0 ==> 8191 in LogsTo(q))
    ensures forall x :: x in LogsTo(q) ==> x == 12 || 45 <= x < 45 + q || 8191 <= x < 8192 * q
  {
    if q > 0 {
      CountLogs(q - 1);
      CountMore(LogsTo(q - 1), q - 1, 8191);
    }
  }

  lemma LoopDone(v: Volume, src: seq<Byte>)
    requires Shape1(v) && |src| == 3072
    ensures WriteLoop(45, v, 0, 11265, src, 3072) == Written(v, 3072)
  {
  }

  lemma WriteiIs(src: seq<Byte>, v: Volume)
    requires |src| == 3072 && Shaped(Start()) && WriteLoop(45, Start(), 0, 11265, src, 0) == Written(v, 3072)
    ensures var r := Writei(45, 32, Start(), 0, 11265, src); r.ret == 3072 && r.v.logged == v.logged + {32}
  {
    hide WriteLoop, Bits;
  }
}
