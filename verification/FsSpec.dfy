/** The block layer of kernel/fs.c as functions of the volume: balloc, bmap and the
    loops of readi and writei.  The methods of module Fs compute exactly these; what
    they mean for ownership and for the log is proved here. */
module FsSpec {
  import opened Bytes
  import opened LogFormat
  import opened Bitmap
  import opened BlockMap
  import opened FileContent

  /** The bitmap, the inodes and blocks that bread returns, and the block numbers that
      were passed to log_write. */
  datatype Volume = Volume(bitmap: seq<BitBlock>, files: FileMap, logged: set<nat>)

  datatype Found = Found(v: Volume, addr: nat)

  function Zero(): (b: Block)
    ensures IsZero(b)
  {
    seq(BSIZE, i => 0)
  }

  // ---- the routines

  /** The first block from `b` on whose bit is clear, or 0. */
  function FirstFree(bm: seq<BitBlock>, n: nat, b: nat): (a: nat)
    requires n <= 8192 * |bm|
    ensures a == 0 || (b <= a < n && !Bit(bm, a))
    decreases n - b
  {
    if b >= n then 0 else if !Bit(bm, b) then b else FirstFree(bm, n, b + 1)
  }

  predicate Shaped(v: Volume) {
    |v.files.data| <= 8192 * |v.bitmap| && Wf(v.files)
  }

  /** The same number of blocks and inodes, and the same file sizes. */
  predicate SameShape(v: Volume, v': Volume) {
    && Shaped(v')
    && |v'.files.data| == |v.files.data| && |v'.files.inodes| == |v.files.inodes|
    && forall j :: 0 <= j < |v.files.inodes| ==> v'.files.inodes[j].size == v.files.inodes[j].size
  }

  /** balloc: mark the first free block in use and zero it; log the bitmap block and
      the new block. */
  function Balloc(bmapstart: nat, v: Volume): (r: Found)
    requires Shaped(v)
    ensures SameShape(v, r.v) && r.v.files.inodes == v.files.inodes
    ensures if r.addr == 0 then r.v == v else r.addr < |v.files.data|
  {
    var a := FirstFree(v.bitmap, |v.files.data|, 0);
    if a == 0 then Found(v, 0)
    else Found(Volume(SetBit(v.bitmap, a), WithBlock(v.files, a, Zero()),
                      v.logged + {a / 8192 + bmapstart, a}), a)
  }

  /** Allocate a block and store it in a slot; log the indirect block if the slot is one
      of its entries. */
  function AllocSlot(bmapstart: nat, v: Volume, i: nat, s: nat): (r: Found)
    requires Shaped(v) && SlotOk(v.files, i, s)
    ensures SameShape(v, r.v)
  {
    var r := Balloc(bmapstart, v);
    if r.addr == 0 then Found(v, 0)
    else
      var l := if s > 12 then r.v.logged + {v.files.inodes[i].addrs[12]} else r.v.logged;
      Found(r.v.(files := WithSlot(r.v.files, i, s, r.addr), logged := l), r.addr)
  }

  /** The block in a slot, allocated if the slot is empty. */
  function UseSlot(bmapstart: nat, v: Volume, i: nat, s: nat): (r: Found)
    requires Shaped(v) && SlotOk(v.files, i, s)
    ensures SameShape(v, r.v)
  {
    if Addr(v.files, i, s) != 0 then Found(v, Addr(v.files, i, s)) else AllocSlot(bmapstart, v, i, s)
  }

  /** bmap: the block of file block `bn`, allocated if there is none yet; 0 if the disk
      is full, in which case a new indirect block may stay behind. */
  function Bmap(bmapstart: nat, v: Volume, i: nat, bn: nat): (r: Found)
    requires Shaped(v) && i < |v.files.inodes| && bn < MAXFILE
    ensures SameShape(v, r.v)
  {
    if bn < NDIRECT then UseSlot(bmapstart, v, i, bn)
    else
      var w := UseSlot(bmapstart, v, i, 12);
      if w.addr == 0 then w else UseSlot(bmapstart, w.v, i, bn + 1)
  }

  /** A block with `x` written at byte `o`. */
  function Overwrite(b: Block, o: nat, x: seq<Byte>): Block
    requires o + |x| <= BSIZE
  {
    b[..o] + x + b[o + |x|..]
  }

  datatype Written = Written(v: Volume, tot: nat)

  function Min(a: int, b: int): int {
    if a < b then a else b
  }

  /** The length of the piece that readi and writei handle at offset `off` with `left`
      bytes to go. */
  function Piece(off: nat, left: nat): (m: nat)
    ensures m <= left && off % 1024 + m <= 1024 && (left > 0 ==> m > 0)
    ensures m == left || off % 1024 + m == 1024
  {
    Min(left, 1024 - off % 1024)
  }

  /** One turn of writei's loop with the block number that bmap returned: overwrite a
      piece of the block and log it. */
  function WritePiece(r: Found, off: nat, src: seq<Byte>, tot: nat): (v: Volume)
    requires Shaped(r.v) && tot < |src| && r.addr < |r.v.files.data|
    ensures SameShape(r.v, v)
  {
    var m := Piece(off + tot, |src| - tot);
    r.v.(files := WithBlock(r.v.files, r.addr,
                            Overwrite(r.v.files.data[r.addr], (off + tot) % 1024, src[tot..tot + m])),
         logged := r.v.logged + {r.addr})
  }

  /** The loop of writei from byte `tot` of the source on; it stops early when bmap finds
      no block. */
  function WriteLoop(bmapstart: nat, v: Volume, i: nat, off: nat, src: seq<Byte>, tot: nat): (w: Written)
    requires Shaped(v) && i < |v.files.inodes| && off + |src| <= 274432 && tot <= |src|
    ensures SameShape(v, w.v) && tot <= w.tot <= |src|
    decreases |src| - tot
  {
    if tot == |src| then Written(v, tot)
    else
      var r := Bmap(bmapstart, v, i, (off + tot) / 1024);
      if r.addr == 0 || r.addr >= |r.v.files.data| then Written(r.v, tot)
      else
        WriteLoop(bmapstart, WritePiece(r, off, src, tot), i, off, src, tot + Piece(off + tot, |src| - tot))
  }

  // ---- what they do to ownership

  ghost predicate Good(v: Volume, reserved: set<nat>, owner: Owners) {
    Owned(v.bitmap, v.files, reserved, owner)
  }

  ghost predicate Full(v: Volume) {
    |v.files.data| <= 8192 * |v.bitmap| && forall b :: 0 <= b < |v.files.data| ==> Bit(v.bitmap, b)
  }

  ghost predicate Slots(added: seq<nat>) {
    forall k :: 0 <= k < |added| ==> added[k] < NSLOTS
  }

  ghost predicate BlockZero(m: FileMap, i: nat, s: nat)
    requires Wf(m) && SlotOk(m, i, s)
  {
    Addr(m, i, s) < |m.data| && IsZero(m.data[Addr(m, i, s)])
  }

  /** From `v` to `v'`, inode `i` got new, zeroed blocks in the slots `added`. */
  ghost predicate Extended(reserved: set<nat>, v: Volume, v': Volume, owner: Owners, owner': Owners,
                           i: nat, added: seq<nat>)
  {
    && Good(v, reserved, owner) && Good(v', reserved, owner') && OwnersGrown(owner, owner')
    && i < |v.files.inodes| && Slots(added)
    && Grown(v.files, v'.files, owner, i, added)
    && forall k :: 0 <= k < |added| && added[k] != 12 ==> BlockZero(v'.files, i, added[k])
  }

  lemma GoodShaped(v: Volume, reserved: set<nat>, owner: Owners)
    requires Good(v, reserved, owner)
    ensures Shaped(v)
  {
  }

  /** balloc finds a free block whenever there is one, and it is never block 0. */
  lemma {:induction false} FirstFreeFinds(bm: seq<BitBlock>, n: nat, b: nat)
    requires n <= 8192 * |bm| && (n > 0 ==> Bit(bm, 0))
    ensures FirstFree(bm, n, b) == 0 ==> forall c :: b <= c < n ==> Bit(bm, c)
    ensures FirstFree(bm, n, b) != 0 ==> forall c :: b <= c < FirstFree(bm, n, b) ==> Bit(bm, c)
    decreases n - b
  {
    if b < n && Bit(bm, b) {
      FirstFreeFinds(bm, n, b + 1);
    }
  }

  lemma ExtendedNone(reserved: set<nat>, v: Volume, owner: Owners, i: nat)
    requires Good(v, reserved, owner) && i < |v.files.inodes|
    ensures Extended(reserved, v, v, owner, owner, i, [])
  {
    assert Wf(v.files);
    hide Owned, Addr, Grown, OwnersGrown;
    GrownNone(v.files, owner, i);
    OwnersGrownOne(owner, 0, (0, 0));
  }

  /** A new block that stays in place, contents and all. */
  lemma NewBlockKept(reserved: set<nat>, v: Volume, v': Volume, owner: Owners, owner': Owners,
                     i: nat, f: seq<nat>, s: nat)
    requires Extended(reserved, v, v', owner, owner', i, f) && SlotOk(v.files, i, s) && s !in f
    requires BlockZero(v.files, i, s) && Addr(v.files, i, s) != 0 && s != 12
    ensures BlockZero(v'.files, i, s)
  {
    hide Addr, Bit, IsZero;
    var a := Addr(v.files, i, s);
    assert a in owner && owner[a] == (i, s);
  }

  lemma ExtendedTwice(reserved: set<nat>, v: Volume, w: Volume, v': Volume,
                      o: Owners, o1: Owners, o2: Owners, i: nat, f: seq<nat>, f': seq<nat>)
    requires Extended(reserved, v, w, o, o1, i, f) && Extended(reserved, w, v', o1, o2, i, f')
    ensures Extended(reserved, v, v', o, o2, i, f + f')
  {
    GrownTwice(v.files, w.files, v'.files, o, o1, i, f, f');
    OwnersGrownTwice(o, o1, o2);
    forall k | 0 <= k < |f + f'| && (f + f')[k] != 12 ensures BlockZero(v'.files, i, (f + f')[k]) {
      if k < |f| {
        NewBlockKept(reserved, w, v', o1, o2, i, f', f[k]);
      }
    }
  }

  lemma AllocSlotExtends(bmapstart: nat, reserved: set<nat>, v: Volume, owner: Owners, i: nat, s: nat)
    requires Good(v, reserved, owner) && SlotOk(v.files, i, s) && Addr(v.files, i, s) == 0 && Shaped(v)
    requires s > 12 ==> Addr(v.files, i, 12) != 0
    ensures var r := AllocSlot(bmapstart, v, i, s);
      && (r.addr == 0 ==> r.v == v && Full(v))
      && (r.addr != 0 ==>
            && Extended(reserved, v, r.v, owner, owner[r.addr := (i, s)], i, [s])
            && Addr(r.v.files, i, s) == r.addr)
  {
    hide FirstFree, Owned, Wf, Addr, Grown, OwnersGrown, WithSlot, IsZero, Bit, SetBit, SameShape;
    AllRoom(v, reserved, owner);
    FirstFreeFinds(v.bitmap, |v.files.data|, 0);
    var b := FirstFree(v.bitmap, |v.files.data|, 0);
    IndirectAddr(v.files, i);
    if b != 0 {
      AllocSlotGrown(v.bitmap, v.files, reserved, owner, i, s, b, Zero());
      OwnersGrownOne(owner, b, (i, s));
    }
  }

  lemma IndirectAddr(m: FileMap, i: nat)
    requires Wf(m) && i < |m.inodes|
    ensures |m.inodes[i].addrs| == 13 && Addr(m, i, 12) == m.inodes[i].addrs[12] < |m.data|
  {
  }

  lemma AllRoom(v: Volume, reserved: set<nat>, owner: Owners)
    requires Good(v, reserved, owner) && |v.files.inodes| > 0
    ensures 0 < |v.files.data| <= 8192 * |v.bitmap| && Bit(v.bitmap, 0)
  {
    assert WfInode(v.files.inodes[0], |v.files.data|);
    assert v.files.inodes[0].addrs[0] < |v.files.data|;
  }

  /** What bmap promises: ownership is kept, at most the slot asked for and the indirect
      slot are filled, and the answer is 0 only on a full disk. */
  ghost predicate Mapped(reserved: set<nat>, v: Volume, r: Found, owner: Owners, owner': Owners,
                         i: nat, bn: nat, added: seq<nat>)
  {
    && bn < MAXFILE && Extended(reserved, v, r.v, owner, owner', i, added)
    && (added == [] || added == [Slot(bn)] || (bn >= 12 && (added == [12] || added == [12, Slot(bn)])))
    && r.addr == Addr(r.v.files, i, Slot(bn))
    && (r.addr == 0 ==> Full(r.v))
  }

  lemma UseSlotExtends(bmapstart: nat, reserved: set<nat>, v: Volume, owner: Owners, i: nat, s: nat)
    returns (owner': Owners, added: seq<nat>)
    requires Good(v, reserved, owner) && Shaped(v) && SlotOk(v.files, i, s)
    requires s > 12 ==> Addr(v.files, i, 12) != 0
    ensures var r := UseSlot(bmapstart, v, i, s);
      && Extended(reserved, v, r.v, owner, owner', i, added)
      && (added == [] || added == [s])
      && r.addr == Addr(r.v.files, i, s)
      && (r.addr == 0 ==> r.v == v && Full(v))
  {
    ExtendedNone(reserved, v, owner, i);
    owner', added := owner, [];
    hide Addr, Good, Extended, AllocSlot, Full, Wf;
    if Addr(v.files, i, s) == 0 {
      AllocSlotExtends(bmapstart, reserved, v, owner, i, s);
      var r := AllocSlot(bmapstart, v, i, s);
      if r.addr != 0 {
        owner', added := owner[r.addr := (i, s)], [s];
      }
    }
  }

  lemma BmapIndirect(bmapstart: nat, reserved: set<nat>, v: Volume, owner: Owners, i: nat, bn: nat)
    returns (owner': Owners, added: seq<nat>)
    requires Good(v, reserved, owner) && Shaped(v) && i < |v.files.inodes| && 12 <= bn < MAXFILE
    ensures Mapped(reserved, v, Bmap(bmapstart, v, i, bn), owner, owner', i, bn, added)
  {
    hide Good, Extended, UseSlot, Full;
    var o1, f := UseSlotExtends(bmapstart, reserved, v, owner, i, 12);
    var w := UseSlot(bmapstart, v, i, 12);
    if w.addr == 0 {
      NoEntries(v.files, i, bn + 1);
      owner', added := o1, f;
    } else {
      ExtendedGood(reserved, v, w.v, owner, o1, i, f);
      var f';
      owner', f' := UseSlotExtends(bmapstart, reserved, w.v, o1, i, bn + 1);
      ExtendedTwice(reserved, v, w.v, UseSlot(bmapstart, w.v, i, bn + 1).v, owner, o1, owner', i, f, f');
      added := f + f';
    }
  }

  lemma BmapMaps(bmapstart: nat, reserved: set<nat>, v: Volume, owner: Owners, i: nat, bn: nat)
    returns (owner': Owners, added: seq<nat>)
    requires Good(v, reserved, owner) && Shaped(v) && i < |v.files.inodes| && bn < MAXFILE
    ensures Mapped(reserved, v, Bmap(bmapstart, v, i, bn), owner, owner', i, bn, added)
  {
    hide Good, Extended, UseSlot, Full;
    if bn < 12 {
      owner', added := UseSlotExtends(bmapstart, reserved, v, owner, i, bn);
    } else {
      owner', added := BmapIndirect(bmapstart, reserved, v, owner, i, bn);
    }
  }

  lemma NoEntries(m: FileMap, i: nat, s: nat)
    requires Wf(m) && SlotOk(m, i, s) && s > 12 && Addr(m, i, 12) == 0
    ensures Addr(m, i, s) == 0
  {
  }

  lemma ExtendedGood(reserved: set<nat>, v: Volume, w: Volume, owner: Owners, owner': Owners, i: nat, added: seq<nat>)
    requires Extended(reserved, v, w, owner, owner', i, added)
    ensures Good(w, reserved, owner') && Shaped(w) && |w.files.inodes| == |v.files.inodes|
  {
  }

  // ---- writing

  lemma WritePieceGood(reserved: set<nat>, r: Found, owner: Owners, i: nat, off: nat, src: seq<Byte>, tot: nat)
    requires Good(r.v, reserved, owner) && Shaped(r.v) && i < |r.v.files.inodes|
    requires off + |src| <= 274432 && tot < |src|
    requires r.addr == Addr(r.v.files, i, Slot((off + tot) / 1024)) && r.addr != 0
    ensures r.addr < |r.v.files.data|
    ensures var w := WritePiece(r, off, src, tot);
      && Good(w, reserved, owner)
      && forall j, s :: SlotOk(r.v.files, j, s) ==> Addr(w.files, j, s) == Addr(r.v.files, j, s)
  {
    var s, a := Slot((off + tot) / 1024), r.addr;
    assert SlotOk(r.v.files, i, s);
    assert a in owner && owner[a] == (i, s);
    hide Addr, Bit, Overwrite;
    var m := Piece(off + tot, |src| - tot);
    DataWriteOwned(r.v.bitmap, r.v.files, reserved, owner, a,
      Overwrite(r.v.files.data[a], (off + tot) % 1024, src[tot..tot + m]));
  }

  /** The map after one turn of the loop, with its slots where they were. */
  ghost predicate PieceAt(r: Found, i: nat, off: nat, src: seq<Byte>, tot: nat) {
    && Shaped(r.v) && i < |r.v.files.inodes| && off + |src| <= 274432 && tot < |src|
    && 0 < r.addr < |r.v.files.data|
    && r.addr == Addr(r.v.files, i, Slot((off + tot) / 1024))
    && forall j, s :: SlotOk(r.v.files, j, s) ==>
         Addr(WritePiece(r, off, src, tot).files, j, s) == Addr(r.v.files, j, s)
  }

  lemma NewByte(r: Found, i: nat, off: nat, src: seq<Byte>, tot: nat, k: nat)
    requires PieceAt(r, i, off, src, tot)
    requires off + tot <= k < off + tot + Piece(off + tot, |src| - tot)
    ensures var f' := WritePiece(r, off, src, tot).files; Held(f', i, k) && ByteAt(f', i, k) == src[k - off]
  {
    hide Addr;
    PieceInBlock(off + tot, Piece(off + tot, |src| - tot), k);
    assert SlotOk(r.v.files, i, Slot(k / 1024));
  }

  lemma OldByte(reserved: set<nat>, owner: Owners, r: Found, i: nat, off: nat, src: seq<Byte>, tot: nat, j: nat, k: nat)
    requires Good(r.v, reserved, owner) && PieceAt(r, i, off, src, tot) && Held(r.v.files, j, k)
    requires !(j == i && off + tot <= k < off + tot + Piece(off + tot, |src| - tot))
    ensures var f' := WritePiece(r, off, src, tot).files; Held(f', j, k) && ByteAt(f', j, k) == ByteAt(r.v.files, j, k)
  {
    OtherByte(r.v, reserved, owner, i, off + tot, Piece(off + tot, |src| - tot), j, k);
    hide Addr, Good;
    assert SlotOk(r.v.files, j, Slot(k / 1024));
  }

  /** One turn of the loop puts one piece in place and touches nothing else. */
  lemma WritePieceWrites(reserved: set<nat>, r: Found, owner: Owners, i: nat, off: nat, src: seq<Byte>, tot: nat)
    requires Good(r.v, reserved, owner) && Shaped(r.v) && i < |r.v.files.inodes|
    requires off + |src| <= 274432 && tot < |src|
    requires r.addr == Addr(r.v.files, i, Slot((off + tot) / 1024)) && r.addr != 0
    ensures r.addr < |r.v.files.data|
    ensures var w := WritePiece(r, off, src, tot);
      && Good(w, reserved, owner)
      && Wrote(r.v.files, w.files, i, off, src, tot, tot + Piece(off + tot, |src| - tot))
  {
    WritePieceGood(reserved, r, owner, i, off, src, tot);
    assert PieceAt(r, i, off, src, tot);
    hide Good, Addr, Shaped, PieceAt, WritePiece, Piece, Held, ByteAt;
    var m := Piece(off + tot, |src| - tot);
    var f, f' := r.v.files, WritePiece(r, off, src, tot).files;
    forall k | off + tot <= k < off + tot + m ensures Held(f', i, k) && ByteAt(f', i, k) == src[k - off] {
      NewByte(r, i, off, src, tot, k);
    }
    forall j: nat, k: nat | Held(f, j, k) && !(j == i && off + tot <= k < off + tot + m)
      ensures Held(f', j, k) && ByteAt(f', j, k) == ByteAt(f, j, k)
    {
      OldByte(reserved, owner, r, i, off, src, tot, j, k);
    }
  }

  lemma PieceInBlock(pos: nat, m: nat, k: nat)
    requires pos % 1024 + m <= 1024 && pos <= k < pos + m
    ensures k / 1024 == pos / 1024 && k % 1024 == pos % 1024 + (k - pos)
  {
  }

  /** A byte outside the piece is in another block, or elsewhere in the same block. */
  lemma OtherByte(v: Volume, reserved: set<nat>, owner: Owners, i: nat, pos: nat, m: nat, j: nat, k: nat)
    requires Good(v, reserved, owner) && Held(v.files, i, pos) && Held(v.files, j, k) && pos % 1024 + m <= 1024
    requires !(j == i && pos <= k < pos + m)
    ensures Addr(v.files, j, Slot(k / 1024)) == Addr(v.files, i, Slot(pos / 1024)) ==>
      k % 1024 < pos % 1024 || k % 1024 >= pos % 1024 + m
  {
    if Addr(v.files, j, Slot(k / 1024)) == Addr(v.files, i, Slot(pos / 1024)) {
      assert SlotOk(v.files, j, Slot(k / 1024)) && SlotOk(v.files, i, Slot(pos / 1024));
      assert j == i && k / 1024 == pos / 1024;
    }
  }

  /** writei's loop keeps ownership, writes bytes `tot..w.tot` of the source to the file,
      leaves every other byte of every file alone, and stops short only when the disk
      is full. */
  lemma {:induction false} WriteLoopWrites(bmapstart: nat, reserved: set<nat>, v: Volume, owner: Owners,
                                           i: nat, off: nat, src: seq<Byte>, tot: nat)
    returns (owner': Owners)
    requires Good(v, reserved, owner) && Shaped(v) && i < |v.files.inodes|
    requires off + |src| <= 274432 && tot <= |src|
    ensures var w := WriteLoop(bmapstart, v, i, off, src, tot);
      && Good(w.v, reserved, owner')
      && Wrote(v.files, w.v.files, i, off, src, tot, w.tot)
      && (w.tot < |src| ==> Full(w.v))
    decreases |src| - tot
  {
    hide Good, Mapped, Bmap, WritePiece, Wrote, Full, Piece;
    if tot == |src| {
      owner' := owner;
      WroteSame(v.files, i, off, src, tot);
    } else {
      var o1 := WriteTurn(bmapstart, reserved, v, owner, i, off, src, tot);
      var r := Bmap(bmapstart, v, i, (off + tot) / 1024);
      if r.addr == 0 {
        owner' := o1;
      } else {
        var v1, m := WritePiece(r, off, src, tot), Piece(off + tot, |src| - tot);
        owner' := WriteLoopWrites(bmapstart, reserved, v1, o1, i, off, src, tot + m);
        WroteTwice(v.files, v1.files, WriteLoop(bmapstart, v1, i, off, src, tot + m).v.files, i, off, src,
          tot, tot + m, WriteLoop(bmapstart, v1, i, off, src, tot + m).tot);
      }
    }
  }

  lemma WroteSame(m: FileMap, i: nat, off: nat, src: seq<Byte>, a: nat)
    requires a <= |src|
    ensures Wrote(m, m, i, off, src, a, a)
  {
  }

  /** One turn of the loop: bmap, and the piece if there is a block. */
  lemma WriteTurn(bmapstart: nat, reserved: set<nat>, v: Volume, owner: Owners, i: nat, off: nat, src: seq<Byte>,
                  tot: nat)
    returns (owner': Owners)
    requires Good(v, reserved, owner) && Shaped(v) && i < |v.files.inodes|
    requires off + |src| <= 274432 && tot < |src|
    ensures var r := Bmap(bmapstart, v, i, (off + tot) / 1024);
      && (r.addr == 0 ==> Good(r.v, reserved, owner') && Full(r.v) && Wrote(v.files, r.v.files, i, off, src, tot, tot))
      && (r.addr != 0 ==>
            && r.addr < |r.v.files.data|
            && Good(WritePiece(r, off, src, tot), reserved, owner')
            && Wrote(v.files, WritePiece(r, off, src, tot).files, i, off, src, tot,
                     tot + Piece(off + tot, |src| - tot)))
  {
    hide Good, Mapped, Bmap, WritePiece, Full, Piece, Addr, Held, ByteAt, Wrote, SameShape;
    var added;
    owner', added := BmapMaps(bmapstart, reserved, v, owner, i, (off + tot) / 1024);
    var r := Bmap(bmapstart, v, i, (off + tot) / 1024);
    MappedFacts(reserved, v, r, owner, owner', i, (off + tot) / 1024, added);
    WroteNothing(v.files, r.v.files, i, off, src, tot);
    if r.addr != 0 {
      WritePieceWrites(reserved, r, owner', i, off, src, tot);
      WroteTwice(v.files, r.v.files, WritePiece(r, off, src, tot).files, i, off, src,
        tot, tot, tot + Piece(off + tot, |src| - tot));
    }
  }

  /** What Mapped says about the outcome and about bytes. */
  lemma MappedFacts(reserved: set<nat>, v: Volume, r: Found, owner: Owners, owner': Owners,
                    i: nat, bn: nat, added: seq<nat>)
    requires Mapped(reserved, v, r, owner, owner', i, bn, added)
    ensures Good(r.v, reserved, owner') && Shaped(r.v) && |r.v.files.inodes| == |v.files.inodes|
    ensures SlotOk(r.v.files, i, Slot(bn)) && r.addr == Addr(r.v.files, i, Slot(bn))
    ensures r.addr == 0 ==> Full(r.v)
    ensures forall j: nat, k: nat :: Held(v.files, j, k) ==>
      Held(r.v.files, j, k) && ByteAt(r.v.files, j, k) == ByteAt(v.files, j, k)
  {
    GoodShaped(r.v, reserved, owner');
    hide Addr, Held, ByteAt, Bit;
    forall j: nat, k: nat | Held(v.files, j, k)
      ensures Held(r.v.files, j, k) && ByteAt(r.v.files, j, k) == ByteAt(v.files, j, k)
    {
      GrownKeepsBytes(v.bitmap, v.files, r.v.files, reserved, owner, i, added, j, k);
    }
  }

  // ---- what is logged

  /** Whether a slot was filled between two maps. */
  ghost function Filling(m: FileMap, m': FileMap, i: nat, s: nat): nat
    requires Wf(m) && Wf(m') && SlotOk(m, i, s) && SlotOk(m', i, s)
  {
    if Addr(m, i, s) == 0 && Addr(m', i, s) != 0 then 1 else 0
  }

  /** At most `n` bitmap blocks `bits`, and otherwise only blocks of `more`, were logged. */
  ghost predicate LoggedAtMost(l: set<nat>, l': set<nat>, bits: set<nat>, n: int, more: set<nat>) {
    l' <= l + bits + more && |bits| <= n
  }

  /** The indirect block, if the slot is one of its entries. */
  ghost function Indirect(m: FileMap, i: nat, s: nat): set<nat>
    requires Wf(m) && SlotOk(m, i, s)
  {
    if s > 12 then {Addr(m, i, 12)} else {}
  }

  ghost function Unless0(a: nat): set<nat> {
    if a == 0 then {} else {a}
  }

  lemma AllocSlotLogged(bmapstart: nat, v: Volume, i: nat, s: nat)
    requires Shaped(v) && SlotOk(v.files, i, s)
    ensures var r := AllocSlot(bmapstart, v, i, s);
      r.addr != 0 ==> r.v.logged == v.logged + {r.addr / 8192 + bmapstart, r.addr} + Indirect(v.files, i, s)
  {
    hide FirstFree, WithSlot, SetBit, Wf;
  }

  lemma UseSlotLogs(bmapstart: nat, reserved: set<nat>, v: Volume, owner: Owners, i: nat, s: nat)
    returns (bits: set<nat>)
    requires Good(v, reserved, owner) && Shaped(v) && SlotOk(v.files, i, s)
    requires s > 12 ==> Addr(v.files, i, 12) != 0
    ensures var r := UseSlot(bmapstart, v, i, s);
      && (r.addr == 0 ==> r.v == v)
      && LoggedAtMost(v.logged, r.v.logged, bits, Filling(v.files, r.v.files, i, s),
           Unless0(r.addr) + Indirect(v.files, i, s))
  {
    hide Addr, Good, Extended, Full, Wf, AllocSlot;
    bits := {};
    if Addr(v.files, i, s) == 0 {
      AllocSlotExtends(bmapstart, reserved, v, owner, i, s);
      AllocSlotLogged(bmapstart, v, i, s);
      var r := AllocSlot(bmapstart, v, i, s);
      if r.addr != 0 {
        bits := {r.addr / 8192 + bmapstart};
      }
    }
  }

  lemma LoggedTwice(l: set<nat>, l1: set<nat>, l2: set<nat>, b1: set<nat>, n1: int, m1: set<nat>,
                    b2: set<nat>, n2: int, m2: set<nat>)
    requires LoggedAtMost(l, l1, b1, n1, m1) && LoggedAtMost(l1, l2, b2, n2, m2)
    ensures LoggedAtMost(l, l2, b1 + b2, n1 + n2, m1 + m2)
    ensures m1 <= m2 ==> LoggedAtMost(l, l2, b1 + b2, n1 + n2, m2)
  {
    assert |b1 + b2| <= |b1| + |b2|;
  }

  /** How many slots bmap has filled for file block `bn`. */
  ghost function NewSlots(m: FileMap, m': FileMap, i: nat, bn: nat): nat
    requires Wf(m) && Wf(m') && i < |m.inodes| && i < |m'.inodes| && bn < MAXFILE
  {
    Filling(m, m', i, Slot(bn)) + if bn < 12 then 0 else Filling(m, m', i, 12)
  }

  /** The second half of bmap's indirect case. */
  lemma EntryLogs(bmapstart: nat, reserved: set<nat>, l: set<nat>, m: FileMap, w: Volume, o1: Owners, i: nat, s: nat,
                  b1: set<nat>)
    returns (bits: set<nat>)
    requires Good(w, reserved, o1) && Shaped(w) && SlotOk(w.files, i, s) && s > 12 && Addr(w.files, i, 12) != 0
    requires Wf(m) && SlotOk(m, i, s) && Addr(m, i, s) == Addr(w.files, i, s)
    requires LoggedAtMost(l, w.logged, b1, Filling(m, w.files, i, 12), Unless0(Addr(w.files, i, 12)) + {})
    ensures var r := UseSlot(bmapstart, w, i, s);
      LoggedAtMost(l, r.v.logged, bits, Filling(m, r.v.files, i, s) + Filling(m, r.v.files, i, 12),
        Unless0(r.addr) + Unless0(Addr(r.v.files, i, 12)))
  {
    hide Addr, Good, Extended, Full, Wf, UseSlot, LoggedAtMost, SameShape;
    var b2 := UseSlotLogs(bmapstart, reserved, w, o1, i, s);
    var o2, f2 := UseSlotExtends(bmapstart, reserved, w, o1, i, s);
    var r := UseSlot(bmapstart, w, i, s);
    var ind := Addr(w.files, i, 12);
    SlotsKept(reserved, w, r.v, o1, o2, i, f2, 12);
    assert Unless0(ind) + {} == {ind};
    LoggedTwice(l, w.logged, r.v.logged, b1, Filling(m, r.v.files, i, 12), {ind},
      b2, Filling(m, r.v.files, i, s), Unless0(r.addr) + {ind});
    bits := b1 + b2;
  }

  lemma BmapLogsEntry(bmapstart: nat, reserved: set<nat>, v: Volume, owner: Owners, i: nat, bn: nat)
    returns (bits: set<nat>)
    requires Good(v, reserved, owner) && Shaped(v) && i < |v.files.inodes| && 12 <= bn < MAXFILE
    ensures var r := Bmap(bmapstart, v, i, bn);
      LoggedAtMost(v.logged, r.v.logged, bits, NewSlots(v.files, r.v.files, i, bn),
        Unless0(r.addr) + Unless0(Addr(r.v.files, i, 12)))
  {
    hide Addr, Good, Extended, Full, Wf, UseSlot, LoggedAtMost, SameShape;
    bits := UseSlotLogs(bmapstart, reserved, v, owner, i, 12);
    var o1, f := UseSlotExtends(bmapstart, reserved, v, owner, i, 12);
    var w := UseSlot(bmapstart, v, i, 12);
    ExtendedGood(reserved, v, w.v, owner, o1, i, f);
    SlotsKept(reserved, v, w.v, owner, o1, i, f, bn + 1);
    if w.addr == 0 {
      assert Unless0(w.addr) + {} == Unless0(w.addr) + Unless0(0);
    } else {
      bits := EntryLogs(bmapstart, reserved, v.logged, v.files, w.v, o1, i, bn + 1, bits);
    }
  }

  /** What bmap logs: a bitmap block for each slot it fills, the block it returns, and
      the indirect block. */
  lemma BmapLogs(bmapstart: nat, reserved: set<nat>, v: Volume, owner: Owners, i: nat, bn: nat)
    returns (bits: set<nat>)
    requires Good(v, reserved, owner) && Shaped(v) && i < |v.files.inodes| && bn < MAXFILE
    ensures var r := Bmap(bmapstart, v, i, bn);
      LoggedAtMost(v.logged, r.v.logged, bits, NewSlots(v.files, r.v.files, i, bn),
        Unless0(r.addr) + Unless0(Addr(r.v.files, i, 12)))
  {
    hide Addr, Good, Full, Wf, UseSlot;
    if bn < 12 {
      bits := UseSlotLogs(bmapstart, reserved, v, owner, i, bn);
    } else {
      bits := BmapLogsEntry(bmapstart, reserved, v, owner, i, bn);
    }
  }

  lemma SlotsKept(reserved: set<nat>, v: Volume, v': Volume, owner: Owners, owner': Owners,
                  i: nat, added: seq<nat>, s: nat)
    requires Extended(reserved, v, v', owner, owner', i, added) && SlotOk(v.files, i, s) && s !in added
    ensures Wf(v'.files) && SlotOk(v'.files, i, s) && Addr(v'.files, i, s) == Addr(v.files, i, s)
  {
    hide Addr;
  }

  /** How many blocks the `left` bytes from `pos` on lie in. */
  function BlocksOf(pos: nat, left: nat): nat {
    if left == 0 then 0 else (pos + left - 1) / 1024 - pos / 1024 + 1
  }

  lemma BlocksAfterPiece(pos: nat, left: nat)
    requires left > 0
    ensures var m := Piece(pos, left); BlocksOf(pos, left) == 1 + BlocksOf(pos + m, left - m)
  {
  }

  /** The bitmap blocks that writing may still log: one for each block, except a first
      block that is there already, and one for a missing indirect block. */
  ghost function Budget(m: FileMap, i: nat, pos: nat, left: nat): int
    requires Wf(m) && i < |m.inodes| && pos + left <= 274432
  {
    BlocksOf(pos, left)
    - (if left > 0 && Addr(m, i, Slot(pos / 1024)) != 0 then 1 else 0)
    + (if Addr(m, i, 12) == 0 then 1 else 0)
  }

  ghost predicate KeepsSlots(m: FileMap, m': FileMap) {
    && Wf(m) && Wf(m') && |m'.inodes| == |m.inodes|
    && forall j, t :: SlotOk(m, j, t) && Addr(m, j, t) != 0 ==> Addr(m', j, t) == Addr(m, j, t)
  }

  lemma KeepsSlotsTwice(m: FileMap, m1: FileMap, m2: FileMap)
    requires KeepsSlots(m, m1) && KeepsSlots(m1, m2)
    ensures KeepsSlots(m, m2)
  {
    hide Addr;
  }

  lemma PieceKeepsSlots(reserved: set<nat>, r: Found, owner: Owners, i: nat, off: nat, src: seq<Byte>, tot: nat)
    requires Good(r.v, reserved, owner) && Shaped(r.v) && i < |r.v.files.inodes|
    requires off + |src| <= 274432 && tot < |src|
    requires r.addr == Addr(r.v.files, i, Slot((off + tot) / 1024)) && r.addr != 0
    ensures r.addr < |r.v.files.data|
    ensures var w := WritePiece(r, off, src, tot);
      KeepsSlots(r.v.files, w.files) && Addr(w.files, i, 12) == Addr(r.v.files, i, 12)
  {
    WritePieceGood(reserved, r, owner, i, off, src, tot);
    hide Addr, Good;
    assert SlotOk(r.v.files, i, 12);
  }

  lemma MappedKeepsSlots(reserved: set<nat>, v: Volume, r: Found, owner: Owners, owner': Owners,
                         i: nat, bn: nat, added: seq<nat>)
    requires Mapped(reserved, v, r, owner, owner', i, bn, added)
    ensures KeepsSlots(v.files, r.v.files)
  {
    hide Addr, Bit;
  }

  lemma PieceLogged(l: set<nat>, r: Found, off: nat, src: seq<Byte>, tot: nat, bits: set<nat>, n: int, more: set<nat>)
    requires Shaped(r.v) && tot < |src| && 0 < r.addr < |r.v.files.data|
    requires LoggedAtMost(l, r.v.logged, bits, n, Unless0(r.addr) + more)
    ensures LoggedAtMost(l, WritePiece(r, off, src, tot).logged, bits, n, {r.addr} + more)
  {
    hide Shaped, Overwrite;
  }

  /** One turn of the loop fills no slot but those of its block, and logs a bitmap block
      for each slot it fills, its block, and the indirect block. */
  lemma WriteTurnLogs(bmapstart: nat, reserved: set<nat>, v: Volume, owner: Owners, i: nat, off: nat, src: seq<Byte>,
                      tot: nat)
    returns (bits: set<nat>)
    requires Good(v, reserved, owner) && Shaped(v) && i < |v.files.inodes|
    requires off + |src| <= 274432 && tot < |src|
    ensures var r := Bmap(bmapstart, v, i, (off + tot) / 1024);
      && r.addr == Addr(r.v.files, i, Slot((off + tot) / 1024))
      && KeepsSlots(v.files, r.v.files)
      && LoggedAtMost(v.logged, r.v.logged, bits, NewSlots(v.files, r.v.files, i, (off + tot) / 1024),
           Unless0(r.addr) + Unless0(Addr(r.v.files, i, 12)))
      && (r.addr != 0 ==>
            && r.addr < |r.v.files.data|
            && KeepsSlots(v.files, WritePiece(r, off, src, tot).files)
            && Addr(WritePiece(r, off, src, tot).files, i, 12) == Addr(r.v.files, i, 12)
            && LoggedAtMost(v.logged, WritePiece(r, off, src, tot).logged, bits,
                 NewSlots(v.files, r.v.files, i, (off + tot) / 1024), {r.addr} + Unless0(Addr(r.v.files, i, 12))))
  {
    hide Good, Mapped, Bmap, WritePiece, Full, Piece, Addr, SameShape, LoggedAtMost, Wf, Held, ByteAt;
    var bn := (off + tot) / 1024;
    bits := BmapLogs(bmapstart, reserved, v, owner, i, bn);
    var o1, added := BmapMaps(bmapstart, reserved, v, owner, i, bn);
    var r := Bmap(bmapstart, v, i, bn);
    MappedFacts(reserved, v, r, owner, o1, i, bn, added);
    MappedKeepsSlots(reserved, v, r, owner, o1, i, bn, added);
    if r.addr != 0 {
      PieceKeepsSlots(reserved, r, o1, i, off, src, tot);
      KeepsSlotsTwice(v.files, r.v.files, WritePiece(r, off, src, tot).files);
      PieceLogged(v.logged, r, off, src, tot, bits, NewSlots(v.files, r.v.files, i, bn),
                  Unless0(Addr(r.v.files, i, 12)));
    }
  }

  lemma BudgetAfterTurn(m: FileMap, m1: FileMap, m': FileMap, i: nat, pos: nat, left: nat, a: nat)
    requires KeepsSlots(m, m1) && KeepsSlots(m, m') && i < |m.inodes| && pos + left <= 274432 && left > 0
    requires Addr(m', i, 12) == Addr(m1, i, 12) && a == Addr(m1, i, Slot(pos / 1024))
    ensures a == 0 ==> NewSlots(m, m1, i, pos / 1024) <= Budget(m, i, pos, left)
    ensures a != 0 ==>
      NewSlots(m, m1, i, pos / 1024) + Budget(m', i, pos + Piece(pos, left), left - Piece(pos, left)) <=
        Budget(m, i, pos, left)
  {
    assert SlotOk(m, i, 12) && SlotOk(m, i, Slot(pos / 1024));
    hide Addr;
    BlocksAfterPiece(pos, left);
  }

  /** The blocks that writei's loop logs: at most `Budget` bitmap blocks, one block for
      each file block it covers, and the indirect block. */
  lemma {:induction false} WriteLoopLogs(bmapstart: nat, reserved: set<nat>, v: Volume, owner: Owners,
                                         i: nat, off: nat, src: seq<Byte>, tot: nat)
    returns (bits: set<nat>, data: set<nat>)
    requires Good(v, reserved, owner) && Shaped(v) && i < |v.files.inodes|
    requires off + |src| <= 274432 && tot <= |src|
    ensures var w := WriteLoop(bmapstart, v, i, off, src, tot);
      && KeepsSlots(v.files, w.v.files)
      && LoggedAtMost(v.logged, w.v.logged, bits, Budget(v.files, i, off + tot, |src| - tot),
           data + Unless0(Addr(w.v.files, i, 12)))
      && |data| <= BlocksOf(off + tot, |src| - tot)
    decreases |src| - tot
  {
    hide Good, Bmap, Full, Piece, Addr, Wf, Wrote, Budget, BlocksOf, NewSlots, KeepsSlots, LoggedAtMost, WritePiece;
    var pos, left := off + tot, |src| - tot;
    bits, data := {}, {};
    if left == 0 {
      NothingLogged(v, i, pos);
    } else {
      bits := WriteTurnLogs(bmapstart, reserved, v, owner, i, off, src, tot);
      var o1 := WriteTurn(bmapstart, reserved, v, owner, i, off, src, tot);
      var r := Bmap(bmapstart, v, i, pos / 1024);
      if r.addr == 0 {
        BudgetAfterTurn(v.files, r.v.files, r.v.files, i, pos, left, 0);
        LoggedWithin(v.logged, r.v.logged, bits, NewSlots(v.files, r.v.files, i, pos / 1024),
          Budget(v.files, i, pos, left), Unless0(Addr(r.v.files, i, 12)));
      } else {
        var v1, m := WritePiece(r, off, src, tot), Piece(pos, left);
        BudgetAfterTurn(v.files, r.v.files, v1.files, i, pos, left, r.addr);
        var bits2, data2 := WriteLoopLogs(bmapstart, reserved, v1, o1, i, off, src, tot + m);
        var w := WriteLoop(bmapstart, v1, i, off, src, tot + m);
        KeepsSlotsTwice(v.files, v1.files, w.v.files);
        SlotOfKept(v1.files, w.v.files, i, 12);
        BlocksAfterPiece(pos, left);
        LoggedThen(v.logged, v1.logged, w.v.logged, bits, NewSlots(v.files, r.v.files, i, pos / 1024), r.addr,
          Addr(v1.files, i, 12), bits2, Budget(v1.files, i, pos + m, left - m), data2, Addr(w.v.files, i, 12),
          Budget(v.files, i, pos, left));
        bits, data := bits + bits2, {r.addr} + data2;
      }
    }
  }

  lemma SlotOfKept(m: FileMap, m': FileMap, i: nat, s: nat)
    requires KeepsSlots(m, m') && SlotOk(m, i, s)
    ensures Addr(m, i, s) == 0 || Addr(m', i, s) == Addr(m, i, s)
  {
  }

  /** What a first turn and the rest of the loop log together. */
  lemma LoggedThen(l: set<nat>, l1: set<nat>, l2: set<nat>, b1: set<nat>, n1: int, a: nat, ind1: nat,
                   b2: set<nat>, n2: int, data: set<nat>, ind2: nat, n: int)
    requires LoggedAtMost(l, l1, b1, n1, {a} + Unless0(ind1)) && LoggedAtMost(l1, l2, b2, n2, data + Unless0(ind2))
    requires (ind1 == 0 || ind2 == ind1) && n1 + n2 <= n
    ensures LoggedAtMost(l, l2, b1 + b2, n, {a} + data + Unless0(ind2))
    ensures |{a} + data| <= 1 + |data|
  {
    assert |b1 + b2| <= |b1| + |b2|;
  }

  lemma NothingLogged(v: Volume, i: nat, pos: nat)
    requires Wf(v.files) && i < |v.files.inodes| && pos <= 274432
    ensures KeepsSlots(v.files, v.files)
    ensures LoggedAtMost(v.logged, v.logged, {}, Budget(v.files, i, pos, 0), {} + Unless0(Addr(v.files, i, 12)))
  {
  }

  lemma LoggedWithin(l: set<nat>, l': set<nat>, bits: set<nat>, n: int, n': int, more: set<nat>)
    requires LoggedAtMost(l, l', bits, n, {} + more) && n <= n'
    ensures LoggedAtMost(l, l', bits, n', {} + more)
  {
  }
}
