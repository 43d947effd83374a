/** Files as byte sequences (kernel/fs.c, readi and writei): what writing and reading
    mean for the contents of files, and how many blocks a write logs. */
module FsFiles {
  import opened Bytes
  import opened LogFormat
  import opened Bitmap
  import opened BlockMap
  import opened FileContent
  import opened FsSpec

  /** Addition of C unsigned ints. */
  function Add32(a: nat, b: nat): nat {
    (a + b) % 0x1_0000_0000
  }

  type Uint = n: nat | n < 0x1_0000_0000

  // ---- writei

  datatype Result = Result(v: Volume, ret: int)

  function WithSize(m: FileMap, i: nat, n: nat): FileMap
    requires i < |m.inodes|
  {
    m.(inodes := m.inodes[i := m.inodes[i].(size := n)])
  }

  /** writei: the range checks, the loop, and iupdate, which logs the inode's block. */
  function Writei(bmapstart: nat, inodestart: nat, v: Volume, i: nat, off: Uint, src: seq<Byte>): (r: Result)
    requires Shaped(v) && i < |v.files.inodes| && |src| < 0x1_0000_0000
    ensures Shaped(r.v) && |r.v.files.inodes| == |v.files.inodes|
    ensures r.ret == -1 || (0 <= r.ret <= |src| && off + r.ret <= 274432)
  {
    var size := v.files.inodes[i].size;
    if off > size || Add32(off, |src|) < off || Add32(off, |src|) > 274432 then Result(v, -1)
    else
      var w := WriteLoop(bmapstart, v, i, off, src, 0);
      Result(w.v.(files := WithSize(w.v.files, i, if off + w.tot > size then off + w.tot else size),
                  logged := w.v.logged + {i / 16 + inodestart}), w.tot)
  }

  // ---- files without holes

  /** Every byte below a file's size lies in a block of that file. */
  ghost predicate Filled(m: FileMap) {
    forall j, k :: 0 <= j < |m.inodes| && 0 <= k < m.inodes[j].size ==> Held(m, j, k)
  }

  /** What the file holds. */
  ghost function Content(m: FileMap, j: nat): seq<Byte>
    requires Filled(m) && j < |m.inodes|
  {
    seq(m.inodes[j].size, k requires 0 <= k < m.inodes[j].size => ByteAt(m, j, k))
  }

  /** `c` with `x` put over the bytes from `off` on, longer if need be. */
  function Splice(c: seq<Byte>, off: nat, x: seq<Byte>): (r: seq<Byte>)
    requires off <= |c|
  {
    c[..off] + x + if off + |x| < |c| then c[off + |x|..] else []
  }

  lemma SizeKeepsBytes(m: FileMap, i: nat, n: nat)
    requires Wf(m) && i < |m.inodes|
    ensures Wf(WithSize(m, i, n))
    ensures forall j: nat, k: nat {:trigger Held(WithSize(m, i, n), j, k)} ::
      (Held(WithSize(m, i, n), j, k) <==> Held(m, j, k))
      && (Held(m, j, k) ==> ByteAt(WithSize(m, i, n), j, k) == ByteAt(m, j, k))
  {
  }

  /** A map that was written and then given its new sizes. */
  ghost predicate WroteTo(m: FileMap, m': FileMap, i: nat, off: nat, src: seq<Byte>, tot: nat)
    requires tot <= |src|
  {
    && Wrote(m, m', i, off, src, 0, tot) && |m'.inodes| == |m.inodes| && i < |m.inodes|
    && off <= m.inodes[i].size
    && m'.inodes[i].size == (if off + tot > m.inodes[i].size then off + tot else m.inodes[i].size)
    && forall j :: 0 <= j < |m.inodes| && j != i ==> m'.inodes[j].size == m.inodes[j].size
  }

  lemma WroteFilled(m: FileMap, m': FileMap, i: nat, off: nat, src: seq<Byte>, tot: nat)
    requires tot <= |src| && WroteTo(m, m', i, off, src, tot) && Filled(m)
    ensures Filled(m')
  {
    hide Held, ByteAt;
  }

  lemma WroteContent(m: FileMap, m': FileMap, i: nat, off: nat, src: seq<Byte>, tot: nat)
    requires tot <= |src| && WroteTo(m, m', i, off, src, tot) && Filled(m) && Filled(m')
    ensures Content(m', i) == Splice(Content(m, i), off, src[..tot])
    ensures forall j :: 0 <= j < |m.inodes| && j != i ==> Content(m', j) == Content(m, j)
  {
    hide Held, ByteAt;
    var c, c' := Content(m, i), Splice(Content(m, i), off, src[..tot]);
    assert |c'| == m'.inodes[i].size;
    forall k | 0 <= k < |c'| ensures Content(m', i)[k] == c'[k] {
      if k < m.inodes[i].size {
        assert Held(m, i, k);
      }
    }
    forall j | 0 <= j < |m.inodes| && j != i ensures Content(m', j) == Content(m, j) {
      forall k | 0 <= k < m.inodes[j].size ensures Content(m', j)[k] == Content(m, j)[k] {
        assert Held(m, j, k);
      }
    }
  }

  /** What writei promises: it fails exactly on a bad range and then changes nothing.
      Otherwise it splices the bytes it returns the count of into the file, leaves
      every other file alone, and falls short only when the disk is full. */
  ghost predicate Spliced(v: Volume, r: Result, i: nat, off: nat, src: seq<Byte>)
    requires Filled(v.files) && i < |v.files.inodes|
  {
    var c := Content(v.files, i);
    && (r.ret == -1 <==> off > |c| || off + |src| > 274432)
    && (r.ret == -1 ==> r.v == v)
    && (r.ret != -1 ==>
          && 0 <= r.ret <= |src| && Filled(r.v.files) && |r.v.files.inodes| == |v.files.inodes|
          && Content(r.v.files, i) == Splice(c, off, src[..r.ret])
          && (forall j :: 0 <= j < |v.files.inodes| && j != i ==> Content(r.v.files, j) == Content(v.files, j))
          && (r.ret < |src| ==> Full(r.v)))
  }

  lemma FilledSize(m: FileMap, i: nat)
    requires Filled(m) && i < |m.inodes|
    ensures m.inodes[i].size <= 274432
  {
    var n := m.inodes[i].size;
    assert n > 0 ==> Held(m, i, n - 1);
  }

  lemma RangeSum(off: Uint, n: Uint)
    ensures if off + n < 0x1_0000_0000 then Add32(off, n) == off + n else Add32(off, n) < off
  {
  }

  lemma RangeChecks(off: Uint, n: nat)
    requires n < 0x1_0000_0000 && off <= 274432
    ensures Add32(off, n) < off || Add32(off, n) > 274432 <==> off + n > 274432
  {
    RangeSum(off, n);
  }

  lemma WriteiSplices(bmapstart: nat, inodestart: nat, reserved: set<nat>, v: Volume, owner: Owners,
                      i: nat, off: Uint, src: seq<Byte>)
    returns (owner': Owners)
    requires Good(v, reserved, owner) && Shaped(v) && Filled(v.files) && i < |v.files.inodes| && |src| < 0x1_0000_0000
    ensures var r := Writei(bmapstart, inodestart, v, i, off, src);
      Good(r.v, reserved, owner') && Spliced(v, r, i, off, src)
  {
    owner' := owner;
    var size := v.files.inodes[i].size;
    FilledSize(v.files, i);
    if off <= size {
      RangeChecks(off, |src|);
      if off + |src| <= 274432 {
        hide Good, Filled, Shaped, Wrote, Full, WriteLoop, Content, Splice, Wf;
        owner' := WriteLoopWrites(bmapstart, reserved, v, owner, i, off, src, 0);
        var w := WriteLoop(bmapstart, v, i, off, src, 0);
        var n := if off + w.tot > size then off + w.tot else size;
        SizedGood(w.v, reserved, owner', i, n);
        SizedWrote(v, w.v, i, off, src, w.tot, n);
        WroteFilled(v.files, WithSize(w.v.files, i, n), i, off, src, w.tot);
        WroteContent(v.files, WithSize(w.v.files, i, n), i, off, src, w.tot);
        FullSized(w.v, Writei(bmapstart, inodestart, v, i, off, src).v);
        ContentLength(v.files, i);
      }
    }
  }

  lemma ContentLength(m: FileMap, i: nat)
    requires Filled(m) && i < |m.inodes|
    ensures |Content(m, i)| == m.inodes[i].size
  {
  }

  lemma SizedGood(v: Volume, reserved: set<nat>, owner: Owners, i: nat, n: nat)
    requires Good(v, reserved, owner) && i < |v.files.inodes|
    ensures forall l :: Good(Volume(v.bitmap, WithSize(v.files, i, n), l), reserved, owner)
  {
    var m' := WithSize(v.files, i, n);
    assert forall j, s :: SlotOk(v.files, j, s) ==> Addr(m', j, s) == Addr(v.files, j, s);
    hide Addr, Bit;
    OwnedSameSlots(v.bitmap, v.files, m', reserved, owner);
  }

  lemma SizedWrote(v: Volume, w: Volume, i: nat, off: nat, src: seq<Byte>, tot: nat, n: nat)
    requires Shaped(v) && SameShape(v, w) && i < |v.files.inodes| && tot <= |src| && off <= v.files.inodes[i].size
    requires Wrote(v.files, w.files, i, off, src, 0, tot)
    requires n == (if off + tot > v.files.inodes[i].size then off + tot else v.files.inodes[i].size)
    ensures WroteTo(v.files, WithSize(w.files, i, n), i, off, src, tot)
  {
    SizeKeepsBytes(w.files, i, n);
    hide Held, ByteAt;
  }

  lemma FullSized(v: Volume, v': Volume)
    requires v'.bitmap == v.bitmap && |v'.files.data| == |v.files.data|
    ensures Full(v) <==> Full(v')
  {
  }

  // ---- readi

  datatype Copied = Copied(v: Volume, bytes: seq<Byte>)

  /** The loop of readi from byte `tot` on; it stops early when bmap finds no block. */
  function ReadLoop(bmapstart: nat, v: Volume, i: nat, off: nat, n: nat, tot: nat): Copied
    requires Shaped(v) && i < |v.files.inodes| && off + n <= 274432 && tot <= n
    decreases n - tot
  {
    if tot == n then Copied(v, [])
    else
      var r := Bmap(bmapstart, v, i, (off + tot) / 1024);
      if r.addr == 0 || r.addr >= |r.v.files.data| then Copied(r.v, [])
      else
        var m, o := Piece(off + tot, n - tot), (off + tot) % 1024;
        var rest := ReadLoop(bmapstart, r.v, i, off, n, tot + m);
        Copied(rest.v, r.v.files.data[r.addr][o..o + m] + rest.bytes)
  }

  /** readi: nothing on a bad range, otherwise the loop, cut off at the file's size. */
  function Readi(bmapstart: nat, v: Volume, i: nat, off: Uint, n: Uint): Copied
    requires Shaped(v) && i < |v.files.inodes| && v.files.inodes[i].size <= 274432
  {
    var size := v.files.inodes[i].size;
    if off > size || Add32(off, n) < off then Copied(v, [])
    else ReadLoop(bmapstart, v, i, off, if Add32(off, n) > size then size - off else n, 0)
  }

  /** bmap on a block that is there changes nothing. */
  lemma BmapHeld(bmapstart: nat, v: Volume, i: nat, k: nat)
    requires Shaped(v) && Held(v.files, i, k)
    ensures Bmap(bmapstart, v, i, k / 1024) == Found(v, Addr(v.files, i, Slot(k / 1024)))
  {
  }

  lemma PieceByte(f: FileMap, i: nat, pos: nat, m: nat, k: nat)
    requires Filled(f) && i < |f.inodes| && pos % 1024 + m <= 1024 && Held(f, i, pos)
    requires pos <= k < pos + m <= f.inodes[i].size
    ensures f.data[Addr(f, i, Slot(pos / 1024))][pos % 1024 + (k - pos)] == Content(f, i)[k]
  {
    PieceInBlock(pos, m, k);
    assert Held(f, i, k);
    hide Addr;
  }

  lemma PieceContent(f: FileMap, i: nat, pos: nat, m: nat)
    requires Filled(f) && i < |f.inodes| && pos + m <= f.inodes[i].size && pos % 1024 + m <= 1024
    requires Held(f, i, pos)
    ensures |Content(f, i)| == f.inodes[i].size
    ensures f.data[Addr(f, i, Slot(pos / 1024))][pos % 1024..pos % 1024 + m] == Content(f, i)[pos..pos + m]
  {
    ContentLength(f, i);
    var d, c := f.data[Addr(f, i, Slot(pos / 1024))], Content(f, i);
    hide Addr, Content, Filled, Wf;
    forall k | pos <= k < pos + m ensures d[pos % 1024 + (k - pos)] == c[k] {
      PieceByte(f, i, pos, m, k);
    }
    SameSlice(d, pos % 1024, c, pos, m);
  }

  lemma SameSlice(d: seq<Byte>, o: nat, c: seq<Byte>, pos: nat, m: nat)
    requires o + m <= |d| && pos + m <= |c|
    requires forall k :: pos <= k < pos + m ==> d[o + (k - pos)] == c[k]
    ensures d[o..o + m] == c[pos..pos + m]
  {
    var x, y := d[o..o + m], c[pos..pos + m];
    forall k | 0 <= k < m ensures x[k] == y[k] {
      assert d[o + (pos + k - pos)] == c[pos + k];
    }
  }

  /** One turn of readi's loop copies one piece and changes nothing. */
  lemma ReadTurn(bmapstart: nat, v: Volume, i: nat, pos: nat, m: nat)
    requires Shaped(v) && i < |v.files.inodes| && pos < 274432 && pos + m <= v.files.inodes[i].size && Filled(v.files)
    requires 0 < m && pos % 1024 + m <= 1024
    ensures |Content(v.files, i)| == v.files.inodes[i].size
    ensures var r := Bmap(bmapstart, v, i, pos / 1024);
      && r.v == v && 0 < r.addr < |v.files.data|
      && v.files.data[r.addr][pos % 1024..pos % 1024 + m] == Content(v.files, i)[pos..pos + m]
  {
    assert Held(v.files, i, pos);
    BmapHeld(bmapstart, v, i, pos);
    hide Bmap, Addr, Content, Filled;
    PieceContent(v.files, i, pos, m);
  }

  lemma ReadLoopStep(bmapstart: nat, v: Volume, i: nat, off: nat, n: nat, tot: nat)
    requires Shaped(v) && i < |v.files.inodes| && off + n <= v.files.inodes[i].size && Filled(v.files)
    requires off + n <= 274432 && tot < n && |Content(v.files, i)| == v.files.inodes[i].size
    ensures var m := Piece(off + tot, n - tot);
      var rest := ReadLoop(bmapstart, v, i, off, n, tot + m);
      ReadLoop(bmapstart, v, i, off, n, tot) ==
        Copied(rest.v, Content(v.files, i)[off + tot..off + tot + m] + rest.bytes)
  {
    hide Bmap, Content, Wf, Piece, Filled, SameShape, Shaped;
    ReadTurn(bmapstart, v, i, off + tot, Piece(off + tot, n - tot));
  }

  lemma TwoSlices(c: seq<Byte>, a: nat, b: nat, d: nat)
    requires a <= b <= d <= |c|
    ensures c[a..d] == c[a..b] + c[b..d]
  {
  }

  /** The loop copies the file's bytes and changes nothing. */
  lemma {:induction false} ReadLoopReads(bmapstart: nat, v: Volume, i: nat, off: nat, n: nat, tot: nat)
    requires Shaped(v) && i < |v.files.inodes| && off + n <= v.files.inodes[i].size && Filled(v.files)
    requires off + n <= 274432 && tot <= n
    ensures |Content(v.files, i)| == v.files.inodes[i].size
    ensures ReadLoop(bmapstart, v, i, off, n, tot) == Copied(v, Content(v.files, i)[off + tot..off + n])
    decreases n - tot
  {
    hide Bmap, Content, Wf, Piece, Filled, Shaped, SameShape;
    ContentLength(v.files, i);
    var c := Content(v.files, i);
    if tot == n {
      assert c[off + n..off + n] == [];
    } else {
      var m := Piece(off + tot, n - tot);
      ReadLoopStep(bmapstart, v, i, off, n, tot);
      ReadLoopReads(bmapstart, v, i, off, n, tot + m);
      TwoSlices(c, off + tot, off + tot + m, off + n);
    }
  }

  /** A read returns the slice of min(n, size - off) bytes at `off`, and changes nothing. */
  lemma ReadiReads(bmapstart: nat, v: Volume, i: nat, off: Uint, n: Uint)
    requires Shaped(v) && i < |v.files.inodes| && Filled(v.files) && v.files.inodes[i].size <= 274432
    ensures var r := Readi(bmapstart, v, i, off, n);
      var c := Content(v.files, i);
      && r.v == v
      && r.bytes == if off > |c| || off + n >= 0x1_0000_0000 then [] else c[off..off + Min(n, |c| - off)]
  {
    var size := v.files.inodes[i].size;
    ContentLength(v.files, i);
    RangeSum(off, n);
    hide Content, Filled, Shaped, ReadLoop, Add32;
    if off <= size && off + n < 0x1_0000_0000 {
      ReadLoopReads(bmapstart, v, i, off, if off + n > size then size - off else n, 0);
    }
  }

  lemma GoodContent(v: Volume, reserved: set<nat>, owner: Owners)
    requires Good(v, reserved, owner) && Filled(v.files)
    ensures Shaped(v) && Wf(v.files)
    ensures forall i :: 0 <= i < |v.files.inodes| ==> v.files.inodes[i].size <= 274432
  {
    forall i | 0 <= i < |v.files.inodes| ensures v.files.inodes[i].size <= 274432 {
      FilledSize(v.files, i);
    }
  }

  lemma SpliceBack(c: seq<Byte>, off: nat, x: seq<Byte>)
    requires off <= |c|
    ensures |Splice(c, off, x)| >= off + |x| && Splice(c, off, x)[off..off + |x|] == x
  {
  }

  /** Reading back what was written gives what was written. */
  lemma ReadAfterWrite(bmapstart: nat, inodestart: nat, reserved: set<nat>, v: Volume, owner: Owners,
                       i: nat, off: Uint, src: seq<Byte>)
    requires Good(v, reserved, owner) && Shaped(v) && Filled(v.files) && i < |v.files.inodes| && |src| < 0x1_0000_0000
    ensures var w := Writei(bmapstart, inodestart, v, i, off, src);
      w.ret >= 0 ==>
        && Shaped(w.v) && i < |w.v.files.inodes| && w.v.files.inodes[i].size <= 274432
        && Readi(bmapstart, w.v, i, off, w.ret) == Copied(w.v, src[..w.ret])
  {
    var owner' := WriteiSplices(bmapstart, inodestart, reserved, v, owner, i, off, src);
    var w := Writei(bmapstart, inodestart, v, i, off, src);
    if w.ret >= 0 {
      var c := Content(v.files, i);
      hide Good, Filled, Shaped, Writei, Readi, Content, Splice, Full;
      GoodContent(w.v, reserved, owner');
      ReadiReads(bmapstart, w.v, i, off, w.ret);
      SpliceBack(c, off, src[..w.ret]);
      assert |src[..w.ret]| == w.ret;
    }
  }

  // ---- how much a chunk logs

  /** The first block of an unaligned write within the file is there already. */
  lemma FirstBlockHeld(m: FileMap, i: nat, off: nat)
    requires Wf(m) && Filled(m) && i < |m.inodes| && off <= m.inodes[i].size && off % 1024 != 0 && off < 274432
    ensures Addr(m, i, Slot(off / 1024)) != 0
  {
    var k := off - off % 1024;
    assert k / 1024 == off / 1024;
    assert Held(m, i, k);
  }

  /** A chunk spans at most four blocks, and four only if it starts inside a block. */
  lemma ChunkBudget(m: FileMap, i: nat, off: nat, n: nat)
    requires Wf(m) && Filled(m) && i < |m.inodes| && off <= m.inodes[i].size && n <= 3072 && off + n <= 274432
    ensures Budget(m, i, off, n) + BlocksOf(off, n) <= 8
  {
    if n > 0 && off % 1024 != 0 {
      FirstBlockHeld(m, i, off);
    }
    hide Addr, Filled;
  }

  lemma UnionCount(l: set<nat>, bits: set<nat>, data: set<nat>, ind: nat, b: nat)
    requires l <= bits + (data + Unless0(ind))
    ensures |l + {b}| <= |bits| + |data| + 2
  {
    var u := bits + (data + Unless0(ind));
    assert |data + Unless0(ind)| <= |data| + 1;
    assert |u| <= |bits| + |data| + 1;
    Subset(l, u);
    assert |l + {b}| <= |l| + 1;
  }

  lemma Subset(a: set<nat>, b: set<nat>)
    requires a <= b
    ensures |a| <= |b|
  {
    assert b == a + (b - a);
  }

  /** A writei of at most 3072 bytes within a fresh transaction logs at most MAXOPBLOCKS
      blocks, however many bitmap blocks there are. */
  lemma ChunkFits(bmapstart: nat, inodestart: nat, reserved: set<nat>, v: Volume, owner: Owners,
                  i: nat, off: Uint, src: seq<Byte>)
    requires Good(v, reserved, owner) && Shaped(v) && Filled(v.files) && i < |v.files.inodes|
    requires |src| <= 3072 && v.logged == {}
    ensures |Writei(bmapstart, inodestart, v, i, off, src).v.logged| <= MAXOPBLOCKS
  {
    hide Writei, Good, Filled, Shaped, SameShape, WriteLoop, Budget, BlocksOf, Wf, KeepsSlots, Addr, Unless0;
    GoodContent(v, reserved, owner);
    WriteiLogged(bmapstart, inodestart, v, i, off, src);
    if off <= v.files.inodes[i].size && off + |src| <= 274432 {
      ChunkBudget(v.files, i, off, |src|);
      var bits, data := WriteLoopLogs(bmapstart, reserved, v, owner, i, off, src, 0);
      var w := WriteLoop(bmapstart, v, i, off, src, 0);
      KeptShape(v.files, w.v.files);
      UnionCount(w.v.logged, bits, data, Addr(w.v.files, i, 12), i / 16 + inodestart);
    }
  }

  lemma WriteiLogged(bmapstart: nat, inodestart: nat, v: Volume, i: nat, off: Uint, src: seq<Byte>)
    requires Shaped(v) && i < |v.files.inodes| && |src| < 0x1_0000_0000 && v.files.inodes[i].size <= 274432
    ensures Writei(bmapstart, inodestart, v, i, off, src).v.logged ==
      if off <= v.files.inodes[i].size && off + |src| <= 274432
      then WriteLoop(bmapstart, v, i, off, src, 0).v.logged + {i / 16 + inodestart}
      else v.logged
  {
    if off <= v.files.inodes[i].size {
      RangeChecks(off, |src|);
    }
    hide WriteLoop, Shaped;
  }

  lemma KeptShape(m: FileMap, m': FileMap)
    requires KeepsSlots(m, m')
    ensures Wf(m') && |m'.inodes| == |m.inodes|
  {
  }
}
