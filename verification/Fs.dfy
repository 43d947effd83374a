/** The block layer of kernel/fs.c at work: balloc, bfree, bmap, itrunc, readi, writei,
    and the chunking loop of filewrite (kernel/file.c).  Each method computes the
    function of the volume that the theorems are about. */
module Fs {
  import opened Bytes
  import opened Bitmap
  import opened BlockMap
  import opened FileContent
  import Spec = FsSpec
  import Trunc = FsTrunc
  import Files = FsFiles
  import Chunks = FileWrite

  lemma Indices(b: nat, bi: nat)
    requires b % 8192 == 0 && bi < 8192
    ensures (b + bi) / 8192 == b / 8192 && (b + bi) % 8192 == bi && (b + bi) % 8 == bi % 8
  {
    Split(b + bi);
    Split(bi);
  }

  lemma BitIs(bm: seq<BitBlock>, b: nat, q: nat, j: nat, e: nat)
    requires Covers(bm, b) && q == b / 8192 && j == b % 8192 / 8 && e == b % 8
    ensures Bit(bm, b) <==> bm[q][j] & Mask(e) != 0
    ensures SetBit(bm, b) == bm[q := bm[q][j := bm[q][j] | Mask(e)]]
    ensures ClearBit(bm, b) == bm[q := bm[q][j := bm[q][j] & !Mask(e)]]
  {
  }

  /** The bits that the mask of balloc and bfree reaches. */
  lemma BitAt(bm: seq<BitBlock>, b: nat, bi: nat)
    requires b % 8192 == 0 && bi < 8192 && Covers(bm, b + bi)
    ensures (b + bi) / 8192 == b / 8192 < |bm| && bi / 8 < 1024
    ensures Bit(bm, b + bi) <==> bm[b / 8192][bi / 8] & Mask(bi % 8) != 0
    ensures SetBit(bm, b + bi) == bm[b / 8192 := bm[b / 8192][bi / 8 := bm[b / 8192][bi / 8] | Mask(bi % 8)]]
    ensures ClearBit(bm, b + bi) == bm[b / 8192 := bm[b / 8192][bi / 8 := bm[b / 8192][bi / 8] & !Mask(bi % 8)]]
  {
    hide Mask, Bit, SetBit, ClearBit;
    Indices(b, bi);
    BitIs(bm, b + bi, b / 8192, bi / 8, bi % 8);
  }

  /** mkfs marks block 0 in use, so that balloc can answer 0 for "none". */
  predicate Ready(v: Spec.Volume) {
    Spec.Shaped(v) && 0 < |v.files.data| && Bit(v.bitmap, 0)
  }

  /** Scanning from `b`, the first clear bit is at `c`. */
  lemma {:induction false} FirstFreeIs(bm: seq<BitBlock>, n: nat, b: nat, c: nat)
    requires b <= c <= n <= 8192 * |bm| && (c < n ==> !Bit(bm, c)) && forall a :: b <= a < c ==> Bit(bm, a)
    ensures Spec.FirstFree(bm, n, b) == if c < n then c else 0
    decreases c - b
  {
    hide Bit;
    if b < c {
      FirstFreeIs(bm, n, b + 1, c);
    }
  }

  lemma BallocReady(bmapstart: nat, v: Spec.Volume)
    requires Ready(v)
    ensures Ready(Spec.Balloc(bmapstart, v).v)
  {
    var a := Spec.Balloc(bmapstart, v).addr;
    if a != 0 {
      BitOfSet(v.bitmap, a, 0);
    }
  }

  lemma UseSlotReady(bmapstart: nat, v: Spec.Volume, i: nat, s: nat)
    requires Ready(v) && SlotOk(v.files, i, s)
    ensures Ready(Spec.UseSlot(bmapstart, v, i, s).v)
  {
    hide Bit, Spec.Balloc, Addr, WithSlot, Wf;
    BallocReady(bmapstart, v);
  }

  lemma BmapReady(bmapstart: nat, v: Spec.Volume, i: nat, bn: nat)
    requires Ready(v) && i < |v.files.inodes| && bn < MAXFILE
    ensures Ready(Spec.Bmap(bmapstart, v, i, bn).v)
  {
    hide Ready, Spec.UseSlot, Wf;
    ReadyShaped(v);
    if bn < NDIRECT {
      UseSlotReady(bmapstart, v, i, bn);
    } else {
      UseSlotReady(bmapstart, v, i, 12);
      UseSlotReady(bmapstart, Spec.UseSlot(bmapstart, v, i, 12).v, i, bn + 1);
    }
  }

  lemma ReadyShaped(v: Spec.Volume)
    requires Ready(v)
    ensures Spec.Shaped(v) && Wf(v.files)
  {
  }

  // ---- one turn of each loop

  lemma WriteLoopTurn(bmapstart: nat, v: Spec.Volume, i: nat, off: nat, src: seq<Byte>, tot: nat)
    requires Spec.Shaped(v) && i < |v.files.inodes| && off + |src| <= 274432 && tot <= |src|
    ensures tot == |src| ==> Spec.WriteLoop(bmapstart, v, i, off, src, tot) == Spec.Written(v, tot)
    ensures tot < |src| ==>
      var r := Spec.Bmap(bmapstart, v, i, (off + tot) / 1024);
      && (r.addr == 0 ==> Spec.WriteLoop(bmapstart, v, i, off, src, tot) == Spec.Written(r.v, tot))
      && (0 < r.addr < |r.v.files.data| ==>
            Spec.WriteLoop(bmapstart, v, i, off, src, tot) ==
            Spec.WriteLoop(bmapstart, Spec.WritePiece(r, off, src, tot), i, off, src,
                           tot + Spec.Piece(off + tot, |src| - tot)))
  {
    hide Spec.Bmap, Spec.WritePiece, Spec.Shaped;
  }

  /** Overwriting a piece of a block and logging it is one turn's write. */
  lemma PieceWritten(v: Spec.Volume, addr: nat, off: nat, src: seq<Byte>, tot: nat, m: nat)
    requires Ready(v) && tot < |src| && addr < |v.files.data|
    requires m == Spec.Min(|src| - tot, 1024 - (off + tot) % 1024)
    ensures m == Spec.Piece(off + tot, |src| - tot)
    ensures var w := Spec.WritePiece(Spec.Found(v, addr), off, src, tot);
      && Ready(w) && |w.files.inodes| == |v.files.inodes|
      && w == v.(files := WithBlock(v.files, addr,
                                    Spec.Overwrite(v.files.data[addr], (off + tot) % 1024, src[tot..tot + m])),
                 logged := v.logged + {addr})
  {
    hide Spec.Overwrite;
  }

  lemma ShapeFacts(v: Spec.Volume, v': Spec.Volume)
    requires Spec.SameShape(v, v')
    ensures Spec.Shaped(v') && Wf(v'.files)
    ensures |v'.files.data| == |v.files.data| && |v'.files.inodes| == |v.files.inodes|
  {
  }

  class Fs {
    /** First blocks of the bitmap and of the inode table. */
    const bmapstart: nat
    const inodestart: nat
    /** The blocks that mkfs marks in use: boot, superblock, log, inodes, bitmap. */
    ghost const reserved: set<nat>

    var v: Spec.Volume
    ghost var owner: Owners

    /** Every block in use has one owner, and no file has holes. */
    ghost predicate Valid()
      reads this
    {
      Spec.Good(v, reserved, owner) && Files.Filled(v.files)
    }

    /** Allocate a zeroed disk block. */
    method Balloc() returns (addr: nat)
      requires Ready(v)
      modifies this`v
      ensures Spec.Found(v, addr) == Spec.Balloc(bmapstart, old(v))
    {
      hide Bit, SetBit, Mask, Spec.FirstFree, Wf;
      var n := |v.files.data|;
      var b := 0;
      while b < n
        invariant b % 8192 == 0 && v == old(v)
        invariant forall c :: 0 <= c < b && c < n ==> Bit(v.bitmap, c)
      {
        var bi := 0;
        while bi < BPB && b + bi < n
          invariant 0 <= bi <= BPB && v == old(v)
          invariant forall c :: 0 <= c < b + bi && c < n ==> Bit(v.bitmap, c)
        {
          var m := Mask(bi % 8);
          BitAt(v.bitmap, b, bi);
          var bp := v.bitmap[b / 8192];
          if bp[bi / 8] & m == 0 {
            bp := bp[bi / 8 := bp[bi / 8] | m];
            FirstFreeIs(v.bitmap, n, 0, b + bi);
            v := v.(bitmap := v.bitmap[b / 8192 := bp], logged := v.logged + {b / BPB + bmapstart});
            Bzero(b + bi);
            return b + bi;
          }
          bi := bi + 1;
        }
        b := b + BPB;
      }
      FirstFreeIs(v.bitmap, n, 0, n);
      return 0;
    }

    /** Zero a block. */
    method Bzero(b: nat)
      requires b < |v.files.data|
      modifies this`v
      ensures v == old(v).(files := WithBlock(old(v).files, b, Spec.Zero()), logged := old(v).logged + {b})
    {
      v := v.(files := WithBlock(v.files, b, Spec.Zero()), logged := v.logged + {b});
    }

    /** Free a disk block; answers false where the source panics. */
    method Bfree(b: nat) returns (ok: bool)
      requires Covers(v.bitmap, b)
      modifies this`v
      ensures var r := Trunc.Bfree(bmapstart, old(v), b); ok == r.Done? && v == if ok then r.v else old(v)
    {
      var bi := b % BPB;
      var m := Mask(bi % 8);
      BitAt(v.bitmap, b - bi, bi);
      var bp := v.bitmap[b / BPB];
      if bp[bi / 8] & m == 0 {
        return false;
      }
      bp := bp[bi / 8 := bp[bi / 8] & !m];
      v := v.(bitmap := v.bitmap[b / BPB := bp], logged := v.logged + {b / BPB + bmapstart});
      return true;
    }

    /** A block for an empty slot of the inode itself. */
    method AllocInto(i: nat, s: nat) returns (addr: nat)
      requires Ready(v) && i < |v.files.inodes| && s <= 12 && Addr(v.files, i, s) == 0
      modifies this`v
      ensures Spec.Found(v, addr) == Spec.UseSlot(bmapstart, old(v), i, s)
    {
      hide Bit, Spec.Balloc;
      addr := Balloc();
      if addr == 0 {
        return 0;
      }
      v := v.(files := WithSlot(v.files, i, s, addr));
    }

    /** The disk block of file block `bn`, allocated if there is none; 0 if the disk is full. */
    method Bmap(i: nat, bn: nat) returns (addr: nat)
      requires Ready(v) && i < |v.files.inodes| && bn < MAXFILE
      modifies this`v
      ensures Spec.Found(v, addr) == Spec.Bmap(bmapstart, old(v), i, bn) && Ready(v)
    {
      BmapReady(bmapstart, v, i, bn);
      if bn < NDIRECT {
        addr := v.files.inodes[i].addrs[bn];
        if addr == 0 {
          addr := AllocInto(i, bn);
        }
        return addr;
      }
      var e := bn - NDIRECT;
      addr := v.files.inodes[i].addrs[NDIRECT];
      UseSlotReady(bmapstart, v, i, 12);
      if addr == 0 {
        addr := AllocInto(i, NDIRECT);
        if addr == 0 {
          return 0;
        }
      }
      var ind := addr;
      addr := Word(v.files.data[ind], 4 * e, 4);
      if addr == 0 {
        addr := Balloc();
        if addr != 0 {
          v := v.(files := WithSlot(v.files, i, 13 + e, addr), logged := v.logged + {ind});
        }
      }
    }

    /** The loop of writei: how many bytes of `src` it could write at `off`. */
    method WriteLoop(i: nat, off: nat, src: seq<Byte>) returns (tot: nat)
      requires Spec.Good(v, reserved, owner) && Ready(v) && i < |v.files.inodes| && off + |src| <= 274432
      modifies this`v, this`owner
      ensures Spec.Written(v, tot) == Spec.WriteLoop(bmapstart, old(v), i, off, src, 0)
    {
      hide Spec.Good, Spec.Shaped, Spec.WriteLoop, Spec.Bmap, Spec.WritePiece, Spec.SameShape, Wf,
        Spec.Piece, Wrote, Ready, Spec.Overwrite;
      ReadyShaped(v);
      ghost var v0 := v;
      var n, pos := |src|, off;
      tot := 0;
      while tot < n
        invariant 0 <= tot <= n && pos == off + tot
        invariant Spec.Good(v, reserved, owner) && Ready(v) && Spec.Shaped(v) && |v.files.inodes| == |v0.files.inodes|
        invariant Spec.WriteLoop(bmapstart, v, i, off, src, tot) == Spec.WriteLoop(bmapstart, v0, i, off, src, 0)
      {
        WriteLoopTurn(bmapstart, v, i, off, src, tot);
        ghost var v1 := v;
        ghost var o1 := Spec.WriteTurn(bmapstart, reserved, v, owner, i, off, src, tot);
        var addr := Bmap(i, pos / 1024);
        owner := o1;
        ShapeFacts(v1, v);
        if addr == 0 {
          return;
        }
        var m := Spec.Min(n - tot, 1024 - pos % 1024);
        PieceWritten(v, addr, off, src, tot, m);
        WritePart(addr, pos % 1024, src[tot..tot + m]);
        ReadyShaped(v);
        tot, pos := tot + m, pos + m;
      }
      WriteLoopTurn(bmapstart, v, i, off, src, n);
    }

    /** Overwrite part of a block and log the block. */
    method WritePart(addr: nat, o: nat, x: seq<Byte>)
      requires addr < |v.files.data| && o + |x| <= 1024
      modifies this`v
      ensures v == old(v).(files := WithBlock(old(v).files, addr, Spec.Overwrite(old(v).files.data[addr], o, x)),
                           logged := old(v).logged + {addr})
    {
      v := v.(files := WithBlock(v.files, addr, Spec.Overwrite(v.files.data[addr], o, x)), logged := v.logged + {addr});
    }

    /** Write the bytes of `src` to file `i` at `off`. */
    method Writei(i: nat, off: Files.Uint, src: seq<Byte>) returns (ret: int)
      requires Valid() && i < |v.files.inodes| && |src| < 0x1_0000_0000
      modifies this`v, this`owner
      ensures Valid()
      ensures Spec.Shaped(old(v)) && Files.Result(v, ret) == Files.Writei(bmapstart, inodestart, old(v), i, off, src)
      ensures Files.Spliced(old(v), Files.Result(v, ret), i, off, src)
    {
      hide Spec.Good, Files.Filled, Spec.Shaped, Spec.WriteLoop, Wf, Ready, Files.Content, Files.Splice, Spec.Full;
      GoodFacts(v, reserved, owner);
      ghost var o' := Files.WriteiSplices(bmapstart, inodestart, reserved, v, owner, i, off, src);
      var n, size := |src|, v.files.inodes[i].size;
      if off > size || Files.Add32(off, n) < off {
        return -1;
      }
      if Files.Add32(off, n) > 274432 {
        return -1;
      }
      Files.RangeSum(off, n);
      var tot := WriteLoop(i, off, src);
      var end := off + tot;
      v := v.(files := Files.WithSize(v.files, i, if end > size then end else size),
              logged := v.logged + {i / 16 + inodestart});
      ret := tot;
      owner := o';
    }

    /** Read up to `n` bytes of file `i` at `off`: the slice that the file holds there. */
    method Readi(i: nat, off: Files.Uint, n: Files.Uint) returns (dst: seq<Byte>)
      requires Valid() && i < |v.files.inodes|
      modifies this`v
      ensures v == old(v)
      ensures var c := Files.Content(v.files, i);
        dst == if off > |c| || off + n >= 0x1_0000_0000 then [] else c[off..off + Spec.Min(n, |c| - off)]
    {
      hide Spec.Good, Files.Filled, Spec.Shaped, Wf, Ready, Files.Content, Spec.Bmap;
      GoodFacts(v, reserved, owner);
      Files.GoodContent(v, reserved, owner);
      Files.ContentLength(v.files, i);
      Files.RangeSum(off, n);
      ghost var v0, c := v, Files.Content(v.files, i);
      var size := v.files.inodes[i].size;
      if off > size || Files.Add32(off, n) < off {
        return [];
      }
      var n1 := if Files.Add32(off, n) > size then size - off else n;
      var tot, pos := 0, off;
      dst := [];
      while tot < n1
        invariant 0 <= tot <= n1 && pos == off + tot && v == v0 && dst == c[off..pos]
      {
        var m := Spec.Min(n1 - tot, 1024 - pos % 1024);
        Files.ReadTurn(bmapstart, v, i, pos, m);
        var addr := Bmap(i, pos / 1024);
        if addr == 0 {
          break;
        }
        dst := dst + v.files.data[addr][pos % 1024..pos % 1024 + m];
        Files.TwoSlices(c, off, pos, pos + m);
        tot, pos := tot + m, pos + m;
      }
    }

    /** Discard the contents of file `i`.  No bfree in here panics. */
    method Itrunc(i: nat)
      requires Valid() && i < |v.files.inodes|
      modifies this`v, this`owner
      ensures Valid()
      ensures Wf(old(v).files) && Trunc.Itrunc(bmapstart, inodestart, old(v), i) == Trunc.Done(v)
      ensures owner == Without(old(owner), i, 0, NSLOTS)
      ensures v.files == FileMap(old(v).files.inodes[i := Trunc.Empty()], old(v).files.data)
    {
      ghost var v0 := v;
      Trunc.ItruncFrees(bmapstart, inodestart, reserved, v, owner, i);
      FreeDirect(i);
      FreeIndirect(i);
      v := v.(files := Files.WithSize(v.files, i, 0), logged := v.logged + {i / 16 + inodestart});
      owner := Without(owner, i, 0, NSLOTS);
      FilledTrunc(v0.files, i);
    }

    /** The first loop of itrunc. */
    method FreeDirect(i: nat)
      requires Wf(v.files) && i < |v.files.inodes| && Trunc.FreeDirect(bmapstart, v, i, 0).Done?
      modifies this`v
      ensures Trunc.FreeDirect(bmapstart, old(v), i, 0) == Trunc.Done(v)
    {
      ghost var v0 := v;
      hide Trunc.Bfree, Wf;
      for k := 0 to 12
        invariant Wf(v.files) && i < |v.files.inodes|
        invariant Trunc.FreeDirect(bmapstart, v, i, k) == Trunc.FreeDirect(bmapstart, v0, i, 0)
      {
        Spec.IndirectAddr(v.files, i);
        var a := v.files.inodes[i].addrs[k];
        if a != 0 {
          BfreeCovers(bmapstart, v, a);
          var ok := Bfree(a);
          assert ok;
          v := Trunc.Cleared(v, i, k);
        }
      }
    }

    /** The second loop of itrunc, and the indirect block after it. */
    method FreeIndirect(i: nat)
      requires Wf(v.files) && i < |v.files.inodes| && Trunc.FreeIndirect(bmapstart, v, i).Done?
      modifies this`v
      ensures Trunc.FreeIndirect(bmapstart, old(v), i) == Trunc.Done(v)
    {
      ghost var v0 := v;
      hide Trunc.Bfree, Wf;
      Spec.IndirectAddr(v.files, i);
      var ind := v.files.inodes[i].addrs[NDIRECT];
      if ind != 0 {
        var a := v.files.data[ind];
        for j := 0 to NINDIRECT
          invariant v.files == v0.files
          invariant Trunc.FreeEntries(bmapstart, v, a, j) == Trunc.FreeEntries(bmapstart, v0, a, 0)
        {
          var b := Word(a, 4 * j, 4);
          if b != 0 {
            BfreeCovers(bmapstart, v, b);
            var ok := Bfree(b);
            assert ok;
          }
        }
        BfreeCovers(bmapstart, v, ind);
        var ok := Bfree(ind);
        assert ok;
        v := Trunc.Cleared(v, i, NDIRECT);
      }
    }

    /** filewrite on a file: write `src` at f->off, one transaction for each chunk.  `logs`
        are the blocks that each transaction logged.  Beyond the end of the file it
        refuses, and changes no file. */
    method FileWrite(i: nat, off: Files.Uint, src: seq<Byte>)
      returns (ret: int, off': Files.Uint, ghost logs: seq<set<nat>>)
      requires Valid() && i < |v.files.inodes|
      modifies this`v, this`owner
      ensures Valid()
      ensures off <= off' && off' - off <= |src| && Chunks.AllFit(logs)
      ensures off <= old(v).files.inodes[i].size ==> Chunks.SplicedTo(old(v).files, v.files, i, off, src[..off' - off])
      ensures ret == if off' - off == |src| then |src| else -1
      ensures off <= old(v).files.inodes[i].size && ret == -1 ==>
        Spec.Full(v) || off' + Spec.Min(Chunks.CHUNK, |src|) > 274432
      ensures off > old(v).files.inodes[i].size ==> off' == off && v.files == old(v).files
    {
      hide Spec.Good, Files.Filled, Spec.Shaped, Wf, Ready, Files.Content, Spec.Full, Chunks.SplicedTo, Chunks.AllFit,
        Chunks.Loop,
        Files.Writei, Files.Spliced;
      GoodFacts(v, reserved, owner);
      ghost var v0 := v;
      if off <= v.files.inodes[i].size {
        ghost var o' := Chunks.LoopWrites(bmapstart, inodestart, reserved, v, owner, i, off, src, 0);
      } else {
        Beyond(bmapstart, inodestart, v, i, off, src);
      }
      var n, done := |src|, 0;
      off', logs := off, [];
      while done < n
        invariant 0 <= done <= n && Valid() && |v.files.inodes| == |v0.files.inodes| && Spec.Shaped(v)
        invariant Chunks.Loop(bmapstart, inodestart, v0, i, off, src, 0) ==
          var p := Chunks.Loop(bmapstart, inodestart, v, i, off', src, done); p.(logs := logs + p.logs)
      {
        var n1 := n - done;
        if n1 > Chunks.CHUNK {
          n1 := Chunks.CHUNK;
        }
        Chunks.LoopTurn(bmapstart, inodestart, v, i, off', src, done, n1);
        Chunks.Relogged(v, reserved, owner);
        v := v.(logged := {});
        var r := Writei(i, off', src[done..done + n1]);
        logs := logs + [v.logged];
        if r > 0 {
          off' := off' + r;
        }
        if r != n1 {
          break;
        }
        done := done + r;
        Chunks.LogsJoin(logs[..|logs| - 1], v.logged, Chunks.Loop(bmapstart, inodestart, v, i, off', src, done).logs);
      }
      if done == n {
        Chunks.LoopEnd(bmapstart, inodestart, v, i, off', src);
        assert logs + [] == logs;
      }
      assert Chunks.Loop(bmapstart, inodestart, v0, i, off, src, 0) == Chunks.Progress(v, off', done, logs);
      assert src[0..0 + (off' - off)] == src[..off' - off];
      ret := if done == n then n else -1;
    }
  }

  lemma Beyond(bmapstart: nat, inodestart: nat, v: Spec.Volume, i: nat, off: Files.Uint, src: seq<Byte>)
    requires Spec.Shaped(v) && i < |v.files.inodes| && off > v.files.inodes[i].size
    ensures var p := Chunks.Loop(bmapstart, inodestart, v, i, off, src, 0);
      p.v.files == v.files && p.off == off && p.i == 0 && Chunks.AllFit(p.logs)
  {
    if |src| > 0 {
      Chunks.BeyondEnd(bmapstart, inodestart, v, i, off, src);
    }
  }

  lemma BfreeCovers(bmapstart: nat, v: Spec.Volume, b: nat)
    requires Trunc.Bfree(bmapstart, v, b).Done?
    ensures Covers(v.bitmap, b)
  {
  }

  lemma FilledTrunc(m: FileMap, i: nat)
    requires Files.Filled(m) && Wf(m) && i < |m.inodes| && |m.data| > 0
    ensures Files.Filled(FileMap(m.inodes[i := Trunc.Empty()], m.data))
  {
    var m' := FileMap(m.inodes[i := Trunc.Empty()], m.data);
    forall j, k | 0 <= j < |m'.inodes| && 0 <= k < m'.inodes[j].size ensures Held(m', j, k) {
      assert Held(m, j, k);
    }
  }

  lemma GoodFacts(v: Spec.Volume, reserved: set<nat>, owner: Owners)
    requires Spec.Good(v, reserved, owner) && |v.files.inodes| > 0
    ensures Spec.Shaped(v) && Wf(v.files) && Ready(v)
  {
    Spec.AllRoom(v, reserved, owner);
  }
}
