/** filewrite's loop over chunks (kernel/file.c), one transaction per chunk. */
module FileWrite {
  import opened Bytes
  import opened LogFormat
  import opened BlockMap
  import opened FsSpec
  import opened FsFiles

  /** The most that one chunk writes: ((MAXOPBLOCKS - 1 - 1 - 2) / 2) * BSIZE. */
  const CHUNK := 3072

  /** Where the loop stands: the volume, f->off, the bytes of whole chunks written, and
      the set of blocks that each transaction logged. */
  datatype Progress = Progress(v: Volume, off: Uint, i: nat, logs: seq<set<nat>>)

  /** One turn of the loop: begin_op, writei, end_op. */
  function Chunk(bmapstart: nat, inodestart: nat, v: Volume, ino: nat, off: Uint, src: seq<Byte>, i: nat): (r: Result)
    requires Shaped(v) && ino < |v.files.inodes| && i < |src|
    ensures Shaped(r.v) && |r.v.files.inodes| == |v.files.inodes|
    ensures r.ret == -1 || (0 <= r.ret <= Min(CHUNK, |src| - i) && off + r.ret <= 274432)
  {
    Writei(bmapstart, inodestart, v.(logged := {}), ino, off, src[i..i + Min(CHUNK, |src| - i)])
  }

  function Loop(bmapstart: nat, inodestart: nat, v: Volume, ino: nat, off: Uint, src: seq<Byte>, i: nat): (p: Progress)
    requires Shaped(v) && ino < |v.files.inodes| && i <= |src|
    ensures i <= p.i <= |src|
    decreases |src| - i
  {
    if i == |src| then Progress(v, off, i, [])
    else
      var r := Chunk(bmapstart, inodestart, v, ino, off, src, i);
      var off' := if r.ret > 0 then off + r.ret else off;
      if r.ret != Min(CHUNK, |src| - i) then Progress(r.v, off', i, [r.v.logged])
      else
        var p := Loop(bmapstart, inodestart, r.v, ino, off', src, i + r.ret);
        p.(logs := [r.v.logged] + p.logs)
  }

  /** One turn of the loop, in terms of the part of `src` that it writes. */
  lemma LoopTurn(bmapstart: nat, inodestart: nat, v: Volume, ino: nat, off: Uint, src: seq<Byte>, i: nat, n1: nat)
    requires Shaped(v) && ino < |v.files.inodes| && i < |src| && n1 == Min(CHUNK, |src| - i)
    ensures Shaped(v.(logged := {}))
    ensures var r := Writei(bmapstart, inodestart, v.(logged := {}), ino, off, src[i..i + n1]);
      var off' := if r.ret > 0 then off + r.ret else off;
      && Shaped(r.v) && |r.v.files.inodes| == |v.files.inodes| && r.ret <= n1 && off' < 0x1_0000_0000
      && Loop(bmapstart, inodestart, v, ino, off, src, i) ==
         if r.ret != n1 then Progress(r.v, off', i, [r.v.logged])
         else
           var p := Loop(bmapstart, inodestart, r.v, ino, off', src, i + n1); p.(logs := [r.v.logged] + p.logs)
  {
    hide Shaped, Writei;
    Relogged0(v);
  }

  lemma LoopEnd(bmapstart: nat, inodestart: nat, v: Volume, ino: nat, off: Uint, src: seq<Byte>)
    requires Shaped(v) && ino < |v.files.inodes|
    ensures Loop(bmapstart, inodestart, v, ino, off, src, |src|) == Progress(v, off, |src|, [])
  {
  }

  lemma LogsJoin(a: seq<set<nat>>, x: set<nat>, b: seq<set<nat>>)
    ensures a + ([x] + b) == (a + [x]) + b
  {
  }

  lemma Relogged0(v: Volume)
    requires Shaped(v)
    ensures Shaped(v.(logged := {}))
  {
  }

  /** What filewrite returns. */
  function Return(p: Progress, n: nat): int {
    if p.i == n then n else -1
  }

  // ---- what the loop achieves

  ghost predicate AllFit(logs: seq<set<nat>>) {
    forall t :: 0 <= t < |logs| ==> |logs[t]| <= MAXOPBLOCKS
  }

  /** `m'` is `m` with `x` spliced into file `ino` at `off`. */
  ghost predicate SplicedTo(m: FileMap, m': FileMap, ino: nat, off: nat, x: seq<Byte>) {
    && Filled(m) && Filled(m') && ino < |m.inodes| && |m'.inodes| == |m.inodes|
    && off <= |Content(m, ino)|
    && Content(m', ino) == Splice(Content(m, ino), off, x)
    && forall j :: 0 <= j < |m.inodes| && j != ino ==> Content(m', j) == Content(m, j)
  }

  lemma SpliceTwice(c: seq<Byte>, off: nat, x: seq<Byte>, y: seq<Byte>)
    requires off <= |c|
    ensures off + |x| <= |Splice(c, off, x)|
    ensures Splice(Splice(c, off, x), off + |x|, y) == Splice(c, off, x + y)
  {
  }

  lemma SplicedTwice(m: FileMap, m1: FileMap, m2: FileMap, ino: nat, off: nat, x: seq<Byte>, y: seq<Byte>)
    requires SplicedTo(m, m1, ino, off, x) && SplicedTo(m1, m2, ino, off + |x|, y)
    ensures SplicedTo(m, m2, ino, off, x + y)
  {
    hide Filled, Content, Splice;
    SpliceTwice(Content(m, ino), off, x, y);
  }

  lemma SplicedNone(m: FileMap, ino: nat, off: nat)
    requires Filled(m) && ino < |m.inodes| && off <= m.inodes[ino].size
    ensures SplicedTo(m, m, ino, off, [])
  {
  }

  /** One chunk: at most MAXOPBLOCKS blocks logged, its bytes in the file. */
  lemma ChunkWrites(bmapstart: nat, inodestart: nat, reserved: set<nat>, v: Volume, owner: Owners,
                    ino: nat, off: Uint, src: seq<Byte>, i: nat)
    returns (owner': Owners)
    requires Good(v, reserved, owner) && Shaped(v) && Filled(v.files) && ino < |v.files.inodes| && i < |src|
    requires off <= v.files.inodes[ino].size
    ensures var r := Chunk(bmapstart, inodestart, v, ino, off, src, i);
      && Good(r.v, reserved, owner') && Filled(r.v.files)
      && |r.v.logged| <= MAXOPBLOCKS
      && (r.ret == -1 ==> r.v.files == v.files && off + Min(CHUNK, |src| - i) > 274432)
      && (r.ret >= 0 ==> SplicedTo(v.files, r.v.files, ino, off, src[i..i + r.ret]))
      && (0 <= r.ret < Min(CHUNK, |src| - i) ==> Full(r.v))
  {
    hide Good, Filled, Shaped, Writei, Full, Content, Splice;
    var v0 := v.(logged := {});
    var x := src[i..i + Min(CHUNK, |src| - i)];
    Relogged(v, reserved, owner);
    ContentLength(v.files, ino);
    owner' := WriteiSplices(bmapstart, inodestart, reserved, v0, owner, ino, off, x);
    ChunkFits(bmapstart, inodestart, reserved, v0, owner, ino, off, x);
    var r := Writei(bmapstart, inodestart, v0, ino, off, x);
    if r.ret >= 0 {
      assert x[..r.ret] == src[i..i + r.ret];
    }
  }

  lemma Relogged(v: Volume, reserved: set<nat>, owner: Owners)
    requires Good(v, reserved, owner) && Shaped(v)
    ensures Good(v.(logged := {}), reserved, owner) && Shaped(v.(logged := {}))
  {
  }

  lemma OffsetKept(m: FileMap, m': FileMap, ino: nat, off: nat, x: seq<Byte>)
    requires SplicedTo(m, m', ino, off, x)
    ensures off + |x| <= m'.inodes[ino].size
  {
  }

  /** What the loop achieves from byte `i` on: every transaction fits; the bytes by which
      f->off moved are spliced into the file in one piece and no other file changes;
      all bytes are written exactly if the loop ran to the end; and it stops early
      only if the disk is full or the file would grow too large. */
  ghost predicate Achieved(v: Volume, p: Progress, ino: nat, off: nat, src: seq<Byte>, i: nat)
    requires i <= |src|
  {
    && AllFit(p.logs) && off <= p.off && i + (p.off - off) <= |src|
    && SplicedTo(v.files, p.v.files, ino, off, src[i..i + (p.off - off)])
    && (p.i == |src| <==> i + (p.off - off) == |src|)
    && p.i <= |src| && (p.i < |src| ==> Full(p.v) || p.off + Min(CHUNK, |src| - p.i) > 274432)
  }

  lemma AchievedNothing(v: Volume, v': Volume, ino: nat, off: Uint, src: seq<Byte>, i: nat, logs: seq<set<nat>>)
    requires Filled(v.files) && ino < |v.files.inodes| && off <= v.files.inodes[ino].size && i <= |src|
    requires v'.files == v.files && AllFit(logs) && (i < |src| ==> off + Min(CHUNK, |src| - i) > 274432)
    ensures Achieved(v, Progress(v', off, i, logs), ino, off, src, i)
  {
    hide Filled, SplicedTo, Full;
    SplicedNone(v.files, ino, off);
    assert src[i..i + 0] == [];
  }

  lemma AchievedMore(v: Volume, w: Volume, p: Progress, ino: nat, off: nat, src: seq<Byte>, i: nat, n: nat)
    requires i + n <= |src| && |w.logged| <= MAXOPBLOCKS && SplicedTo(v.files, w.files, ino, off, src[i..i + n])
    requires Achieved(w, p, ino, off + n, src, i + n)
    ensures Achieved(v, p.(logs := [w.logged] + p.logs), ino, off, src, i)
  {
    hide SplicedTo, Full;
    var e := i + (p.off - off);
    SplicedTwice(v.files, w.files, p.v.files, ino, off, src[i..i + n], src[i + n..e]);
    TwoSlices(src, i, i + n, e);
  }

  /** filewrite achieves what it should, from any file offset that is within the file. */
  lemma {:induction false} LoopWrites(bmapstart: nat, inodestart: nat, reserved: set<nat>, v: Volume, owner: Owners,
                                      ino: nat, off: Uint, src: seq<Byte>, i: nat)
    returns (owner': Owners)
    requires Good(v, reserved, owner) && Shaped(v) && Filled(v.files) && ino < |v.files.inodes| && i <= |src|
    requires off <= v.files.inodes[ino].size
    ensures var p := Loop(bmapstart, inodestart, v, ino, off, src, i);
      Good(p.v, reserved, owner') && Achieved(v, p, ino, off, src, i)
    decreases |src| - i
  {
    hide Good, Filled, Shaped, Chunk, Full, SplicedTo, Achieved;
    if i == |src| {
      owner' := owner;
      AchievedNothing(v, v, ino, off, src, i, []);
    } else {
      owner' := ChunkWrites(bmapstart, inodestart, reserved, v, owner, ino, off, src, i);
      var r := Chunk(bmapstart, inodestart, v, ino, off, src, i);
      if r.ret == -1 {
        AchievedNothing(v, r.v, ino, off, src, i, [r.v.logged]);
      } else if r.ret != Min(CHUNK, |src| - i) {
        AchievedPart(v, r.v, ino, off, src, i, r.ret);
      } else {
        OffsetKept(v.files, r.v.files, ino, off, src[i..i + r.ret]);
        owner' := LoopWrites(bmapstart, inodestart, reserved, r.v, owner', ino, off + r.ret, src, i + r.ret);
        AchievedMore(v, r.v, Loop(bmapstart, inodestart, r.v, ino, off + r.ret, src, i + r.ret), ino, off, src, i,
                     r.ret);
      }
    }
  }

  lemma AchievedPart(v: Volume, w: Volume, ino: nat, off: Uint, src: seq<Byte>, i: nat, n: nat)
    requires i + n < |src| && |w.logged| <= MAXOPBLOCKS && Full(w) && off + n < 0x1_0000_0000
    requires SplicedTo(v.files, w.files, ino, off, src[i..i + n])
    ensures Achieved(v, Progress(w, off + n, i, [w.logged]), ino, off, src, i)
  {
    hide SplicedTo, Full;
  }

  /** An offset beyond the end of the file: the first writei refuses and nothing happens. */
  lemma BeyondEnd(bmapstart: nat, inodestart: nat, v: Volume, ino: nat, off: Uint, src: seq<Byte>)
    requires Shaped(v) && ino < |v.files.inodes| && off > v.files.inodes[ino].size && |src| > 0
    ensures var p := Loop(bmapstart, inodestart, v, ino, off, src, 0);
      p == Progress(v.(logged := {}), off, 0, [{}]) && Return(p, |src|) == -1
  {
  }
}
