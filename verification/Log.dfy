/** kernel/log.c as it runs: the in-memory log header, the block cache in front of the
    disk, and the loops that write the disk one block at a time.  The history `trace`
    of disks proves that each loop makes exactly the writes of LogFormat. */
module Log {
  import opened Bytes
  import opened LogFormat

  type Cache = map<nat, Block>

  /** What bread returns for a block. */
  ghost function At(cache: Cache, disk: Disk, bn: nat): Block
    requires bn < |disk|
  {
    if bn in cache then cache[bn] else disk[bn]
  }

  /** `view` lists what bread returns for every home block. */
  ghost predicate Shows(L: Layout, cache: Cache, disk: Disk, view: Disk) {
    && |view| == |disk|
    && forall bn :: Home(L, disk, bn) ==> At(cache, disk, bn) == view[bn]
  }

  /** Buffers of blocks outside `lh` agree with the disk. */
  ghost predicate Coherent(cache: Cache, disk: Disk, lh: seq<nat>) {
    forall bn :: bn in cache ==> bn < |disk| && (bn !in lh ==> cache[bn] == disk[bn])
  }

  /** The log blocks hold the view of the blocks listed in `lh`. */
  ghost predicate LogHolds(L: Layout, disk: Disk, view: Disk, lh: seq<nat>) {
    forall i :: 0 <= i < |lh| ==>
      L.start + 1 + i < |disk| && lh[i] < |view| && disk[L.start + 1 + i] == view[lh[i]]
  }

  /** A crash that leaves this disk will be recovered to exactly this image. */
  ghost predicate RecoversTo(L: Layout, disk: Disk, image: Disk) {
    WellFormed(L, disk) && HasImage(L, disk, image)
  }

  /** A crash that leaves this disk will be recovered to what `d` would have been. */
  ghost predicate RecoversLike(L: Layout, disk: Disk, d: Disk) {
    WellFormed(L, disk) && WellFormed(L, d) && SameImage(L, d, disk)
  }

  // ---- the disks that each routine leaves behind, in order

  ghost function LogTrace(L: Layout, d: Disk, view: Disk, lh: seq<nat>, k: nat): (t: seq<Disk>)
    requires Loggable(L, d, lh) && |view| == |d| && k <= |lh|
    ensures |t| == k
  {
    if k == 0 then [] else LogTrace(L, d, view, lh, k - 1) + [Logged(L, d, view, lh, k)]
  }

  ghost function InstallTrace(L: Layout, d: Disk, lh: seq<nat>, k: nat): (t: seq<Disk>)
    requires Loggable(L, d, lh) && k <= |lh|
    ensures |t| == k
  {
    if k == 0 then [] else InstallTrace(L, d, lh, k - 1) + [Installed(L, d, lh, k)]
  }

  class Log {
    const L: Layout
    var disk: Disk
    /** The buffers of the cache, by block number. */
    var cache: Cache
    /** log.lh: the first `n` entries of `block` are in use. */
    var n: nat
    const block: array<nat>
    /** The blocks that the log keeps pinned in the cache. */
    var pinned: set<nat>
    /** The disk after each write, oldest first. */
    ghost var trace: seq<Disk>

    /** The header list. */
    ghost function Lh(): seq<nat>
      reads this, block
      requires n <= block.Length
    {
      block[..n]
    }

    ghost predicate Shape()
      reads this, block
    {
      && block.Length == LOGSIZE && n <= LOGSIZE
      && L.size >= 1 && Loggable(L, disk, Lh())
    }

    /** A machine that has just been switched on: the cache is empty. */
    constructor (layout: Layout, disk: Disk)
      ensures this.L == layout && this.disk == disk && this.cache == map[] && this.n == 0
      ensures this.block.Length == LOGSIZE && fresh(block) && this.trace == []
    {
      this.L := layout;
      this.disk := disk;
      this.cache := map[];
      this.n := 0;
      this.block := new nat[LOGSIZE](i => 0);
      this.pinned := {};
      this.trace := [];
    }

    method Bread(bn: nat) returns (b: Block)
      requires bn < |disk|
      modifies this`cache
      ensures b == At(old(cache), disk, bn) && cache == old(cache)[bn := b]
    {
      if bn !in cache {
        cache := cache[bn := disk[bn]];
      }
      b := cache[bn];
      assert cache == old(cache)[bn := b];
    }

    /** Give the buffer of `bn` the contents `b` and write it to the disk. */
    method Bwrite(bn: nat, b: Block)
      requires bn < |disk|
      modifies this`cache, this`disk, this`trace
      ensures cache == old(cache)[bn := b] && disk == old(disk)[bn := b]
      ensures trace == old(trace) + [disk]
    {
      cache := cache[bn := b];
      disk := disk[bn := b];
      trace := trace + [disk];
    }

    /** Copy modified blocks from the cache to the log. */
    method WriteLog(ghost view: Disk)
      requires Shape() && Coherent(cache, disk, Lh()) && Shows(L, cache, disk, view)
      modifies this`cache, this`disk, this`trace
      ensures Shape() && Coherent(cache, disk, Lh()) && Shows(L, cache, disk, view)
      ensures Loggable(L, old(disk), Lh()) && disk == Logged(L, old(disk), view, Lh(), n)
      ensures trace == old(trace) + LogTrace(L, old(disk), view, Lh(), n)
    {
      hide Loggable, Coherent, Shows, At, Logged, LogTrace;
      ShowsLength(L, cache, disk, view);
      ghost var lh := Lh();
      LogNone(L, disk, view, lh);
      var tail := 0;
      while tail < n
        invariant tail <= n && Loggable(L, disk, lh) && Coherent(cache, disk, lh) && Shows(L, cache, disk, view)
        invariant |view| == |old(disk)|
        invariant Loggable(L, old(disk), lh) && disk == Logged(L, old(disk), view, lh, tail)
        invariant trace == old(trace) + LogTrace(L, old(disk), view, lh, tail)
      {
        LogBlockCopied(L, cache, disk, view, lh, tail);
        LogMore(L, old(disk), view, lh, tail);
        var to := Bread(L.start + tail + 1);
        var from := Bread(block[tail]);
        to := from;
        Bwrite(L.start + tail + 1, to);
        tail := tail + 1;
      }
    }

    /** Write the in-memory header list to the header block. */
    method WriteHead()
      requires block.Length == LOGSIZE && n <= LOGSIZE && L.start < |disk| && Coherent(cache, disk, Lh())
      requires L.start !in Lh()
      modifies this`cache, this`disk, this`trace
      ensures disk == old(disk)[L.start := PutHead(old(disk)[L.start], Lh(), n)]
      ensures cache == old(cache)[L.start := disk[L.start]]
      ensures trace == old(trace) + [disk]
    {
      var hb := Bread(L.start);
      ghost var before := hb;
      hb := PutWord(hb, 0, 4, n);
      var i := 0;
      while i < n
        invariant i <= n && hb == PutHead(before, Lh(), i)
      {
        hb := PutWord(hb, 4 * (i + 1), 4, block[i]);
        i := i + 1;
      }
      Bwrite(L.start, hb);
    }

    /** Copy committed blocks from the log to their home location. */
    method InstallTrans(recovering: bool, ghost view: Disk)
      requires Shape() && Coherent(cache, disk, Lh())
      requires recovering || (Shows(L, cache, disk, view) && LogHolds(L, disk, view, Lh()))
      modifies this`cache, this`disk, this`trace, this`pinned
      ensures Shape() && Coherent(cache, disk, [])
      ensures Loggable(L, old(disk), Lh()) && disk == Installed(L, old(disk), Lh(), n)
      ensures trace == old(trace) + InstallTrace(L, old(disk), Lh(), n)
      ensures !recovering ==> Shows(L, cache, disk, view)
      ensures pinned == if recovering then old(pinned) else old(pinned) - set bn | bn in Lh()
    {
      hide Loggable, Coherent, Shows, At, LogHolds;
      ghost var lh := Lh();
      assert lh[0..] == lh;
      var tail := 0;
      while tail < n
        invariant tail <= n && Loggable(L, disk, lh) && Coherent(cache, disk, lh[tail..])
        invariant !recovering ==> Shows(L, cache, disk, view)
        invariant !recovering ==> LogHolds(L, disk, view, lh)
        invariant Loggable(L, old(disk), lh) && disk == Installed(L, old(disk), lh, tail)
        invariant trace == old(trace) + InstallTrace(L, old(disk), lh, tail)
        invariant pinned == if recovering then old(pinned) else old(pinned) - set bn | bn in lh[..tail]
      {
        BlockInstalled(L, cache, disk, view, lh, tail, recovering);
        var lbuf := Bread(L.start + tail + 1);
        var dbuf := Bread(block[tail]);
        dbuf := lbuf;
        Bwrite(block[tail], dbuf);
        if !recovering {
          assert lh[..tail + 1] == lh[..tail] + [block[tail]];
          pinned := pinned - {block[tail]};
        }
        tail := tail + 1;
      }
      assert lh[n..] == [] && lh[..n] == lh;
    }

    /** The first half of commit, up to the commit point. */
    method Record(ghost view: Disk)
      requires Shape() && Coherent(cache, disk, Lh()) && Shows(L, cache, disk, view)
      modifies this`cache, this`disk, this`trace
      ensures Shape() && Coherent(cache, disk, Lh()) && Shows(L, cache, disk, view)
      ensures |view| == |old(disk)| && Loggable(L, old(disk), Lh())
      ensures disk == CommitPoint(L, old(disk), view, Lh())
      ensures trace == old(trace) + LogTrace(L, old(disk), view, Lh(), n) + [disk]
    {
      ghost var lh := Lh();
      HeadBufferWritten(L, cache, disk, disk[L.start], lh);
      assert |view| == |disk|;
      hide Loggable, Coherent, Shows, Logged, PutHead;
      WriteLog(view);
      HeadBufferWritten(L, cache, disk, PutHead(disk[L.start], lh, n), lh);
      HeadBufferShows(L, cache, disk, PutHead(disk[L.start], lh, n), view);
      WriteHead();
    }

    /** What commit and recovery share: install every listed block, then clear the
        header in memory and on disk. */
    method InstallAndClear(recovering: bool, ghost view: Disk)
      requires Shape() && Coherent(cache, disk, Lh())
      requires recovering || (Shows(L, cache, disk, view) && LogHolds(L, disk, view, Lh()))
      requires pinned == if recovering then {} else set bn | bn in Lh()
      modifies this`cache, this`disk, this`trace, this`pinned, this`n
      ensures Shape() && n == 0 && pinned == {} && Coherent(cache, disk, [])
      ensures !recovering ==> Shows(L, cache, disk, view)
      ensures var d := old(disk); var lh := old(Lh());
        && Loggable(L, d, lh)
        && trace == old(trace) + InstallTrace(L, d, lh, |lh|) + [disk]
        && disk == Cleared(L, Installed(L, d, lh, |lh|))
    {
      hide Loggable, Coherent, Shows, LogHolds, Installed, PutHead;
      InstallTrans(recovering, view);
      LoggableNone(L, disk, Lh());
      HeadBufferWritten(L, cache, disk, PutHead(disk[L.start], [], 0), []);
      if !recovering {
        HeadBufferShows(L, cache, disk, PutHead(disk[L.start], [], 0), view);
      }
      n := 0;
      assert Lh() == [];
      WriteHead();
    }

    /** The state between commits. */
    ghost predicate Valid()
      reads this, block
    {
      && Shape() && Coherent(cache, disk, Lh())
      && WellFormed(L, disk) && Head(L, disk) == []
      && pinned == set bn | bn in Lh()
    }

    /** Group commit: makes the `2n + 2` writes of LogFormat, leaves what the cache shows
        as it was, and ends with an empty header list and nothing pinned.  Whichever of
        the disks on the way a crash leaves behind, it recovers to the old contents up to
        the n-th write and to what the cache showed from the next one on. */
    method Commit(ghost view: Disk)
      requires Valid() && Shows(L, cache, disk, view)
      modifies this`cache, this`disk, this`trace, this`pinned, this`n
      ensures Valid() && Shows(L, cache, disk, view) && n == 0
      ensures old(n) > 0 ==> trace == old(trace) + CommitTrace(L, old(disk), view, old(Lh()))
      ensures old(n) == 0 ==> trace == old(trace) && disk == old(disk)
      ensures |trace| >= |old(trace)| && forall k :: |old(trace)| <= k < |trace| ==>
        RecoversTo(L, trace[k], if k - |old(trace)| < old(n) then old(disk) else view)
    {
      if n > 0 {
        ghost var d0, lh := disk, Lh();
        CommitFacts(L, cache, d0, view, lh);
        CommitRecovers(L, cache, d0, view, lh);
        hide Loggable, Coherent, Shows, LogHolds, WellFormed, Head, Logged, Installed, PutHead, RecoversTo;
        Record(view);
        InstallAndClear(false, view);
        Regroup(old(trace), LogTrace(L, d0, view, lh, |lh|), CommitPoint(L, d0, view, lh),
          InstallTrace(L, CommitPoint(L, d0, view, lh), lh, |lh|), disk);
      }
    }

    /** The list that the header block holds becomes the list in memory. */
    method ReadHeader()
      requires block.Length == LOGSIZE && WellFormed(L, disk) && Coherent(cache, disk, [])
      modifies this`cache, this`n, block
      ensures n <= LOGSIZE && Lh() == Head(L, disk)
      ensures Coherent(cache, disk, [])
    {
      var b := Bread(L.start);
      n := Word(b, 0, 4);
      var i := 0;
      while i < n
        modifies block
        invariant i <= n
        invariant forall j :: 0 <= j < i ==> block[j] == Word(b, 4 * (j + 1), 4)
      {
        block[i] := Word(b, 4 * (i + 1), 4);
        i := i + 1;
      }
    }

    /** Recovery after a crash, with an empty cache and any disk that a crash can leave:
        makes the writes of LogFormat and ends in a valid state whose cache shows the
        image of the crashed disk. */
    method RecoverFromLog()
      requires block.Length == LOGSIZE && WellFormed(L, disk) && cache == map[] && pinned == {}
      modifies this`cache, this`disk, this`trace, this`pinned, this`n, block
      ensures Valid() && n == 0
      ensures trace == old(trace) + RecoverTrace(L, old(disk))
      ensures disk == RecoverDisk(L, old(disk), |Head(L, old(disk))| + 1)
      ensures forall bn :: Home(L, disk, bn) ==> At(cache, disk, bn) == Image(L, old(disk), bn)
      ensures |trace| >= |old(trace)|
      ensures forall k :: |old(trace)| <= k < |trace| ==> RecoversLike(L, trace[k], old(disk))
    {
      ghost var d0 := disk;
      RecoverFacts(L, d0);
      RecoverRecovers(L, d0);
      ReadHeader();
      CoherentForMore(cache, disk, Lh());
      hide Loggable, Coherent, Shows, LogHolds, WellFormed, Head, Installed, PutHead, Image, At, RecoversLike;
      InstallAndClear(true, d0);
      CoherentShowsDisk(L, cache, disk);
    }

    /** Record that the caller has changed the buffer of block `bn`.  Answers false
        where the source panics: the header is full, the log area is, or no operation
        is outstanding.  A block that is listed already is absorbed. */
    method LogWrite(bn: nat, outstanding: int) returns (ok: bool)
      requires block.Length == LOGSIZE && n <= LOGSIZE && pinned == set b | b in Lh()
      modifies this`n, this`pinned, block
      ensures ok <==> old(n) < LOGSIZE && old(n) < L.size - 1 && outstanding >= 1
      ensures n <= LOGSIZE && pinned == set b | b in Lh()
      ensures Lh() == if !ok || bn in old(Lh()) then old(Lh()) else old(Lh()) + [bn]
    {
      if n >= LOGSIZE || n >= L.size - 1 {
        return false;
      }
      if outstanding < 1 {
        return false;
      }
      var i := 0;
      while i < n
        invariant i <= n && bn !in block[..i]
      {
        if block[i] == bn {
          break;
        }
        i := i + 1;
      }
      assert i < n ==> bn in block[..n];
      block[i] := bn;
      if i == n {
        pinned := pinned + {bn};
        n := n + 1;
      }
      ok := true;
      assert i < old(n) ==> Lh() == old(Lh());
      assert i == old(n) ==> Lh() == old(Lh()) + [bn];
    }
  }

  ghost function CommitTrace(L: Layout, d: Disk, view: Disk, lh: seq<nat>): (t: seq<Disk>)
    requires Loggable(L, d, lh) && |view| == |d|
    ensures |t| == 2 * |lh| + 2
  {
    var n := |lh|;
    LogTrace(L, d, view, lh, n) + [CommitPoint(L, d, view, lh)]
    + InstallTrace(L, CommitPoint(L, d, view, lh), lh, n) + [CommitDisk(L, d, view, lh, 2 * n + 2)]
  }

  ghost function RecoverTrace(L: Layout, d: Disk): (t: seq<Disk>)
    requires WellFormed(L, d)
    ensures |t| == |Head(L, d)| + 1
  {
    var n := |Head(L, d)|;
    InstallTrace(L, d, Head(L, d), n) + [RecoverDisk(L, d, n + 1)]
  }

  lemma ShowsLength(L: Layout, cache: Cache, disk: Disk, view: Disk)
    requires Shows(L, cache, disk, view)
    ensures |view| == |disk|
  {
  }

  lemma LogNone(L: Layout, d: Disk, view: Disk, lh: seq<nat>)
    requires Loggable(L, d, lh) && |view| == |d|
    ensures Logged(L, d, view, lh, 0) == d && LogTrace(L, d, view, lh, 0) == []
  {
  }

  lemma LogMore(L: Layout, d: Disk, view: Disk, lh: seq<nat>, k: nat)
    requires Loggable(L, d, lh) && |view| == |d| && k < |lh|
    ensures L.start + 1 + k < |d| && lh[k] < |d|
    ensures Logged(L, d, view, lh, k + 1) == Logged(L, d, view, lh, k)[L.start + 1 + k := view[lh[k]]]
    ensures LogTrace(L, d, view, lh, k + 1) == LogTrace(L, d, view, lh, k) + [Logged(L, d, view, lh, k + 1)]
  {
  }

  lemma {:induction false} LogTraceAt(L: Layout, d: Disk, view: Disk, lh: seq<nat>, k: nat, i: nat)
    requires Loggable(L, d, lh) && |view| == |d| && i < k <= |lh|
    ensures LogTrace(L, d, view, lh, k)[i] == Logged(L, d, view, lh, i + 1)
  {
    if i < k - 1 {
      LogTraceAt(L, d, view, lh, k - 1, i);
    }
  }

  lemma {:induction false} InstallTraceAt(L: Layout, d: Disk, lh: seq<nat>, k: nat, i: nat)
    requires Loggable(L, d, lh) && i < k <= |lh|
    ensures InstallTrace(L, d, lh, k)[i] == Installed(L, d, lh, i + 1)
  {
    if i < k - 1 {
      InstallTraceAt(L, d, lh, k - 1, i);
    }
  }

  /** The k-th disk that commit leaves behind is the one whose crash was analysed. */
  lemma CommitTraceAt(L: Layout, d: Disk, view: Disk, lh: seq<nat>, k: nat)
    requires Loggable(L, d, lh) && |view| == |d| && 1 <= k <= 2 * |lh| + 2
    requires Loggable(L, CommitPoint(L, d, view, lh), lh)
    ensures CommitTrace(L, d, view, lh)[k - 1] == CommitDisk(L, d, view, lh, k)
  {
    var n := |lh|;
    if k <= n {
      LogTraceAt(L, d, view, lh, n, k - 1);
    } else if n + 1 < k < 2 * n + 2 {
      InstallTraceAt(L, CommitPoint(L, d, view, lh), lh, n, k - n - 2);
    }
  }

  lemma RecoverTraceAt(L: Layout, d: Disk, k: nat)
    requires WellFormed(L, d) && 1 <= k <= |Head(L, d)| + 1
    ensures RecoverTrace(L, d)[k - 1] == RecoverDisk(L, d, k)
  {
    if k <= |Head(L, d)| {
      InstallTraceAt(L, d, Head(L, d), |Head(L, d)|, k - 1);
    }
  }

  /** Crash atomicity, for each disk of a commit. */
  lemma CommitRecovers(L: Layout, cache: Cache, d: Disk, view: Disk, lh: seq<nat>)
    requires WellFormed(L, d) && Head(L, d) == [] && Loggable(L, d, lh) && |view| == |d|
    requires Coherent(cache, d, lh) && Shows(L, cache, d, view) && Loggable(L, CommitPoint(L, d, view, lh), lh)
    ensures forall k :: 0 <= k < 2 * |lh| + 2 ==>
      RecoversTo(L, CommitTrace(L, d, view, lh)[k], if k < |lh| then d else view)
  {
    hide Loggable, WellFormed, Head, CommitDisk, CommitPoint, CommitTrace, HasImage;
    forall k | 0 <= k < 2 * |lh| + 2
      ensures RecoversTo(L, CommitTrace(L, d, view, lh)[k], if k < |lh| then d else view)
    {
      CommitTraceAt(L, d, view, lh, k + 1);
      CommitImage(L, d, view, lh, k + 1);
    }
  }

  lemma RecoverRecovers(L: Layout, d: Disk)
    requires WellFormed(L, d)
    ensures forall k :: 0 <= k < |Head(L, d)| + 1 ==> RecoversLike(L, RecoverTrace(L, d)[k], d)
  {
    hide WellFormed, Head, RecoverDisk, RecoverTrace, SameImage;
    forall k | 0 <= k < |Head(L, d)| + 1
      ensures RecoversLike(L, RecoverTrace(L, d)[k], d)
    {
      RecoverTraceAt(L, d, k + 1);
      RecoverKeepsImage(L, d, k + 1);
    }
  }

  /** Copying a buffer of the header list into its log block keeps the cache coherent
      and what it shows. */
  lemma LogBlockCopied(L: Layout, cache: Cache, disk: Disk, view: Disk, lh: seq<nat>, i: nat)
    requires Loggable(L, disk, lh) && i < |lh|
    requires Coherent(cache, disk, lh) && Shows(L, cache, disk, view)
    ensures L.start + i + 1 < |disk| && lh[i] < |disk|
    ensures var c1 := cache[L.start + i + 1 := At(cache, disk, L.start + i + 1)];
      var b := At(c1, disk, lh[i]);
      var disk' := disk[L.start + i + 1 := b];
      var cache' := c1[lh[i] := b][L.start + i + 1 := b];
      && b == view[lh[i]]
      && Loggable(L, disk', lh) && Coherent(cache', disk', lh) && Shows(L, cache', disk', view)
  {
  }

  /** Copying a log block home makes the buffer and the disk agree on it. */
  lemma BlockInstalled(L: Layout, cache: Cache, disk: Disk, view: Disk, lh: seq<nat>, i: nat, recovering: bool)
    requires Loggable(L, disk, lh) && i < |lh|
    requires Coherent(cache, disk, lh[i..])
    requires !recovering ==> Shows(L, cache, disk, view)
    requires !recovering ==> LogHolds(L, disk, view, lh)
    ensures L.start + i + 1 < |disk| && lh[i] < |disk|
    ensures var b := At(cache, disk, L.start + i + 1);
      var c1 := cache[L.start + i + 1 := b];
      var disk' := disk[lh[i] := b];
      var cache' := c1[lh[i] := At(c1, disk, lh[i])][lh[i] := b];
      && b == disk[L.start + i + 1]
      && Loggable(L, disk', lh) && Coherent(cache', disk', lh[i + 1..])
      && (!recovering ==> Shows(L, cache', disk', view))
      && (!recovering ==> LogHolds(L, disk', view, lh))
  {
  }

  /** The facts about the stages of a commit that hold because the log is well formed. */
  lemma CommitFacts(L: Layout, cache: Cache, d: Disk, view: Disk, lh: seq<nat>)
    requires WellFormed(L, d) && Head(L, d) == [] && Loggable(L, d, lh)
    requires Coherent(cache, d, lh) && Shows(L, cache, d, view)
    ensures L.start < |d| && L.start !in lh && |view| == |d|
    ensures LogHolds(L, CommitPoint(L, d, view, lh), view, lh)
    ensures Loggable(L, CommitPoint(L, d, view, lh), lh)
    ensures var d' := CommitDisk(L, d, view, lh, 2 * |lh| + 2); WellFormed(L, d') && Head(L, d') == []
  {
    hide PutHead, ReadHead, HeadReadable, Position, Image;
    forall bn | Home(L, d, bn) && bn !in lh ensures d[bn] == view[bn] {
      assert At(cache, d, bn) == view[bn];
    }
    LoggedKeepsImage(L, d, view, lh, |lh|);
    CommitImage(L, d, view, lh, 2 * |lh| + 2);
  }

  lemma LoggableNone(L: Layout, d: Disk, lh: seq<nat>)
    requires L.size >= 1 && Loggable(L, d, lh)
    ensures Loggable(L, d, []) && L.start < |d|
  {
  }

  /** Writing the header block keeps the cache coherent and what it shows. */
  lemma HeadBufferWritten(L: Layout, cache: Cache, d: Disk, h: Block, lh: seq<nat>)
    requires L.size >= 1 && Loggable(L, d, lh) && Coherent(cache, d, lh)
    ensures L.start < |d| && L.start !in lh
    ensures var d' := d[L.start := h]; Loggable(L, d', lh) && Coherent(cache[L.start := h], d', lh)
  {
  }

  lemma HeadBufferShows(L: Layout, cache: Cache, d: Disk, h: Block, view: Disk)
    requires L.size >= 1 && L.start < |d| && Shows(L, cache, d, view)
    ensures Shows(L, cache[L.start := h], d[L.start := h], view)
  {
  }

  lemma CoherentForMore(cache: Cache, d: Disk, lh: seq<nat>)
    requires Coherent(cache, d, [])
    ensures Coherent(cache, d, lh)
  {
  }

  lemma CoherentShowsDisk(L: Layout, cache: Cache, d: Disk)
    requires Coherent(cache, d, [])
    ensures forall bn :: Home(L, d, bn) ==> At(cache, d, bn) == d[bn]
  {
  }

  lemma RecoverFacts(L: Layout, d: Disk)
    requires WellFormed(L, d)
    ensures Loggable(L, d, Head(L, d)) && L.size >= 1
    ensures var d' := RecoverDisk(L, d, |Head(L, d)| + 1);
      && WellFormed(L, d') && Head(L, d') == []
      && Loggable(L, Installed(L, d, Head(L, d), |Head(L, d)|), [])
      && forall bn :: Home(L, d', bn) ==> Home(L, d, bn) && d'[bn] == Image(L, d, bn)
  {
    hide PutHead, ReadHead, HeadReadable, Position;
    RecoverKeepsImage(L, d, |Head(L, d)| + 1);
    var d' := RecoverDisk(L, d, |Head(L, d)| + 1);
    forall bn | Home(L, d', bn) ensures d'[bn] == Image(L, d, bn) {
      assert Image(L, d, bn) == Image(L, d', bn);
    }
  }

  lemma Regroup(t: seq<Disk>, a: seq<Disk>, c: Disk, b: seq<Disk>, e: Disk)
    ensures t + a + [c] + b + [e] == t + (a + [c] + b + [e])
  {
  }
}
