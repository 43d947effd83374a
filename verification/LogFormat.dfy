/** The on-disk log of kernel/log.c: a header block that lists home block numbers,
    followed by one log block per entry.  The disk writes of `commit` and
    `recover_from_log` are given here as functions of the starting disk, and what a
    disk will hold after recovery as its *image*. */
module LogFormat {
  import opened Bytes

  const BSIZE := 1024
  const LOGSIZE := 30
  const MAXOPBLOCKS := 10

  type Block = b: seq<Byte> | |b| == BSIZE witness seq(BSIZE, i => 0)
  type Disk = seq<Block>

  /** Where the superblock puts the log: the header at `start`, log blocks behind it. */
  datatype Layout = Layout(start: nat, size: nat)

  predicate InLog(L: Layout, bn: int) {
    L.start <= bn < L.start + L.size
  }

  /** A block number the file system may log: on the disk, outside the log, and small
      enough for the 32-bit header entry. */
  predicate Home(L: Layout, disk: Disk, bn: int) {
    0 <= bn < |disk| && !InLog(L, bn) && bn < 0x1_0000_0000
  }

  predicate NoDuplicates(s: seq<nat>) {
    forall i, j :: 0 <= i < j < |s| ==> s[i] != s[j]
  }

  /** A list of home blocks that fits both the header and the log area. */
  predicate Loggable(L: Layout, disk: Disk, lh: seq<nat>) {
    && |lh| <= LOGSIZE && |lh| < L.size
    && L.start + L.size <= |disk|
    && NoDuplicates(lh)
    && forall i :: 0 <= i < |lh| ==> Home(L, disk, lh[i])
  }

  // ---- the header block

  /** The header block after `write_head` has stored the count and `k` entries. */
  function PutHead(b: Block, lh: seq<nat>, k: nat): Block
    requires k <= |lh| <= LOGSIZE
  {
    if k == 0 then PutWord(b, 0, 4, |lh|) else PutWord(PutHead(b, lh, k - 1), 4 * k, 4, lh[k - 1])
  }

  predicate HeadReadable(b: Block) {
    Word(b, 0, 4) <= LOGSIZE
  }

  /** What `read_head` loads. */
  function ReadHead(b: Block): (lh: seq<nat>)
    requires HeadReadable(b)
    ensures |lh| <= LOGSIZE
  {
    seq(Word(b, 0, 4), i requires 0 <= i < Word(b, 0, 4) => Word(b, 4 * (i + 1), 4))
  }

  lemma Pow256Of4()
    ensures Pow256(4) == 0x1_0000_0000
  {
    assert Pow256(1) == 256 && Pow256(2) == 0x1_0000 && Pow256(3) == 0x100_0000;
  }

  lemma {:induction false} PutHeadWords(b: Block, lh: seq<nat>, k: nat)
    requires k <= |lh| <= LOGSIZE
    requires forall i :: 0 <= i < |lh| ==> lh[i] < 0x1_0000_0000
    ensures Word(PutHead(b, lh, k), 0, 4) == |lh|
    ensures forall i :: 0 <= i < k ==> Word(PutHead(b, lh, k), 4 * (i + 1), 4) == lh[i]
  {
    Pow256Of4();
    if k == 0 {
      WordOfPut(b, 0, 4, |lh|);
    } else {
      var p := PutHead(b, lh, k - 1);
      PutHeadWords(b, lh, k - 1);
      WordElsewhere(p, 4 * k, 4, lh[k - 1], 0, 4);
      WordOfPut(p, 4 * k, 4, lh[k - 1]);
      forall i | 0 <= i < k - 1 ensures Word(PutHead(b, lh, k), 4 * (i + 1), 4) == lh[i] {
        WordElsewhere(p, 4 * k, 4, lh[k - 1], 4 * (i + 1), 4);
      }
    }
  }

  /** Reading a header back gives the list that was written, whatever the block held. */
  lemma HeadRoundTrip(b: Block, lh: seq<nat>)
    requires |lh| <= LOGSIZE
    requires forall i :: 0 <= i < |lh| ==> lh[i] < 0x1_0000_0000
    ensures HeadReadable(PutHead(b, lh, |lh|)) && ReadHead(PutHead(b, lh, |lh|)) == lh
  {
    PutHeadWords(b, lh, |lh|);
  }

  // ---- what a disk recovers to

  /** A disk whose log is in order: every state that a crash can leave behind is one. */
  predicate WellFormed(L: Layout, disk: Disk) {
    && L.size >= 1 && L.start + L.size <= |disk|
    && HeadReadable(disk[L.start])
    && Loggable(L, disk, ReadHead(disk[L.start]))
  }

  function Head(L: Layout, disk: Disk): seq<nat>
    requires WellFormed(L, disk)
  {
    ReadHead(disk[L.start])
  }

  function Position(s: seq<nat>, x: nat): (i: nat)
    requires x in s
    ensures i < |s| && s[i] == x
  {
    if s[0] == x then 0 else 1 + Position(s[1..], x)
  }

  /** The contents that block `bn` will have once recovery has run to its end: the log
      copy if the header names the block, and the block itself otherwise. */
  function Image(L: Layout, disk: Disk, bn: nat): Block
    requires WellFormed(L, disk) && Home(L, disk, bn)
  {
    if bn in Head(L, disk) then disk[L.start + 1 + Position(Head(L, disk), bn)] else disk[bn]
  }

  ghost predicate SameImage(L: Layout, d: Disk, d': Disk)
    requires WellFormed(L, d) && WellFormed(L, d')
  {
    && |d| == |d'|
    && forall bn :: Home(L, d, bn) ==> Image(L, d, bn) == Image(L, d', bn)
  }

  /** `disk` holds exactly `image` in its home blocks once recovered. */
  ghost predicate HasImage(L: Layout, disk: Disk, image: Disk)
    requires WellFormed(L, disk)
  {
    && |disk| == |image|
    && forall bn :: Home(L, disk, bn) ==> Image(L, disk, bn) == image[bn]
  }

  // ---- single disk writes and their effect on the image

  /** A log block is written while the header is empty: the image does not move. */
  lemma LogBlockWrite(L: Layout, d: Disk, i: nat, b: Block)
    requires WellFormed(L, d) && Head(L, d) == [] && 1 <= i < L.size
    ensures var d' := d[L.start + i := b];
      WellFormed(L, d') && Head(L, d') == [] && SameImage(L, d, d')
  {
  }

  /** A header that names complete log blocks makes `view` the image. */
  lemma HeadMakesImage(L: Layout, d: Disk, view: Disk, lh: seq<nat>)
    requires WellFormed(L, d) && Head(L, d) == lh && |view| == |d|
    requires forall i :: 0 <= i < |lh| ==> d[L.start + 1 + i] == view[lh[i]]
    requires forall bn :: Home(L, d, bn) && bn !in lh ==> d[bn] == view[bn]
    ensures HasImage(L, d, view)
  {
    hide ReadHead, HeadReadable, Position, NoDuplicates;
    forall bn | Home(L, d, bn) ensures Image(L, d, bn) == view[bn] {
      if bn in lh {
        var i := Position(lh, bn);
        assert Image(L, d, bn) == d[L.start + 1 + i] == view[lh[i]];
      }
    }
  }

  /** The header is written over complete log blocks: the image becomes `view`. */
  lemma HeadWrite(L: Layout, d: Disk, view: Disk, lh: seq<nat>)
    requires L.size >= 1 && Loggable(L, d, lh) && |view| == |d|
    requires forall i :: 0 <= i < |lh| ==> d[L.start + 1 + i] == view[lh[i]]
    requires forall bn :: Home(L, d, bn) && bn !in lh ==> d[bn] == view[bn]
    ensures var d' := d[L.start := PutHead(d[L.start], lh, |lh|)];
      WellFormed(L, d') && Head(L, d') == lh && HasImage(L, d', view)
  {
    hide PutHead, ReadHead, HeadReadable, Position, Image;
    HeadRoundTrip(d[L.start], lh);
    HeadMakesImage(L, d[L.start := PutHead(d[L.start], lh, |lh|)], view, lh);
  }

  /** A log block is copied home: the image does not move, and the block now holds it. */
  lemma InstallWrite(L: Layout, d: Disk, i: nat)
    requires WellFormed(L, d) && i < |Head(L, d)|
    ensures var d' := d[Head(L, d)[i] := d[L.start + 1 + i]];
      && WellFormed(L, d') && Head(L, d') == Head(L, d) && SameImage(L, d, d')
      && d'[Head(L, d)[i]] == Image(L, d, Head(L, d)[i])
  {
    var lh := Head(L, d);
    var d' := d[lh[i] := d[L.start + 1 + i]];
    assert d'[L.start] == d[L.start];
    assert Position(lh, lh[i]) == i;
  }

  /** The header is cleared once every logged block is home: the image does not move. */
  lemma ClearWrite(L: Layout, d: Disk)
    requires WellFormed(L, d)
    requires forall bn :: bn in Head(L, d) ==> d[bn] == Image(L, d, bn)
    ensures var d' := Cleared(L, d);
      WellFormed(L, d') && Head(L, d') == [] && SameImage(L, d, d')
  {
    HeadRoundTrip(d[L.start], []);
  }

  // ---- the disk after each write of recovery and of commit

  /** The disk after `k` blocks of `install_trans` for the list `lh`. */
  function Installed(L: Layout, d: Disk, lh: seq<nat>, k: nat): (d': Disk)
    requires Loggable(L, d, lh) && k <= |lh|
    ensures |d'| == |d|
  {
    if k == 0 then d
    else var p := Installed(L, d, lh, k - 1); p[lh[k - 1] := p[L.start + k]]
  }

  /** The disk after `write_head` with an empty list. */
  function Cleared(L: Layout, d: Disk): (d': Disk)
    requires L.start < |d|
    ensures |d'| == |d|
  {
    d[L.start := PutHead(d[L.start], [], 0)]
  }

  /** The disk after `k` of the writes of `recover_from_log`: the installs, then the
      cleared header. */
  function RecoverDisk(L: Layout, d: Disk, k: nat): (d': Disk)
    requires WellFormed(L, d) && k <= |Head(L, d)| + 1
    ensures |d'| == |d|
  {
    var n := |Head(L, d)|;
    if k <= n then Installed(L, d, Head(L, d), k)
    else Cleared(L, Installed(L, d, Head(L, d), n))
  }

  /** The disk after `k` log blocks of `write_log`. */
  function Logged(L: Layout, d: Disk, view: Disk, lh: seq<nat>, k: nat): (d': Disk)
    requires Loggable(L, d, lh) && |view| == |d| && k <= |lh|
    ensures |d'| == |d|
  {
    if k == 0 then d
    else Logged(L, d, view, lh, k - 1)[L.start + k := view[lh[k - 1]]]
  }

  /** The disk right after the commit point, the first `write_head`. */
  function CommitPoint(L: Layout, d: Disk, view: Disk, lh: seq<nat>): (d': Disk)
    requires Loggable(L, d, lh) && |view| == |d|
    ensures |d'| == |d|
  {
    var p := Logged(L, d, view, lh, |lh|);
    p[L.start := PutHead(p[L.start], lh, |lh|)]
  }

  /** The disk after `k` of the `2n + 2` writes of a commit of `n` blocks. */
  function CommitDisk(L: Layout, d: Disk, view: Disk, lh: seq<nat>, k: nat): (d': Disk)
    requires Loggable(L, d, lh) && |view| == |d| && k <= 2 * |lh| + 2
    ensures |d'| == |d|
  {
    var n := |lh|;
    if k <= n then Logged(L, d, view, lh, k)
    else
      var c := CommitPoint(L, d, view, lh);
      if k <= 2 * n + 1 then Installed(L, c, lh, k - n - 1)
      else Cleared(L, Installed(L, c, lh, n))
  }

  // ---- crash safety of every single write

  lemma {:induction false} InstalledKeepsImage(L: Layout, d: Disk, k: nat)
    requires WellFormed(L, d) && k <= |Head(L, d)|
    ensures var d' := Installed(L, d, Head(L, d), k);
      && WellFormed(L, d') && Head(L, d') == Head(L, d) && SameImage(L, d, d')
      && forall i :: 0 <= i < k ==> d'[Head(L, d)[i]] == Image(L, d, Head(L, d)[i])
  {
    hide PutHead, ReadHead, HeadReadable, Position;
    if k > 0 {
      var lh := Head(L, d);
      var p := Installed(L, d, lh, k - 1);
      InstalledKeepsImage(L, d, k - 1);
      InstallWrite(L, p, k - 1);
      var d' := Installed(L, d, lh, k);
      forall i | 0 <= i < k ensures d'[lh[i]] == Image(L, d, lh[i]) {
        assert Home(L, d, lh[i]);
      }
    }
  }

  /** Recovery may stop after any of its writes and leaves the image as it found it;
      run to its end it also empties the header, so the home blocks are the image. */
  lemma RecoverKeepsImage(L: Layout, d: Disk, k: nat)
    requires WellFormed(L, d) && k <= |Head(L, d)| + 1
    ensures var d' := RecoverDisk(L, d, k);
      && WellFormed(L, d') && SameImage(L, d, d')
      && (k == |Head(L, d)| + 1 ==> Head(L, d') == [])
  {
    var n := |Head(L, d)|;
    if k <= n {
      InstalledKeepsImage(L, d, k);
    } else {
      InstalledKeepsImage(L, d, n);
      ClearWrite(L, Installed(L, d, Head(L, d), n));
    }
  }

  lemma {:induction false} LoggedKeepsImage(L: Layout, d: Disk, view: Disk, lh: seq<nat>, k: nat)
    requires WellFormed(L, d) && Head(L, d) == [] && Loggable(L, d, lh) && |view| == |d| && k <= |lh|
    ensures var d' := Logged(L, d, view, lh, k);
      && WellFormed(L, d') && Head(L, d') == [] && SameImage(L, d, d')
      && (forall i :: 0 <= i < k ==> d'[L.start + 1 + i] == view[lh[i]])
  {
    if k > 0 {
      LoggedKeepsImage(L, d, view, lh, k - 1);
      LogBlockWrite(L, Logged(L, d, view, lh, k - 1), k, view[lh[k - 1]]);
    }
  }

  lemma CommitPointImage(L: Layout, d: Disk, view: Disk, lh: seq<nat>)
    requires WellFormed(L, d) && Head(L, d) == [] && Loggable(L, d, lh) && |view| == |d|
    requires forall bn :: Home(L, d, bn) && bn !in lh ==> d[bn] == view[bn]
    ensures var d' := CommitPoint(L, d, view, lh);
      WellFormed(L, d') && Head(L, d') == lh && HasImage(L, d', view)
  {
    LoggedKeepsImage(L, d, view, lh, |lh|);
    var p := Logged(L, d, view, lh, |lh|);
    forall bn | Home(L, d, bn) && bn !in lh ensures p[bn] == view[bn] {
      assert Image(L, d, bn) == Image(L, p, bn);
    }
    HeadWrite(L, p, view, lh);
  }

  /** Up to and including the last log block a commit leaves the old image in place;
      from the first header write on, the image is what the cache held. */
  lemma CommitImage(L: Layout, d: Disk, view: Disk, lh: seq<nat>, k: nat)
    requires WellFormed(L, d) && Head(L, d) == [] && Loggable(L, d, lh) && |view| == |d|
    requires forall bn :: Home(L, d, bn) && bn !in lh ==> d[bn] == view[bn]
    requires k <= 2 * |lh| + 2
    ensures var d' := CommitDisk(L, d, view, lh, k);
      && WellFormed(L, d')
      && HasImage(L, d', if k <= |lh| then d else view)
      && (k == 2 * |lh| + 2 ==> Head(L, d') == [])
  {
    var n := |lh|;
    if k <= n {
      LoggedKeepsImage(L, d, view, lh, k);
    } else {
      CommitPointImage(L, d, view, lh);
      var c := CommitPoint(L, d, view, lh);
      if k <= 2 * n + 1 {
        InstalledKeepsImage(L, c, k - n - 1);
      } else {
        InstalledKeepsImage(L, c, n);
        ClearWrite(L, Installed(L, c, lh, n));
      }
    }
  }

  /** The disk after a series of recoveries that were each cut short by a crash:
      `cuts[i]` is the number of writes the i-th recovery managed. */
  function Reboots(L: Layout, d: Disk, cuts: seq<nat>): (d': Disk)
    requires WellFormed(L, d)
    ensures WellFormed(L, d') && |d'| == |d|
    decreases |cuts|
  {
    if cuts == [] then d
    else
      var k := if cuts[0] <= |Head(L, d)| + 1 then cuts[0] else |Head(L, d)| + 1;
      RecoverKeepsImage(L, d, k);
      Reboots(L, RecoverDisk(L, d, k), cuts[1..])
  }

  lemma {:induction false} RebootsKeepImage(L: Layout, d: Disk, cuts: seq<nat>)
    requires WellFormed(L, d)
    ensures SameImage(L, d, Reboots(L, d, cuts))
    decreases |cuts|
  {
    if cuts != [] {
      var k := if cuts[0] <= |Head(L, d)| + 1 then cuts[0] else |Head(L, d)| + 1;
      RecoverKeepsImage(L, d, k);
      RebootsKeepImage(L, RecoverDisk(L, d, k), cuts[1..]);
    }
  }

  /** However often recovery is cut short, the run that finishes installs the image. */
  lemma RecoveredImage(L: Layout, c: Disk, cuts: seq<nat>, bn: nat)
    requires WellFormed(L, c) && Home(L, c, bn)
    ensures var crashed := Reboots(L, c, cuts);
      RecoverDisk(L, crashed, |Head(L, crashed)| + 1)[bn] == Image(L, c, bn)
  {
    RebootsKeepImage(L, c, cuts);
    var crashed := Reboots(L, c, cuts);
    RecoverKeepsImage(L, crashed, |Head(L, crashed)| + 1);
    var final := RecoverDisk(L, crashed, |Head(L, crashed)| + 1);
    assert Image(L, c, bn) == Image(L, crashed, bn) == Image(L, final, bn);
  }

  /** Crash atomicity.  Let a commit of `lh` crash after any number `k` of its writes,
      let any number of recoveries crash too, and let one recovery finish: the home
      blocks are then all as before the commit if the first header write had not been
      reached, and all as the cache held them otherwise. */
  lemma CrashAtomicity(L: Layout, d: Disk, view: Disk, lh: seq<nat>, k: nat, cuts: seq<nat>, bn: nat)
    requires WellFormed(L, d) && Head(L, d) == [] && Loggable(L, d, lh) && |view| == |d|
    requires forall b :: Home(L, d, b) && b !in lh ==> d[b] == view[b]
    requires k <= 2 * |lh| + 2 && Home(L, d, bn)
    ensures WellFormed(L, CommitDisk(L, d, view, lh, k))
    ensures var crashed := Reboots(L, CommitDisk(L, d, view, lh, k), cuts);
      RecoverDisk(L, crashed, |Head(L, crashed)| + 1)[bn] == if k <= |lh| then d[bn] else view[bn]
  {
    CommitImage(L, d, view, lh, k);
    RecoveredImage(L, CommitDisk(L, d, view, lh, k), cuts, bn);
  }
}
