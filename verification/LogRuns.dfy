/** Every run of the logging layer of kernel/log.c: operations that begin, write and
    end in any interleaving, group commits that write the disk one block at a time,
    crashes between any two writes, and recoveries that may crash as well. */
module LogRuns {
  import opened Bytes
  import opened LogFormat

  /** What the machine is doing to the disk.  `base` is the disk on which the present
      commit or recovery started and `k` the number of its writes made so far. */
  datatype Phase =
    | Idle
    | Commit(k: nat, base: Disk)
    | Boot(k: nat, base: Disk)
    | Panic

  /** `view` is what bread returns for each block, `ops` maps each operation between
      begin_op and end_op to the number of blocks it has added to the header, `asleep`
      are the callers of begin_op sleeping on the log, and `committed` lists the views
      that were made durable, oldest first. */
  datatype State = State(
    disk: Disk,
    view: Disk,
    lh: seq<nat>,
    outstanding: int,
    ops: map<nat, nat>,
    asleep: set<nat>,
    phase: Phase,
    committed: seq<Disk>)

  predicate Init(L: Layout, s: State) {
    && WellFormed(L, s.disk) && Head(L, s.disk) == []
    && s == State(s.disk, s.disk, [], 0, map[], {}, Idle, [s.disk])
  }

  /** The header entries set aside for `n` operations, `n * MAXOPBLOCKS`. */
  function Reservation(n: int): int {
    10 * n
  }

  // ---- steps

  /** One turn of the loop in begin_op: sleep, or be admitted. */
  predicate BeginOp(L: Layout, s: State, s': State, p: nat) {
    && (s.phase.Idle? || s.phase.Commit?)
    && p !in s.ops && p !in s.asleep
    && s' == if s.phase.Commit? || |s.lh| + Reservation(s.outstanding + 1) > LOGSIZE
             then s.(asleep := s.asleep + {p})
             else s.(outstanding := s.outstanding + 1, ops := s.ops[p := 0])
  }

  /** An operation changes a block in the cache and calls log_write.  An operation adds
      at most MAXOPBLOCKS new blocks; rewriting a logged block is always allowed. */
  predicate LogWrite(L: Layout, s: State, s': State, p: nat, bn: nat, b: Block) {
    && (s.phase.Idle? || s.phase.Commit?)
    && p in s.ops && |s.view| == |s.disk| && Home(L, s.disk, bn)
    && (bn in s.lh || s.ops[p] < MAXOPBLOCKS)
    && s' == if |s.lh| >= LOGSIZE || |s.lh| >= L.size - 1 || s.outstanding < 1
             then s.(phase := Panic)
             else if bn in s.lh then s.(view := s.view[bn := b])
             else s.(view := s.view[bn := b], lh := s.lh + [bn], ops := s.ops[p := s.ops[p] + 1])
  }

  /** The critical section of end_op: the last operation out starts the commit. */
  predicate EndOp(L: Layout, s: State, s': State, p: nat) {
    && (s.phase.Idle? || s.phase.Commit?)
    && p in s.ops
    && var t := s.(outstanding := s.outstanding - 1, ops := s.ops - {p});
       s' == if s.phase.Commit? then t.(phase := Panic)
             else if t.outstanding == 0 then t.(phase := Commit(0, s.disk))
             else t.(asleep := {})
  }

  /** One disk write of commit. */
  predicate CommitWrite(L: Layout, s: State, s': State) {
    && s.phase.Commit? && s.lh != []
    && var k := s.phase.k + 1;
       && Loggable(L, s.phase.base, s.lh) && |s.view| == |s.phase.base| && k <= 2 * |s.lh| + 2
       && s' == s.(disk := CommitDisk(L, s.phase.base, s.view, s.lh, k),
                   phase := Commit(k, s.phase.base),
                   committed := if k == |s.lh| + 1 then s.committed + [s.view] else s.committed)
  }

  /** After commit: the header list is empty, sleepers are woken. */
  predicate CommitEnd(L: Layout, s: State, s': State) {
    && s.phase.Commit?
    && (s.lh == [] || s.phase.k == 2 * |s.lh| + 2)
    && s' == s.(lh := [], asleep := {}, phase := Idle)
  }

  /** Power fails: only the disk survives, and the boot reads the header. */
  predicate Crash(L: Layout, s: State, s': State) {
    && WellFormed(L, s.disk)
    && s' == State(s.disk, s.disk, Head(L, s.disk), 0, map[], {}, Boot(0, s.disk), s.committed)
  }

  /** One disk write of recover_from_log; the last one opens the file system. */
  predicate BootWrite(L: Layout, s: State, s': State) {
    && s.phase.Boot?
    && WellFormed(L, s.phase.base) && s.phase.k <= |Head(L, s.phase.base)|
    && var d := RecoverDisk(L, s.phase.base, s.phase.k + 1);
       s' == if s.phase.k < |Head(L, s.phase.base)|
             then s.(disk := d, view := d, phase := Boot(s.phase.k + 1, s.phase.base))
             else s.(disk := d, view := d, lh := [], phase := Idle)
  }

  datatype Event =
    | Begin(p: nat) | Write(p: nat, bn: nat, b: Block) | End(p: nat)
    | DiskWrite | Finish | PowerFail | Replay

  predicate Step(L: Layout, s: State, s': State, e: Event) {
    match e
    case Begin(p) => BeginOp(L, s, s', p)
    case Write(p, bn, b) => LogWrite(L, s, s', p, bn, b)
    case End(p) => EndOp(L, s, s', p)
    case DiskWrite => CommitWrite(L, s, s')
    case Finish => CommitEnd(L, s, s')
    case PowerFail => Crash(L, s, s')
    case Replay => BootWrite(L, s, s')
  }

  /** `run` is an execution: it starts with an empty log and takes the listed steps. */
  predicate Run(L: Layout, run: seq<State>, events: seq<Event>) {
    && |run| == |events| + 1
    && Init(L, run[0])
    && forall i :: 0 <= i < |events| ==> Step(L, run[i], run[i + 1], events[i])
  }

  // ---- reserved log space

  /** Header entries that the outstanding operations may still add. */
  ghost function Unused(ops: map<nat, nat>): (u: int)
  {
    if |ops| == 0 then 0
    else
      var p :| p in ops;
      MAXOPBLOCKS - ops[p] + Unused(ops - {p})
  }

  lemma {:induction false} UnusedWithout(ops: map<nat, nat>, p: nat)
    requires p in ops
    ensures Unused(ops) == MAXOPBLOCKS - ops[p] + Unused(ops - {p})
    decreases |ops|
  {
    var q :| q in ops && Unused(ops) == MAXOPBLOCKS - ops[q] + Unused(ops - {q});
    if q != p {
      UnusedWithout(ops - {q}, p);
      UnusedWithout(ops - {p}, q);
      assert ops - {q} - {p} == ops - {p} - {q};
    }
  }

  lemma UnusedPut(ops: map<nat, nat>, p: nat, u: nat)
    ensures Unused(ops[p := u]) == MAXOPBLOCKS - u + Unused(ops - {p})
  {
    UnusedWithout(ops[p := u], p);
    assert ops[p := u] - {p} == ops - {p};
  }

  lemma {:induction false} UnusedBounds(ops: map<nat, nat>)
    requires forall p :: p in ops ==> ops[p] <= MAXOPBLOCKS
    ensures 0 <= Unused(ops) <= Reservation(|ops|)
    decreases |ops|
  {
    if |ops| > 0 {
      var p :| p in ops;
      UnusedWithout(ops, p);
      UnusedBounds(ops - {p});
    }
  }

  // ---- the invariant

  ghost predicate Reserved(s: State) {
    && s.outstanding == |s.ops|
    && (forall p :: p in s.ops ==> s.ops[p] <= MAXOPBLOCKS)
    && |s.lh| + Unused(s.ops) <= LOGSIZE
  }

  /** The cache may differ from the disk only in the blocks of the header list. */
  ghost predicate CleanOutsideLog(L: Layout, disk: Disk, view: Disk, lh: seq<nat>) {
    && |view| == |disk|
    && forall bn :: Home(L, disk, bn) && bn !in lh ==> disk[bn] == view[bn]
  }

  ghost predicate SameHome(L: Layout, d: Disk, d': Disk) {
    && |d| == |d'|
    && forall bn :: Home(L, d, bn) ==> d[bn] == d'[bn]
  }

  /** Recovering the present disk would bring back the last committed view. */
  ghost predicate Durable(L: Layout, s: State) {
    WellFormed(L, s.disk) && s.committed != [] && HasImage(L, s.disk, s.committed[|s.committed| - 1])
  }

  ghost predicate IdleOk(L: Layout, s: State) {
    && WellFormed(L, s.disk) && Head(L, s.disk) == []
    && Loggable(L, s.disk, s.lh) && CleanOutsideLog(L, s.disk, s.view, s.lh)
    && (s.ops == map[] ==> s.lh == [])
    && (s.asleep != {} ==> |s.lh| + Reservation(s.outstanding + 1) > LOGSIZE)
  }

  ghost predicate CommitOk(L: Layout, s: State)
    requires s.phase.Commit?
  {
    var base := s.phase.base;
    && s.ops == map[]
    && WellFormed(L, base) && Head(L, base) == [] && Loggable(L, base, s.lh)
    && CleanOutsideLog(L, base, s.view, s.lh)
    && s.phase.k <= 2 * |s.lh| + 2 && (s.lh == [] ==> s.phase.k == 0)
    && s.disk == CommitDisk(L, base, s.view, s.lh, s.phase.k)
    && s.committed != []
    && SameHome(L, if s.phase.k <= |s.lh| then base else s.view, s.committed[|s.committed| - 1])
  }

  ghost predicate BootOk(L: Layout, s: State)
    requires s.phase.Boot?
  {
    && s.ops == map[] && s.asleep == {}
    && WellFormed(L, s.phase.base) && s.phase.k <= |Head(L, s.phase.base)|
    && s.lh == Head(L, s.phase.base)
    && s.disk == RecoverDisk(L, s.phase.base, s.phase.k)
  }

  ghost predicate Inv(L: Layout, s: State) {
    && Durable(L, s)
    && (!s.phase.Panic? ==> Reserved(s))
    && match s.phase
       case Idle => IdleOk(L, s)
       case Commit(_, _) => CommitOk(L, s)
       case Boot(_, _) => BootOk(L, s)
       case Panic => true
  }

  // ---- every step keeps the invariant

  lemma AdmitKeeps(L: Layout, s: State, s': State, p: nat)
    requires Inv(L, s) && BeginOp(L, s, s', p) && p in s'.ops
    ensures Inv(L, s')
  {
    hide Head, WellFormed, HasImage, SameHome, CommitDisk, Unused, Loggable, CleanOutsideLog;
    UnusedPut(s.ops, p, 0);
    UnusedBounds(s.ops);
    assert s.ops - {p} == s.ops;
  }

  lemma BeginOpKeeps(L: Layout, s: State, s': State, p: nat)
    requires Inv(L, s) && BeginOp(L, s, s', p)
    ensures Inv(L, s')
  {
    hide Head, WellFormed, HasImage, SameHome, CommitDisk, Unused, Loggable, CleanOutsideLog;
    if p in s'.ops {
      AdmitKeeps(L, s, s', p);
    }
  }

  /** A view and header list that both move by one logged write stay consistent. */
  lemma LogWriteKeeps(L: Layout, s: State, s': State, p: nat, bn: nat, b: Block)
    requires Inv(L, s) && LogWrite(L, s, s', p, bn, b)
    ensures Inv(L, s')
  {
    hide ReadHead, HeadReadable, Image, Unused, Position;
    if !s'.phase.Panic? && bn !in s.lh {
      UnusedWithout(s.ops, p);
      UnusedPut(s.ops, p, s.ops[p] + 1);
    }
  }

  lemma EndOpKeeps(L: Layout, s: State, s': State, p: nat)
    requires Inv(L, s) && EndOp(L, s, s', p)
    ensures Inv(L, s')
  {
    hide ReadHead, HeadReadable, Position, Unused;
    UnusedWithout(s.ops, p);
    UnusedBounds(s.ops - {p});
    assert |s.ops - {p}| == |s.ops| - 1;
  }

  lemma CommitWriteKeeps(L: Layout, s: State, s': State)
    requires Inv(L, s) && CommitWrite(L, s, s')
    ensures Inv(L, s')
  {
    hide ReadHead, HeadReadable, Position, CommitDisk, Unused;
    CommitImage(L, s.phase.base, s.view, s.lh, s.phase.k + 1);
  }

  lemma CommitEndKeeps(L: Layout, s: State, s': State)
    requires Inv(L, s) && CommitEnd(L, s, s')
    ensures Inv(L, s')
  {
    if s.lh != [] {
      CommitImage(L, s.phase.base, s.view, s.lh, s.phase.k);
    }
  }

  lemma CrashKeeps(L: Layout, s: State, s': State)
    requires Inv(L, s) && Crash(L, s, s')
    ensures Inv(L, s')
  {
  }

  lemma BootWriteKeeps(L: Layout, s: State, s': State)
    requires Inv(L, s) && BootWrite(L, s, s')
    ensures Inv(L, s')
  {
    hide ReadHead, HeadReadable, Position, RecoverDisk, Unused;
    RecoverKeepsImage(L, s.phase.base, s.phase.k);
    RecoverKeepsImage(L, s.phase.base, s.phase.k + 1);
  }

  lemma StepKeeps(L: Layout, s: State, s': State, e: Event)
    requires Inv(L, s) && Step(L, s, s', e)
    ensures Inv(L, s')
  {
    hide Inv, BeginOp, LogWrite, EndOp, CommitWrite, CommitEnd, Crash, BootWrite;
    match e
    case Begin(p) => BeginOpKeeps(L, s, s', p);
    case Write(p, bn, b) => LogWriteKeeps(L, s, s', p, bn, b);
    case End(p) => EndOpKeeps(L, s, s', p);
    case DiskWrite => CommitWriteKeeps(L, s, s');
    case Finish => CommitEndKeeps(L, s, s');
    case PowerFail => CrashKeeps(L, s, s');
    case Replay => BootWriteKeeps(L, s, s');
  }

  lemma InitInv(L: Layout, s: State)
    requires Init(L, s)
    ensures Inv(L, s)
  {
  }

  lemma {:induction false} RunInv(L: Layout, run: seq<State>, events: seq<Event>, i: nat)
    requires Run(L, run, events) && i < |run|
    ensures Inv(L, run[i])
    decreases i
  {
    hide Inv, Init, Step;
    if i == 0 {
      InitInv(L, run[0]);
    } else {
      RunInv(L, run, events, i - 1);
      StepKeeps(L, run[i - 1], run[i], events[i - 1]);
    }
  }

  // ---- what holds in every run

  /** Durability.  Cut any run short at any point, let any number of recoveries crash,
      and let one finish: every home block holds the last committed view. */
  lemma DurableRun(L: Layout, run: seq<State>, events: seq<Event>, i: nat, cuts: seq<nat>, bn: nat)
    requires Run(L, run, events) && i < |run| && Home(L, run[i].disk, bn)
    ensures run[i].committed != [] && WellFormed(L, run[i].disk)
    ensures var crashed := Reboots(L, run[i].disk, cuts);
      var image := run[i].committed[|run[i].committed| - 1];
      bn < |image| && RecoverDisk(L, crashed, |Head(L, crashed)| + 1)[bn] == image[bn]
  {
    hide Image, Position, ReadHead, HeadReadable, RecoverDisk, Reboots, Step;
    RunInv(L, run, events, i);
    RecoveredImage(L, run[i].disk, cuts, bn);
  }

  /** Group commit.  The list of committed views never loses an entry, and it grows only
      at a moment when no operation is outstanding, by the view of that moment: no
      operation is ever committed in part. */
  lemma CommitsAreWhole(L: Layout, run: seq<State>, events: seq<Event>, i: nat)
    requires Run(L, run, events) && i < |events|
    ensures run[i + 1].committed == run[i].committed
      || (&& run[i + 1].committed == run[i].committed + [run[i].view]
          && run[i].ops == map[] && run[i].outstanding == 0 && run[i + 1].view == run[i].view)
  {
    hide Image, Position, ReadHead, HeadReadable, RecoverDisk, CommitDisk, Loggable, WellFormed, HasImage;
    RunInv(L, run, events, i);
    assert Step(L, run[i], run[i + 1], events[i]);
  }

  /** A machine that has come up after a crash shows exactly the last committed view. */
  lemma BootShowsCommitted(L: Layout, run: seq<State>, events: seq<Event>, i: nat, bn: nat)
    requires Run(L, run, events) && i < |events|
    requires run[i].phase.Boot? && run[i + 1].phase.Idle? && Home(L, run[i + 1].disk, bn)
    ensures |run[i].committed| > 0 && |run[i + 1].view| == |run[i].committed[|run[i].committed| - 1]|
    ensures run[i + 1].view[bn] == run[i].committed[|run[i].committed| - 1][bn]
  {
    hide Position, ReadHead, HeadReadable, RecoverDisk;
    RunInv(L, run, events, i + 1);
    var s, s', e := run[i], run[i + 1], events[i];
    assert Step(L, s, s', e);
    assert e.Replay?;
    assert s'.view == s'.disk && Image(L, s'.disk, bn) == s'.disk[bn];
  }

  /** The log's bookkeeping in every state of every run. */
  lemma Bookkeeping(L: Layout, run: seq<State>, events: seq<Event>, i: nat)
    requires Run(L, run, events) && i < |run| && !run[i].phase.Panic?
    ensures var s := run[i];
      && s.outstanding == |s.ops|
      && |s.lh| + Unused(s.ops) <= LOGSIZE
      && NoDuplicates(s.lh)
      && (s.phase.Commit? ==> s.outstanding == 0)
      && (s.outstanding == 0 && s.phase.Idle? ==> s.lh == [])
      && (s.asleep != {} ==> s.phase.Commit? || s.outstanding > 0)
  {
    hide ReadHead, HeadReadable, Image, Unused, CommitDisk, RecoverDisk, Home, Step, HasImage;
    RunInv(L, run, events, i);
    UnusedBounds(run[i].ops);
  }

  /** A write of a block that is not yet in the header always finds LOGSIZE entries
      enough; whether the log area is large enough decides about the panic. */
  lemma NewBlockWrite(L: Layout, run: seq<State>, events: seq<Event>, i: nat)
    requires Run(L, run, events) && i < |events|
    requires events[i].Write? && events[i].bn !in run[i].lh
    ensures |run[i].lh| < LOGSIZE && run[i].outstanding >= 1
    ensures run[i + 1].phase.Panic? <==> |run[i].lh| >= L.size - 1
  {
    hide ReadHead, HeadReadable, Image, Unused, CommitDisk, RecoverDisk, HasImage, Loggable, WellFormed;
    var s, p := run[i], events[i].p;
    assert LogWrite(L, s, run[i + 1], p, events[i].bn, events[i].b);
    RunInv(L, run, events, i);
    UnusedWithout(s.ops, p);
    UnusedBounds(s.ops - {p});
  }

  /** Rewriting a block that the header already names panics exactly when the header is
      full, although the write would not have grown it: the guard comes before the
      search for the block. */
  lemma AbsorbedWrite(L: Layout, run: seq<State>, events: seq<Event>, i: nat)
    requires Run(L, run, events) && i < |events|
    requires events[i].Write? && events[i].bn in run[i].lh
    ensures run[i + 1].phase.Panic? <==> |run[i].lh| == LOGSIZE || |run[i].lh| == L.size - 1
    ensures !run[i + 1].phase.Panic? ==> run[i + 1].lh == run[i].lh
  {
    hide ReadHead, HeadReadable, Image, Unused, CommitDisk, RecoverDisk, HasImage, WellFormed;
    var s, p := run[i], events[i].p;
    assert LogWrite(L, s, run[i + 1], p, events[i].bn, events[i].b);
    RunInv(L, run, events, i);
    assert p in s.ops;
    assert Loggable(L, s.disk, s.lh);
  }

  /** end_op never finds a commit in progress. */
  lemma EndOpNeverPanics(L: Layout, run: seq<State>, events: seq<Event>, i: nat)
    requires Run(L, run, events) && i < |events| && events[i].End?
    ensures !run[i + 1].phase.Panic?
  {
    hide ReadHead, HeadReadable, Image, Unused, CommitDisk, RecoverDisk, HasImage, Loggable, WellFormed;
    assert EndOp(L, run[i], run[i + 1], events[i].p);
    RunInv(L, run, events, i);
  }

  // ---- the log area that a full reservation needs

  ghost predicate NewBlockPanics(L: Layout, run: seq<State>, events: seq<Event>, i: int) {
    && Run(L, run, events) && 0 <= i < |events|
    && events[i].Write? && events[i].bn !in run[i].lh && run[i + 1].phase.Panic?
  }

  function ZeroBlock(): Block {
    seq(BSIZE, i => 0)
  }

  function ZeroDisk(L: Layout): Disk {
    seq(L.start + L.size + LOGSIZE, i => ZeroBlock())
  }

  lemma ZeroDiskWellFormed(L: Layout)
    requires L.size >= 1
    ensures WellFormed(L, ZeroDisk(L)) && Head(L, ZeroDisk(L)) == []
  {
    DecodeZero(ZeroBlock()[0..4]);
  }

  function HomeBlocks(L: Layout, m: nat): seq<nat> {
    seq(m, i => L.start + L.size + i)
  }

  /** What operation `j` has added when `m` blocks were logged, ten by each in turn. */
  function Share(m: nat, j: nat): nat {
    if m <= 10 * j then 0 else if m >= 10 * j + 10 then 10 else m - 10 * j
  }

  function Filled(L: Layout, m: nat): State {
    var d := ZeroDisk(L);
    State(d, d, HomeBlocks(L, m), 3, map[0 := Share(m, 0), 1 := Share(m, 1), 2 := Share(m, 2)], {}, Idle, [d])
  }

  /** Three operations begin and log `m` different blocks between them. */
  function FillRun(L: Layout, m: nat): (run: seq<State>)
    ensures |run| == m + 4
  {
    if m == 0 then
      var d := ZeroDisk(L);
      var s0 := State(d, d, [], 0, map[], {}, Idle, [d]);
      [s0, s0.(outstanding := 1, ops := map[0 := 0]), s0.(outstanding := 2, ops := map[0 := 0, 1 := 0]), Filled(L, 0)]
    else FillRun(L, m - 1) + [Filled(L, m)]
  }

  function FillEvents(L: Layout, m: nat): (events: seq<Event>)
    ensures |events| == m + 3
  {
    if m == 0 then [Begin(0), Begin(1), Begin(2)]
    else FillEvents(L, m - 1) + [Write((m - 1) / 10, L.start + L.size + m - 1, ZeroBlock())]
  }

  lemma FillStep(L: Layout, m: nat)
    requires 1 <= m <= LOGSIZE && m < L.size && L.start + L.size + LOGSIZE < 0x1_0000_0000
    ensures LogWrite(L, Filled(L, m - 1), Filled(L, m), (m - 1) / 10, L.start + L.size + m - 1, ZeroBlock())
  {
    var s, s', bn := Filled(L, m - 1), Filled(L, m), L.start + L.size + m - 1;
    assert s.view[bn := ZeroBlock()] == s.view;
    assert HomeBlocks(L, m) == HomeBlocks(L, m - 1) + [bn];
    assert bn !in s.lh;
    assert s.ops[(m - 1) / 10 := s.ops[(m - 1) / 10] + 1] == s'.ops;
  }

  lemma FillStart(L: Layout)
    requires L.size >= 1
    ensures Run(L, FillRun(L, 0), FillEvents(L, 0))
  {
    ZeroDiskWellFormed(L);
    hide ZeroDisk, WellFormed, Head;
    var run, events := FillRun(L, 0), FillEvents(L, 0);
    assert HomeBlocks(L, 0) == [];
    assert run[1].ops == run[0].ops[0 := 0] && run[2].ops == run[1].ops[1 := 0] && run[3].ops == run[2].ops[2 := 0];
    forall i | 0 <= i < |events| ensures Step(L, run[i], run[i + 1], events[i]) {
      assert BeginOp(L, run[i], run[i + 1], i);
    }
  }

  lemma {:induction false} FillRunIsRun(L: Layout, m: nat)
    requires m <= LOGSIZE && m < L.size && L.start + L.size + LOGSIZE < 0x1_0000_0000
    ensures Run(L, FillRun(L, m), FillEvents(L, m)) && FillRun(L, m)[m + 3] == Filled(L, m)
  {
    if m == 0 {
      FillStart(L);
    } else {
      FillRunIsRun(L, m - 1);
      FillStep(L, m);
      ExtendRun(L, FillRun(L, m - 1), FillEvents(L, m - 1), Filled(L, m),
        Write((m - 1) / 10, L.start + L.size + m - 1, ZeroBlock()));
    }
  }

  lemma ExtendRun(L: Layout, run: seq<State>, events: seq<Event>, s: State, e: Event)
    requires Run(L, run, events) && Step(L, run[|events|], s, e)
    ensures Run(L, run + [s], events + [e])
  {
    hide Step, Init;
    var run', events' := run + [s], events + [e];
    forall i | 0 <= i < |events'| ensures Step(L, run'[i], run'[i + 1], events'[i]) {
      if i < |events| {
        assert run'[i] == run[i] && run'[i + 1] == run[i + 1] && events'[i] == events[i];
      }
    }
  }

  /** With at most LOGSIZE blocks of log area, header block included, three operations
      within their reservation reach the panic of log_write. */
  lemma SmallLogPanics(L: Layout) returns (run: seq<State>, events: seq<Event>)
    requires 1 <= L.size <= LOGSIZE && L.start + L.size + LOGSIZE < 0x1_0000_0000
    ensures NewBlockPanics(L, run, events, |events| - 1)
  {
    var m := L.size - 1;
    FillRunIsRun(L, m);
    var s, bn := Filled(L, m), L.start + L.size + m;
    var e := Write(m / 10, bn, ZeroBlock());
    assert |s.lh| == m && bn !in s.lh;
    assert LogWrite(L, s, s.(phase := Panic), m / 10, bn, ZeroBlock());
    ExtendRun(L, FillRun(L, m), FillEvents(L, m), s.(phase := Panic), e);
    run, events := FillRun(L, m) + [s.(phase := Panic)], FillEvents(L, m) + [e];
  }

  /** No operation that stays within MAXOPBLOCKS new blocks can meet the panic, in any
      run, if and only if the log area is larger than LOGSIZE. */
  lemma FullReservationFits(L: Layout)
    requires 1 <= L.size && L.start + L.size + LOGSIZE < 0x1_0000_0000
    ensures (forall run, events, i :: !NewBlockPanics(L, run, events, i)) <==> L.size > LOGSIZE
  {
    if L.size > LOGSIZE {
      forall run, events, i ensures !NewBlockPanics(L, run, events, i) {
        if NewBlockPanics(L, run, events, i) {
          NewBlockWrite(L, run, events, i);
        }
      }
    } else {
      var run, events := SmallLogPanics(L);
      assert NewBlockPanics(L, run, events, |events| - 1);
    }
  }

  /** However large the log area: with LOGSIZE blocks logged by three operations within
      their reservation, rewriting one of them panics. */
  lemma FullHeaderRefusesRewrite(L: Layout) returns (run: seq<State>, events: seq<Event>)
    requires L.size > LOGSIZE && L.start + L.size + LOGSIZE < 0x1_0000_0000
    ensures Run(L, run, events) && |events| > 0
    ensures var i := |events| - 1;
      events[i].Write? && events[i].bn in run[i].lh && run[i + 1].phase.Panic?
  {
    FillRunIsRun(L, LOGSIZE);
    var s, bn := Filled(L, LOGSIZE), L.start + L.size;
    var e := Write(0, bn, ZeroBlock());
    assert s.lh[0] == bn;
    assert LogWrite(L, s, s.(phase := Panic), 0, bn, ZeroBlock());
    ExtendRun(L, FillRun(L, LOGSIZE), FillEvents(L, LOGSIZE), s.(phase := Panic), e);
    run, events := FillRun(L, LOGSIZE) + [s.(phase := Panic)], FillEvents(L, LOGSIZE) + [e];
  }
}
