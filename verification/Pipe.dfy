/** Pipes (kernel/pipe.c) as a step relation: a step is what a call does between taking
    pi->lock and sleeping or returning. */
module Pipe {

  const PIPESIZE := 512
  const WRAP := 0x1_0000_0000

  // ---- the buffer

  /** pi->data after some bytes were stored from index `at` on. */
  function Put(data: seq<int>, at: nat, bs: seq<int>): (r: seq<int>)
    requires |data| == PIPESIZE
    ensures |r| == PIPESIZE
    decreases |bs|
  {
    if bs == [] then data else Put(data[at % PIPESIZE := bs[0]], (at + 1) % WRAP, bs[1..])
  }

  /** The next m bytes from index `at` on. */
  function Peek(data: seq<int>, at: nat, m: nat): (r: seq<int>)
    requires |data| == PIPESIZE
    ensures |r| == m
  {
    seq(m, k requires 0 <= k => data[(at + k) % WRAP % PIPESIZE])
  }

  // ---- calls

  datatype Call = Writer(i: nat, n: int, asleep: bool) | Reader(n: int, asleep: bool) | Returned(r: int)

  /** `written`, `taken` and `got` are what was ever stored, removed and delivered; `lost`
      counts bytes that were removed and could not be copied out. */
  datatype State = State(
    data: seq<int>, nread: nat, nwrite: nat, readopen: bool, writeopen: bool, freed: bool, calls: seq<Call>,
    written: seq<int>, taken: seq<int>, got: seq<int>, lost: nat)

  /** How a writer's section ends. */
  datatype Ending = Full | Complete | BadAddress | ReaderGone | Killed

  datatype Event =
    | BeginWrite(n: int)
    | BeginRead(n: int)
    | Write(c: nat, bs: seq<int>, ending: Ending)
    | ReadSleep(c: nat)
    | ReadKilled(c: nat)
    | Read(c: nat, m: nat, bad: bool)
    | Kill(c: nat)
    | Close(writable: bool)

  function Awake(c: Call): Call {
    match c
    case Writer(i, n, _) => Writer(i, n, false)
    case Reader(n, _) => Reader(n, false)
    case Returned(r) => Returned(r)
  }

  /** wakeup(&pi->nread) or wakeup(&pi->nwrite). */
  function WakeReaders(calls: seq<Call>): (r: seq<Call>)
    ensures |r| == |calls|
    ensures forall k :: 0 <= k < |r| ==> r[k] == if calls[k].Reader? then Awake(calls[k]) else calls[k]
  {
    seq(|calls|, k requires 0 <= k < |calls| => if calls[k].Reader? then Awake(calls[k]) else calls[k])
  }

  function WakeWriters(calls: seq<Call>): (r: seq<Call>)
    ensures |r| == |calls|
    ensures forall k :: 0 <= k < |r| ==> r[k] == if calls[k].Writer? then Awake(calls[k]) else calls[k]
  {
    seq(|calls|, k requires 0 <= k < |calls| => if calls[k].Writer? then Awake(calls[k]) else calls[k])
  }

  predicate IsFull(s: State) {
    s.nwrite == (s.nread + PIPESIZE) % WRAP
  }

  /** How many bytes the two counters say are in the pipe. */
  function Held(s: State): nat
    requires s.nread < WRAP && s.nwrite < WRAP
  {
    if s.nread <= s.nwrite then s.nwrite - s.nread else s.nwrite + WRAP - s.nread
  }

  predicate Shape(s: State) {
    |s.data| == PIPESIZE && s.nread < WRAP && s.nwrite < WRAP
  }

  function Stored(s: State, bs: seq<int>): State
    requires Shape(s)
  {
    s.(data := Put(s.data, s.nwrite, bs), nwrite := (s.nwrite + |bs|) % WRAP, written := s.written + bs)
  }

  /** The calls after writer c's section that stored m bytes. */
  function WriterCalls(calls: seq<Call>, c: nat, m: nat, ending: Ending): seq<Call>
    requires c < |calls| && calls[c].Writer?
  {
    var i := calls[c].i + m;
    match ending
    case Full => WakeReaders(calls)[c := Writer(i, calls[c].n, true)]
    case Complete => WakeReaders(calls)[c := Returned(i)]
    case BadAddress => WakeReaders(calls)[c := Returned(i)]
    case ReaderGone => calls[c := Returned(-1)]
    case Killed => calls[c := Returned(-1)]
  }

  /** Whether pipewrite's loop, having stored m bytes of this section, can end so.  Before
      each byte it has seen room, and fewer than n bytes. */
  predicate MayEnd(s: State, w: Call, m: nat, ending: Ending)
    requires Shape(s) && w.Writer?
  {
    && m <= PIPESIZE - Held(s) && (m > 0 ==> s.readopen && w.i + m <= w.n)
    && match ending
       case Full => s.readopen && w.i + m < w.n && m == PIPESIZE - Held(s)
       case Complete => w.i + m >= w.n
       case BadAddress => s.readopen && w.i + m < w.n && m < PIPESIZE - Held(s)
       case ReaderGone => !s.readopen && w.i + m < w.n
       case Killed => w.i + m < w.n
  }

  predicate Next(s: State, s': State, ev: Event)
    requires Shape(s)
  {
    && !s.freed
    && match ev
       case BeginWrite(n) => s.writeopen && s' == s.(calls := s.calls + [Writer(0, n, false)])
       case BeginRead(n) => s.readopen && s' == s.(calls := s.calls + [Reader(n, false)])
       case Write(c, bs, ending) =>
         && c < |s.calls| && s.calls[c].Writer? && !s.calls[c].asleep && Held(s) <= PIPESIZE
         && MayEnd(s, s.calls[c], |bs|, ending)
         && s' == Stored(s, bs).(calls := WriterCalls(s.calls, c, |bs|, ending))
       case ReadSleep(c) =>
         && c < |s.calls| && s.calls[c].Reader? && !s.calls[c].asleep && s.nread == s.nwrite && s.writeopen
         && s' == s.(calls := s.calls[c := Reader(s.calls[c].n, true)])
       case ReadKilled(c) =>
         && c < |s.calls| && s.calls[c].Reader? && !s.calls[c].asleep && s.nread == s.nwrite && s.writeopen
         && s' == s.(calls := s.calls[c := Returned(-1)])
       case Read(c, m, bad) =>
         && c < |s.calls| && s.calls[c].Reader? && !s.calls[c].asleep && (s.nread != s.nwrite || !s.writeopen)
         && m <= Held(s) && m <= Max(0, s.calls[c].n) && (bad ==> m > 0)
         && (!bad ==> m == Held(s) || m == Max(0, s.calls[c].n))
         && s' == Removed(s, m, bad).(calls := WakeWriters(s.calls)[c := Returned(if bad then m - 1 else m)])
       case Kill(c) =>
         && c < |s.calls| && !s.calls[c].Returned?
         && s' == s.(calls := s.calls[c := Awake(s.calls[c])])
       case Close(writable) =>
         && (if writable then s.writeopen else s.readopen) && Idle(s.calls, writable)
         && s' == if writable then s.(writeopen := false, calls := WakeReaders(s.calls), freed := !s.readopen)
                  else s.(readopen := false, calls := WakeWriters(s.calls), freed := !s.writeopen)
  }

  function Max(a: int, b: int): int {
    if a < b then b else a
  }

  /** m bytes leave the pipe; with `bad` the last one could not be copied out. */
  function Removed(s: State, m: nat, bad: bool): State
    requires Shape(s) && (bad ==> m > 0)
  {
    var out := Peek(s.data, s.nread, m);
    s.(nread := (s.nread + m) % WRAP, taken := s.taken + out, got := s.got + out[..if bad then m - 1 else m],
       lost := if bad then s.lost + 1 else s.lost)
  }

  /** An end is closed with the last reference to its file; a call on it has one. */
  predicate Idle(calls: seq<Call>, writable: bool) {
    forall k :: 0 <= k < |calls| ==> if writable then !calls[k].Writer? else !calls[k].Reader?
  }

  predicate Initial(s: State) {
    && Shape(s) && s.nread == 0 && s.nwrite == 0 && s.readopen && s.writeopen && !s.freed
    && s.calls == [] && s.written == [] && s.taken == [] && s.got == [] && s.lost == 0
  }

  // ---- the invariant

  /** The counters and the buffer show what was written and not yet taken, in order. */
  predicate Fifo(s: State)
    requires Shape(s)
  {
    && |s.taken| <= |s.written| <= |s.taken| + PIPESIZE
    && s.taken == s.written[..|s.taken|]
    && s.nread == |s.taken| % WRAP && s.nwrite == |s.written| % WRAP
    && forall k :: |s.taken| <= k < |s.written| ==> s.data[k % PIPESIZE] == s.written[k]
  }

  predicate Delivered(s: State) {
    |s.taken| == |s.got| + s.lost && (s.lost == 0 ==> s.got == s.taken)
  }

  /** A writer sleeps only while the pipe is full and can be read. */
  predicate WriterWaits(s: State, c: nat) {
    c < |s.calls| && s.calls[c].Writer? && s.calls[c].asleep ==> |s.written| == |s.taken| + PIPESIZE && s.readopen
  }

  /** A reader sleeps only while the pipe is empty and can be written. */
  predicate ReaderWaits(s: State, c: nat) {
    c < |s.calls| && s.calls[c].Reader? && s.calls[c].asleep ==> |s.written| == |s.taken| && s.writeopen
  }

  predicate Inv(s: State) {
    && Shape(s) && Fifo(s) && Delivered(s)
    && (forall c :: 0 <= c < |s.calls| ==> WriterWaits(s, c))
    && (s.freed ==> !s.readopen && !s.writeopen)
    && (!s.writeopen ==> forall c :: 0 <= c < |s.calls| ==> !s.calls[c].Writer?)
    && (!s.readopen ==> forall c :: 0 <= c < |s.calls| ==> !s.calls[c].Reader?)
  }

  // ---- indices

  lemma Slot(n: nat)
    ensures n % WRAP % PIPESIZE == n % PIPESIZE
  {
    var q, m := n / WRAP, n % WRAP;
    assert n == (q * 0x80_0000 + m / PIPESIZE) * PIPESIZE + m % PIPESIZE;
    Remainder(n, q * 0x80_0000 + m / PIPESIZE, m % PIPESIZE);
  }

  lemma Remainder(n: int, q: int, r: int)
    requires n == q * PIPESIZE + r && 0 <= r < PIPESIZE
    ensures n % PIPESIZE == r
  {
  }

  lemma Bump(n: nat, m: nat)
    ensures (n % WRAP + m) % WRAP == (n + m) % WRAP
  {
  }

  lemma OtherSlot(k: nat, n: nat)
    requires k < n < k + PIPESIZE
    ensures k % PIPESIZE != n % PIPESIZE
  {
  }

  /** Taken modulo the counters' width, the counters still tell how much is in the pipe. */
  lemma HeldIs(s: State)
    requires Shape(s) && Fifo(s)
    ensures Held(s) == |s.written| - |s.taken|
    ensures IsFull(s) <==> |s.written| == |s.taken| + PIPESIZE
    ensures s.nread == s.nwrite <==> |s.written| == |s.taken|
  {
    Distance(|s.taken|, |s.written|);
  }

  lemma Distance(a: nat, b: nat)
    requires a <= b <= a + PIPESIZE
    ensures b % WRAP == if a % WRAP + (b - a) < WRAP then a % WRAP + (b - a) else a % WRAP + (b - a) - WRAP
    ensures (a % WRAP + PIPESIZE) % WRAP == if a % WRAP + PIPESIZE < WRAP then a % WRAP + PIPESIZE
      else a % WRAP + PIPESIZE - WRAP
  {
    var q, r := a / WRAP, a % WRAP;
    assert a == q * WRAP + r;
    if r + (b - a) < WRAP {
      Whole(b, q, r + (b - a));
    } else {
      Whole(b, q + 1, r + (b - a) - WRAP);
    }
  }

  lemma Whole(n: nat, q: int, r: int)
    requires n == q * WRAP + r && 0 <= r < WRAP
    ensures n % WRAP == r
  {
  }

  /** Bytes from index a on are in the buffer. */
  predicate Region(data: seq<int>, w: seq<int>, a: nat)
    requires |data| == PIPESIZE
  {
    forall k :: a <= k < |w| ==> data[k % PIPESIZE] == w[k]
  }

  lemma {:induction false} PutRegion(data: seq<int>, w: seq<int>, a: nat, bs: seq<int>)
    requires |data| == PIPESIZE && Region(data, w, a) && a <= |w| && |w| + |bs| <= a + PIPESIZE
    ensures Region(Put(data, |w| % WRAP, bs), w + bs, a)
    decreases |bs|
  {
    if bs == [] {
      assert w + bs == w;
    } else {
      var w1 := w + bs[..1];
      var data1 := data[|w| % WRAP % PIPESIZE := bs[0]];
      Slot(|w|);
      Bump(|w|, 1);
      forall k | a <= k < |w1|
        ensures data1[k % PIPESIZE] == w1[k]
      {
        if k < |w| {
          OtherSlot(k, |w|);
        }
      }
      PutRegion(data1, w1, a, bs[1..]);
      assert w1 + bs[1..] == w + bs;
    }
  }

  lemma PeekRegion(data: seq<int>, w: seq<int>, a: nat, m: nat)
    requires |data| == PIPESIZE && Region(data, w, a) && a + m <= |w|
    ensures Peek(data, a % WRAP, m) == w[a..a + m]
  {
    var p := Peek(data, a % WRAP, m);
    forall k | 0 <= k < m
      ensures p[k] == w[a..a + m][k]
    {
      Bump(a, k);
      Slot(a + k);
    }
  }

  // ---- steps

  lemma StoredKeeps(s: State, bs: seq<int>)
    requires Shape(s) && Fifo(s) && |bs| <= PIPESIZE - Held(s)
    ensures Fifo(Stored(s, bs))
  {
    hide Put;
    HeldIs(s);
    PutRegion(s.data, s.written, |s.taken|, bs);
    Bump(|s.written|, |bs|);
    assert Region(Stored(s, bs).data, s.written + bs, |s.taken|);
  }

  lemma RemovedKeeps(s: State, m: nat, bad: bool)
    requires Shape(s) && Fifo(s) && Delivered(s) && m <= Held(s) && (bad ==> m > 0)
    ensures Fifo(Removed(s, m, bad)) && Delivered(Removed(s, m, bad))
    ensures Removed(s, m, bad).taken == s.written[..|s.taken| + m]
  {
    hide Peek;
    HeldIs(s);
    var a := |s.taken|;
    assert Region(s.data, s.written, a);
    PeekRegion(s.data, s.written, a, m);
    Bump(a, m);
    assert s.written[..a] + s.written[a..a + m] == s.written[..a + m];
    assert s.written[a..a + m][..m] == s.written[a..a + m];
  }

  lemma NextKeeps(s: State, s': State, ev: Event)
    requires Inv(s) && Next(s, s', ev)
    ensures Inv(s')
  {
    hide Put, Peek, Fifo, Held, IsFull, WakeReaders, WakeWriters;
    HeldIs(s);
    forall c: nat | c < |s'.calls|
      ensures WriterWaits(s', c) && (s'.calls[c].Writer? ==> s'.writeopen) && (s'.calls[c].Reader? ==> s'.readopen)
    {
      CallStep(s, s', ev, c);
    }
    match ev
    case Write(c, bs, ending) =>
      StoredKeeps(s, bs);
      SameFifo(Stored(s, bs), s');
    case Read(c, m, bad) =>
      RemovedKeeps(s, m, bad);
      SameFifo(Removed(s, m, bad), s');
    case _ =>
      SameFifo(s, s');
  }

  lemma CallStep(s: State, s': State, ev: Event, c: nat)
    requires Inv(s) && Next(s, s', ev) && c < |s'.calls|
    ensures WriterWaits(s', c) && (s'.calls[c].Writer? ==> s'.writeopen) && (s'.calls[c].Reader? ==> s'.readopen)
  {
    hide Put, Peek, Fifo, Delivered, Held, IsFull;
    HeldIs(s);
    assert c < |s.calls| ==> WriterWaits(s, c);
  }

  lemma SameFifo(s: State, s': State)
    requires Shape(s) && Fifo(s) && Delivered(s)
    requires s' == s.(calls := s'.calls, readopen := s'.readopen, writeopen := s'.writeopen, freed := s'.freed)
    ensures Fifo(s') && Delivered(s')
  {
  }

  // ---- sleeping readers

  ghost predicate ReadersWait(s: State) {
    forall c :: 0 <= c < |s.calls| ==> ReaderWaits(s, c)
  }

  /** A writer that is killed between its bytes leaves without waking the readers. */
  predicate LeavesSilently(ev: Event) {
    ev.Write? && ev.ending.Killed? && ev.bs != []
  }

  predicate SleepingReader(s: State) {
    exists c :: 0 <= c < |s.calls| && s.calls[c].Reader? && s.calls[c].asleep
  }

  /** The clause about sleeping readers is lost exactly by a writer that is killed between
      its bytes while a reader sleeps. */
  lemma ReaderStep(s: State, s': State, ev: Event)
    requires Inv(s) && ReadersWait(s) && Next(s, s', ev)
    ensures ReadersWait(s') <==> !(LeavesSilently(ev) && SleepingReader(s))
  {
    hide Put, Peek, Fifo, Delivered, Held, IsFull;
    HeldIs(s);
    if LeavesSilently(ev) && SleepingReader(s) {
      var c :| 0 <= c < |s.calls| && s.calls[c].Reader? && s.calls[c].asleep;
      assert ReaderWaits(s, c);
      assert !ReaderWaits(s', c);
    } else {
      forall c: nat | c < |s'.calls|
        ensures ReaderWaits(s', c)
      {
        assert c < |s.calls| ==> ReaderWaits(s, c);
      }
    }
  }

  // ---- runs

  lemma InitialInv(s: State)
    requires Initial(s)
    ensures Inv(s) && ReadersWait(s)
  {
  }

  ghost predicate Run(ss: seq<State>, evs: seq<Event>) {
    && |ss| == |evs| + 1 && Initial(ss[0])
    && (forall k :: 0 <= k < |ss| ==> Shape(ss[k]))
    && (forall k :: 0 <= k < |evs| ==> Next(ss[k], ss[k + 1], evs[k]))
  }

  lemma {:induction false} RunInv(ss: seq<State>, evs: seq<Event>, k: nat)
    requires Run(ss, evs) && k < |ss|
    ensures Inv(ss[k])
    decreases k
  {
    hide Inv, Next, Initial;
    if k == 0 {
      InitialInv(ss[0]);
    } else {
      RunInv(ss, evs, k - 1);
      assert Next(ss[k - 1], ss[k - 1 + 1], evs[k - 1]);
      NextKeeps(ss[k - 1], ss[k], evs[k - 1]);
    }
  }

  /** In every run, whatever the interleaving: what was taken out is a prefix of what was
      written, the pipe holds the rest in order, never more than PIPESIZE bytes, and the two
      32-bit counters tell how many.  What the readers got is that prefix exactly when every
      byte that was taken out could be copied out. */
  lemma PipeIsFifo(ss: seq<State>, evs: seq<Event>, k: nat)
    requires Run(ss, evs) && k < |ss|
    ensures ss[k].taken <= ss[k].written && |ss[k].written| - |ss[k].taken| <= PIPESIZE
    ensures Held(ss[k]) == |ss[k].written| - |ss[k].taken|
    ensures Peek(ss[k].data, ss[k].nread, Held(ss[k])) == ss[k].written[|ss[k].taken|..]
    ensures ss[k].got == ss[k].taken <==> ss[k].lost == 0
  {
    hide Peek, Held;
    RunInv(ss, evs, k);
    var s := ss[k];
    HeldIs(s);
    assert Region(s.data, s.written, |s.taken|);
    PeekRegion(s.data, s.written, |s.taken|, Held(s));
  }

  /** In every run a sleeping writer has a full pipe with the read end open. */
  lemma WritersWait(ss: seq<State>, evs: seq<Event>, k: nat, c: nat)
    requires Run(ss, evs) && k < |ss| && c < |ss[k].calls| && ss[k].calls[c].Writer? && ss[k].calls[c].asleep
    ensures IsFull(ss[k]) && ss[k].readopen
  {
    hide IsFull, Held;
    RunInv(ss, evs, k);
    HeldIs(ss[k]);
    assert WriterWaits(ss[k], c);
  }

  /** In every run without a writer killed between its bytes, a sleeping reader has an empty
      pipe with the write end open. */
  lemma {:induction false} SleepersWait(ss: seq<State>, evs: seq<Event>, k: nat)
    requires Run(ss, evs) && k < |ss| && forall j :: 0 <= j < k ==> !LeavesSilently(evs[j])
    ensures ReadersWait(ss[k])
    decreases k
  {
    hide Inv, Next, Initial, ReadersWait;
    if k == 0 {
      InitialInv(ss[0]);
    } else {
      SleepersWait(ss, evs, k - 1);
      RunInv(ss, evs, k - 1);
      assert Next(ss[k - 1], ss[k - 1 + 1], evs[k - 1]);
      ReaderStep(ss[k - 1], ss[k], evs[k - 1]);
    }
  }

  /** Once the pipe is freed nobody is inside a call on it. */
  lemma FreedIsIdle(ss: seq<State>, evs: seq<Event>, k: nat, c: nat)
    requires Run(ss, evs) && k < |ss| && ss[k].freed && c < |ss[k].calls|
    ensures ss[k].calls[c].Returned?
  {
    RunInv(ss, evs, k);
  }

  // ---- what fails

  function Start(): State {
    State(seq(PIPESIZE, _ => 0), 0, 0, true, true, false, [], [], [], [], 0)
  }

  /** A reader is asleep, a writer stores a byte, is killed and returns: the reader sleeps on
      with a byte in the pipe. */
  lemma SilentWriter()
    ensures exists ss, evs :: Run(ss, evs) && |ss| == 5 && !ReadersWait(ss[4])
  {
    var s0 := Start();
    var s1 := s0.(calls := [Reader(1, false)]);
    var s2 := s1.(calls := [Reader(1, true)]);
    var s3 := s2.(calls := [Reader(1, true), Writer(0, 2, false)]);
    var s4 := Stored(s3, [7]).(calls := [Reader(1, true), Returned(-1)]);
    var ss := [s0, s1, s2, s3, s4];
    var evs := [BeginRead(1), ReadSleep(0), BeginWrite(2), Write(1, [7], Killed)];
    assert Next(s0, s1, evs[0]) && Next(s1, s2, evs[1]) && Next(s2, s3, evs[2]) && Next(s3, s4, evs[3]);
    assert Run(ss, evs);
    assert !ReaderWaits(s4, 0);
  }

  function Losing(k: nat): (s: State)
    ensures Shape(s)
  {
    var s1 := Start().(calls := [Writer(0, 2, false)]);
    var s2 := Stored(s1, [7, 8]).(calls := [Returned(2)]);
    var s3 := s2.(calls := [Returned(2), Reader(1, false)]);
    var s4 := Removed(s3, 1, true).(calls := [Returned(2), Returned(0)]);
    var s5 := s4.(calls := [Returned(2), Returned(0), Reader(1, false)]);
    match k
    case 0 => Start()
    case 1 => s1
    case 2 => s2
    case 3 => s3
    case 4 => s4
    case 5 => s5
    case _ => Removed(s5, 1, false).(calls := [Returned(2), Returned(0), Returned(1)])
  }

  function LosingEvent(k: nat): Event {
    match k
    case 0 => BeginWrite(2)
    case 1 => Write(0, [7, 8], Complete)
    case 2 => BeginRead(1)
    case 3 => Read(1, 1, true)
    case 4 => BeginRead(1)
    case _ => Read(2, 1, false)
  }

  lemma LosingStart(k: nat)
    requires k < 3
    ensures Next(Losing(k), Losing(k + 1), LosingEvent(k))
  {
  }

  lemma LosingEnd(k: nat)
    requires 3 <= k < 6
    ensures Next(Losing(k), Losing(k + 1), LosingEvent(k))
  {
    hide Put, Peek;
  }

  lemma LosingBytes()
    ensures Losing(6).written == [7, 8] && Losing(6).got == [8]
  {
    var data := Start().data;
    assert Put(data, 0, [7, 8]) == Put(data[0 := 7], 1, [8]) == Put(data[0 := 7][1 := 8], 2, []);
    assert Losing(6).data == data[0 := 7][1 := 8];
  }

  /** A byte that cannot be copied out is gone: the next read delivers the one after it. */
  lemma LostByte()
    ensures exists ss: seq<State>, evs: seq<Event> ::
              Run(ss, evs) && |ss| == 7 && ss[6].written == [7, 8] && ss[6].got == [8]
  {
    hide Next, Losing;
    var ss := seq(7, k requires 0 <= k < 7 => Losing(k));
    var evs := seq(6, k requires 0 <= k < 6 => LosingEvent(k));
    assert Initial(ss[0]) by { LosingFirst(); }
    forall k: nat | k < 6
      ensures Next(ss[k], ss[k + 1], evs[k])
    {
      if k < 3 {
        LosingStart(k);
      } else {
        LosingEnd(k);
      }
    }
    LosingBytes();
    assert Run(ss, evs);
  }

  lemma LosingFirst()
    ensures Initial(Losing(0))
  {
  }
}
