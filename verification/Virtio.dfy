/** The virtio disk driver (kernel/virtio_disk.c) and a device that serves its queue in any
    order, as a step relation.  Driver steps are the sections that vdisk_lock protects; the
    layout of descriptors and rings is that of section 2.6 of Virtio 1.1, the three
    descriptors of a request that of its section 5.2.6. */
module Virtio {
  import opened Options

  const NUM := 8
  const WRAP := 65536

  // ---- the queue

  /** What a descriptor's address points at: a command header in ops[], the contents of a
      buffer, or a status byte in info[]. */
  datatype Addr = Null | Op(i: nat) | Contents(b: nat) | Status(i: nat)

  datatype Desc = Desc(addr: Addr, len: nat, hasNext: bool, write: bool, next: nat)

  const CLEAR := Desc(Null, 0, false, false, 0)

  datatype Command = Command(write: bool, sector: nat)

  datatype Info = Info(b: Opt<nat>, status: nat)

  /** How many slots lie between two 16-bit ring indices. */
  function Gap(from: nat, to: nat): nat
    requires from < WRAP
  {
    if from <= to then to - from else to + WRAP - from
  }

  /** The ring entries from one index up to another. */
  function Slots(ring: seq<nat>, from: nat, to: nat): (r: seq<nat>)
    requires |ring| == NUM && from < WRAP
  {
    seq(Gap(from, to), k requires 0 <= k => ring[(from + k) % WRAP % NUM])
  }

  function Bump(i: nat): (r: nat)
    ensures r < WRAP
  {
    (i + 1) % WRAP
  }

  // ---- requests

  /** A transfer that the device has made. */
  datatype Move = Move(write: bool, sector: nat, b: nat, value: nat)

  datatype Phase = Ask | Sent(i0: nat, i1: nat, i2: nat) | Done

  /** A call of virtio_disk_rw: its buffer and command, what a written buffer held, whether
      it sleeps, which transfers the device has made for it and how often the interrupt
      handler has reported it. */
  datatype Req = Req(b: nat, write: bool, sector: nat, sent: nat, phase: Phase, asleep: bool, moves: seq<Move>,
                     told: nat)

  datatype Halt = Going | DiskError | BadChain | NullBuffer | FreeDescPanic

  datatype State = State(
    // the driver's memory
    free: seq<bool>, desc: seq<Desc>, ops: seq<Command>, info: seq<Info>,
    avail: seq<nat>, availIdx: nat, seen: nat,
    data: seq<nat>, busy: seq<bool>, reqs: seq<Req>,
    // what the device writes and knows
    used: seq<nat>, usedIdx: nat, lastAvail: nat, taken: seq<nat>, performed: seq<nat>,
    media: map<nat, nat>, failed: bool,
    halt: Halt)

  predicate Shape(s: State) {
    && |s.free| == |s.desc| == |s.ops| == |s.info| == |s.avail| == |s.used| == NUM
    && |s.data| == |s.busy|
    && s.availIdx < WRAP && s.seen < WRAP && s.usedIdx < WRAP && s.lastAvail < WRAP
  }

  function OnMedia(media: map<nat, nat>, sector: nat): nat {
    if sector in media then media[sector] else 0
  }

  // ---- descriptors

  /** alloc_desc's scan. */
  function FirstFree(free: seq<bool>, i: nat): (r: nat)
    requires i <= |free|
    ensures i <= r <= |free| && (r < |free| ==> free[r]) && forall k :: i <= k < r ==> !free[k]
    decreases |free| - i
  {
    if i == |free| || free[i] then i else FirstFree(free, i + 1)
  }

  datatype Three = Three(i0: nat, i1: nat, i2: nat)

  /** alloc3_desc: the first three free descriptors, or none. */
  function Alloc3(free: seq<bool>): (r: Opt<Three>)
    ensures r.Some? ==> r.v.i0 < r.v.i1 < r.v.i2 < |free| && free[r.v.i0] && free[r.v.i1] && free[r.v.i2]
  {
    var i0 := FirstFree(free, 0);
    if i0 == |free| then None
    else
      var i1 := FirstFree(free, i0 + 1);
      if i1 == |free| then None
      else
        var i2 := FirstFree(free, i1 + 1);
        if i2 == |free| then None else Some(Three(i0, i1, i2))
  }

  function NumFree(free: seq<bool>): nat {
    if free == [] then 0 else NumFree(free[..|free| - 1]) + if free[|free| - 1] then 1 else 0
  }

  datatype Pool = Pool(free: seq<bool>, desc: seq<Desc>)

  /** free_chain: free descriptors along the chain; none when free_desc would panic. */
  function FreeChain(free: seq<bool>, desc: seq<Desc>, i: nat): Opt<Pool>
    requires |free| == |desc|
    decreases |free| - NumFree(free)
  {
    if i >= |free| || free[i] then None
    else
      FreeOne(free, i);
      if desc[i].hasNext then FreeChain(free[i := true], desc[i := CLEAR], desc[i].next)
      else Some(Pool(free[i := true], desc[i := CLEAR]))
  }

  lemma {:induction false} FreeOne(free: seq<bool>, i: nat)
    requires i < |free| && !free[i]
    ensures NumFree(free[i := true]) == NumFree(free) + 1 <= |free|
    decreases |free|
  {
    var k := |free| - 1;
    if i < k {
      FreeOne(free[..k], i);
      assert free[i := true][..k] == free[..k][i := true];
    } else {
      assert free[i := true][..k] == free[..k];
      NumFreeBound(free[..k]);
    }
  }

  lemma {:induction false} NumFreeBound(free: seq<bool>)
    ensures NumFree(free) <= |free|
  {
    if free != [] {
      NumFreeBound(free[..|free| - 1]);
    }
  }

  // ---- steps

  datatype Event =
    | Call(b: nat, blockno: nat, value: nat, write: bool)
    | Try(r: nat)
    | Pop
    | Perform(k: nat, status: nat, junk: nat)
    | Publish(k: nat)
    | Consume
    | Finish(r: nat)

  /** The requests after a wakeup on the channel that `on` tells. */
  function Woken(reqs: seq<Req>, on: Req -> bool): (r: seq<Req>)
    ensures |r| == |reqs|
    ensures forall k :: 0 <= k < |r| ==> r[k] == if on(reqs[k]) then reqs[k].(asleep := false) else reqs[k]
  {
    seq(|reqs|, k requires 0 <= k < |reqs| => if on(reqs[k]) then reqs[k].(asleep := false) else reqs[k])
  }

  /** virtio_disk_rw from its descriptors to the sleep on its buffer. */
  function Sending(s: State, r: nat, t: Three): State
    requires Shape(s) && r < |s.reqs| && s.reqs[r].b < |s.busy| && t.i0 < NUM && t.i1 < NUM && t.i2 < NUM
  {
    var q := s.reqs[r];
    s.(free := s.free[t.i0 := false][t.i1 := false][t.i2 := false],
       desc := s.desc[t.i0 := Desc(Op(t.i0), 16, true, false, t.i1)]
                     [t.i1 := Desc(Contents(q.b), 1024, true, !q.write, t.i2)]
                     [t.i2 := Desc(Status(t.i0), 1, false, true, 0)],
       ops := s.ops[t.i0 := Command(q.write, q.sector)],
       info := s.info[t.i0 := Info(Some(q.b), 255)],
       busy := s.busy[q.b := true],
       avail := s.avail[s.availIdx % NUM := t.i0],
       availIdx := Bump(s.availIdx),
       reqs := s.reqs[r := q.(phase := Sent(t.i0, t.i1, t.i2), asleep := true)])
  }

  /** alloc3_desc has failed: it frees what it got, which wakes the others that wait for
      descriptors, and virtio_disk_rw sleeps. */
  function Failing(free: seq<bool>, reqs: seq<Req>, r: nat): seq<Req>
    requires r < |reqs|
  {
    var woken := if FirstFree(free, 0) < |free| then Woken(reqs, (q: Req) => q.phase.Ask?) else reqs;
    woken[r := reqs[r].(asleep := true)]
  }

  function Without(xs: seq<nat>, k: nat): seq<nat>
    requires k < |xs|
  {
    xs[..k] + xs[k + 1..]
  }

  /** What the device finds at a chain's head. */
  datatype Chain = Chain(command: Command, b: nat, status: nat)

  function ReadChain(desc: seq<Desc>, ops: seq<Command>, h: nat): Opt<Chain>
    requires |desc| == |ops| == NUM
  {
    if h >= NUM || !desc[h].hasNext || !desc[h].addr.Op? || desc[h].addr.i >= NUM || desc[h].len != 16 then None
    else
      var d1 := desc[h].next;
      if d1 >= NUM || !desc[d1].hasNext || !desc[d1].addr.Contents? || desc[d1].len != 1024
         || desc[d1].write == ops[desc[h].addr.i].write then None
      else
        var d2 := desc[d1].next;
        if d2 >= NUM || desc[d2].hasNext || !desc[d2].addr.Status? || !desc[d2].write || desc[d2].addr.i >= NUM
           || desc[d2].len != 1 then None
        else Some(Chain(ops[desc[h].addr.i], desc[d1].addr.b, desc[d2].addr.i))
  }

  /** The requests after the device has made a transfer for the chain that starts at h. */
  function Noted(reqs: seq<Req>, h: nat, m: Move): (r: seq<Req>)
    ensures |r| == |reqs|
    ensures forall k :: 0 <= k < |r| ==>
              r[k] == if reqs[k].phase.Sent? && reqs[k].phase.i0 == h then reqs[k].(moves := reqs[k].moves + [m])
                else reqs[k]
  {
    seq(|reqs|, k requires 0 <= k < |reqs| =>
      if reqs[k].phase.Sent? && reqs[k].phase.i0 == h then reqs[k].(moves := reqs[k].moves + [m]) else reqs[k])
  }

  /** The device serves a chain: it moves a block and writes the status byte; with a status
      other than 0 the destination gets anything. */
  function Performed(s: State, h: nat, c: Chain, status: nat, junk: nat): State
    requires Shape(s) && c.b < |s.data| && c.status < NUM
  {
    var value := if status != 0 then junk else if c.command.write then s.data[c.b]
      else OnMedia(s.media, c.command.sector);
    s.(media := if c.command.write then s.media[c.command.sector := value] else s.media,
       data := if c.command.write then s.data else s.data[c.b := value],
       info := s.info[c.status := s.info[c.status].(status := status)],
       reqs := if status == 0 then Noted(s.reqs, h, Move(c.command.write, c.command.sector, c.b, value)) else s.reqs,
       failed := s.failed || status != 0)
  }

  /** The requests after the interrupt handler has reported buffer b. */
  function Told(reqs: seq<Req>, b: nat): (r: seq<Req>)
    ensures |r| == |reqs|
    ensures forall k :: 0 <= k < |r| ==>
              r[k] == if reqs[k].phase.Sent? && reqs[k].b == b then reqs[k].(told := reqs[k].told + 1, asleep := false)
                else reqs[k]
  {
    seq(|reqs|, k requires 0 <= k < |reqs| =>
      if reqs[k].phase.Sent? && reqs[k].b == b then reqs[k].(told := reqs[k].told + 1, asleep := false) else reqs[k])
  }

  /** One turn of the interrupt handler's loop. */
  function Consumed(s: State): State
    requires Shape(s)
  {
    var id := s.used[s.seen % NUM];
    if id >= NUM then s.(halt := BadChain)
    else if s.info[id].status != 0 then s.(halt := DiskError)
    else if s.info[id].b == None || s.info[id].b.v >= |s.busy| then s.(halt := NullBuffer)
    else s.(busy := s.busy[s.info[id].b.v := false], reqs := Told(s.reqs, s.info[id].b.v), seen := Bump(s.seen))
  }

  /** virtio_disk_rw's end. */
  function Finished(s: State, r: nat): State
    requires Shape(s) && r < |s.reqs| && s.reqs[r].phase.Sent? && s.reqs[r].phase.i0 < NUM
  {
    var i0 := s.reqs[r].phase.i0;
    var info := s.info[i0 := s.info[i0].(b := None)];
    match FreeChain(s.free, s.desc, i0)
    case None => s.(info := info, halt := FreeDescPanic)
    case Some(p) =>
      s.(info := info, free := p.free, desc := p.desc,
         reqs := Woken(s.reqs[r := s.reqs[r].(phase := Done)], (q: Req) => q.phase.Ask?))
  }

  /** The caller of virtio_disk_rw holds the buffer's sleep lock. */
  predicate Next(s: State, s': State, ev: Event)
    requires Shape(s)
  {
    && s.halt == Going
    && match ev
       case Call(b, blockno, value, write) =>
         && b < |s.busy| && (forall k :: 0 <= k < |s.reqs| ==> s.reqs[k].phase.Done? || s.reqs[k].b != b)
         && s' == s.(data := s.data[b := value],
                     reqs := s.reqs + [Req(b, write, blockno * 2 % 0x1_0000_0000, value, Ask, false, [], 0)])
       case Try(r) =>
         && r < |s.reqs| && s.reqs[r].phase.Ask? && !s.reqs[r].asleep && s.reqs[r].b < |s.busy|
         && var t := Alloc3(s.free);
         s' == if t.None? then s.(reqs := Failing(s.free, s.reqs, r)) else Sending(s, r, t.v)
       case Pop =>
         && s.lastAvail != s.availIdx
         && s' == s.(taken := s.taken + [s.avail[s.lastAvail % NUM]], lastAvail := Bump(s.lastAvail))
       case Perform(k, status, junk) =>
         && k < |s.taken|
         && var c := ReadChain(s.desc, s.ops, s.taken[k]);
         s' == if c.None? || c.v.b >= |s.data| then s.(halt := BadChain)
               else Performed(s.(taken := Without(s.taken, k), performed := s.performed + [s.taken[k]]), s.taken[k],
                              c.v, status, junk)
       case Publish(k) =>
         && k < |s.performed|
         && s' == s.(performed := Without(s.performed, k), used := s.used[s.usedIdx % NUM := s.performed[k]],
                     usedIdx := Bump(s.usedIdx))
       case Consume => s.seen != s.usedIdx && s' == Consumed(s)
       case Finish(r) =>
         && r < |s.reqs| && s.reqs[r].phase.Sent? && !s.reqs[r].asleep && s.reqs[r].b < |s.busy|
         && s.reqs[r].phase.i0 < NUM
         && s' == if s.busy[s.reqs[r].b] then s.(reqs := s.reqs[r := s.reqs[r].(asleep := true)]) else Finished(s, r)
  }

  predicate Initial(s: State) {
    && Shape(s) && s.halt == Going && s.reqs == [] && s.taken == [] && s.performed == []
    && s.availIdx == s.lastAvail && s.usedIdx == s.seen
    && (forall b :: 0 <= b < |s.busy| ==> !s.busy[b])
    && forall i :: 0 <= i < NUM ==> s.free[i] && s.desc[i] == CLEAR && s.info[i].b == None
  }

  // ---- the invariant

  /** Heads that the driver has offered and the device has not taken. */
  function Offered(s: State): seq<nat>
    requires Shape(s)
  {
    Slots(s.avail, s.lastAvail, s.availIdx)
  }

  /** Heads that the device has published and the driver has not looked at. */
  function Returned(s: State): seq<nat>
    requires Shape(s)
  {
    Slots(s.used, s.seen, s.usedIdx)
  }

  /** Heads of chains that the device has still to serve. */
  function Early(s: State): multiset<nat>
    requires Shape(s)
  {
    multiset(Offered(s)) + multiset(s.taken)
  }

  /** Heads of chains that the device has served and the driver has not seen. */
  function Late(s: State): multiset<nat>
    requires Shape(s)
  {
    multiset(s.performed) + multiset(Returned(s))
  }

  predicate HeadOf(q: Req, h: nat) {
    q.phase.Sent? && q.phase.i0 == h
  }

  predicate InChain(q: Req, i: nat) {
    q.phase.Sent? && (i == q.phase.i0 || i == q.phase.i1 || i == q.phase.i2)
  }

  /** The three descriptors of a request are in use, linked, and about its buffer. */
  predicate ChainOk(free: seq<bool>, desc: seq<Desc>, ops: seq<Command>, info: seq<Info>, q: Req)
    requires |free| == |desc| == |ops| == |info| == NUM
  {
    q.phase.Sent? ==>
      && q.phase.i0 < NUM && q.phase.i1 < NUM && q.phase.i2 < NUM
      && q.phase.i0 != q.phase.i1 && q.phase.i0 != q.phase.i2 && q.phase.i1 != q.phase.i2
      && !free[q.phase.i0] && !free[q.phase.i1] && !free[q.phase.i2]
      && desc[q.phase.i0] == Desc(Op(q.phase.i0), 16, true, false, q.phase.i1)
      && desc[q.phase.i1] == Desc(Contents(q.b), 1024, true, !q.write, q.phase.i2)
      && desc[q.phase.i2] == Desc(Status(q.phase.i0), 1, false, true, 0)
      && ops[q.phase.i0] == Command(q.write, q.sector)
      && info[q.phase.i0].b == Some(q.b)
  }

  /** The device has made one transfer: the request's command, for the request's buffer. */
  predicate Moved(q: Req) {
    |q.moves| == 1 && q.moves[0].write == q.write && q.moves[0].sector == q.sector && q.moves[0].b == q.b
    && (q.write ==> q.moves[0].value == q.sent)
  }

  /** How far a request has come. */
  predicate ReqOk(info: seq<Info>, data: seq<nat>, busy: seq<bool>, free: seq<bool>, failed: bool,
                  early: multiset<nat>, late: multiset<nat>, q: Req)
    requires |info| == NUM && |data| == |busy|
  {
    match q.phase
    case Ask =>
      && q.b < |busy| && !busy[q.b] && q.moves == [] && q.told == 0 && data[q.b] == q.sent
      && (q.asleep ==> NumFree(free) < 3)
    case Sent(h, _, _) =>
      && q.b < |busy| && h < NUM
      && (q.asleep ==> busy[q.b])
      && early[h] + late[h] == (if busy[q.b] then 1 else 0)
      && q.told == (if busy[q.b] then 0 else 1)
      && (!busy[q.b] ==> info[h].status == 0)
      && (early[h] > 0 ==> q.moves == [] && data[q.b] == q.sent)
      && (early[h] == 0 && info[h].status == 0 ==> Moved(q) && (!q.write ==> data[q.b] == q.moves[0].value))
      && (early[h] == 0 && info[h].status != 0 ==> failed)
    case Done => Moved(q) && q.told == 1
  }

  /** Two requests have different buffers and no descriptor in common. */
  predicate PairOk(p: Req, q: Req) {
    && (!p.phase.Done? && !q.phase.Done? ==> p.b != q.b)
    && (p.phase.Sent? && q.phase.Sent? ==>
          !InChain(q, p.phase.i0) && !InChain(q, p.phase.i1) && !InChain(q, p.phase.i2))
  }

  ghost predicate Headed(reqs: seq<Req>, h: nat) {
    exists k :: 0 <= k < |reqs| && HeadOf(reqs[k], h)
  }

  ghost predicate Chained(reqs: seq<Req>, i: nat) {
    exists k :: 0 <= k < |reqs| && InChain(reqs[k], i)
  }

  predicate For(q: Req, b: nat) {
    q.phase.Sent? && q.b == b
  }

  ghost predicate Awaited(reqs: seq<Req>, b: nat) {
    exists k :: 0 <= k < |reqs| && For(reqs[k], b)
  }

  predicate Pairs(reqs: seq<Req>) {
    forall j, k :: 0 <= j < |reqs| && 0 <= k < |reqs| && j != k ==> PairOk(reqs[j], reqs[k])
  }

  /** What is in use is in use by a request: heads that the device has, descriptors that are
      not free, and buffers that are marked. */
  ghost predicate Covered(reqs: seq<Req>, free: seq<bool>, busy: seq<bool>, heads: multiset<nat>) {
    && (forall h :: h in heads ==> Headed(reqs, h))
    && (forall i :: 0 <= i < |free| && !free[i] ==> Chained(reqs, i))
    && (forall b :: 0 <= b < |busy| && busy[b] ==> Awaited(reqs, b))
  }

  predicate Cleared(free: seq<bool>, desc: seq<Desc>) {
    |free| == |desc| && forall i :: 0 <= i < |free| && free[i] ==> desc[i] == CLEAR
  }

  ghost predicate Inv(s: State) {
    && Shape(s) && (s.halt == Going || (s.halt == DiskError && s.failed))
    && (forall k :: 0 <= k < |s.reqs| ==> ChainOk(s.free, s.desc, s.ops, s.info, s.reqs[k]))
    && (forall k :: 0 <= k < |s.reqs| ==> ReqOk(s.info, s.data, s.busy, s.free, s.failed, Early(s), Late(s), s.reqs[k]))
    && Pairs(s.reqs)
    && Covered(s.reqs, s.free, s.busy, Early(s) + Late(s))
    && Cleared(s.free, s.desc)
  }

  // ---- rings

  lemma SlotAt(from: nat, k: nat)
    ensures (from + k) % WRAP % NUM == (from + k) % NUM
  {
    var n := from + k;
    assert n == n / WRAP * WRAP + n % WRAP;
    var m := n % WRAP;
    assert m == m / NUM * NUM + m % NUM;
    assert n == (n / WRAP * 8192 + m / NUM) * NUM + m % NUM;
    Remainder(n, n / WRAP * 8192 + m / NUM, m % NUM);
  }

  lemma Remainder(n: int, q: int, r: int)
    requires n == q * NUM + r && 0 <= r < NUM
    ensures n % NUM == r
  {
  }

  lemma Wrapped(n: nat)
    requires n < 2 * WRAP
    ensures n % WRAP == if n < WRAP then n else n - WRAP
  {
  }

  lemma GapFacts(from: nat, to: nat)
    requires from < WRAP && to < WRAP
    ensures (from + Gap(from, to)) % WRAP == to
    ensures Gap(from, to) + 1 < WRAP ==> Gap(from, Bump(to)) == Gap(from, to) + 1
    ensures from != to ==> Gap(from, to) > 0 && Gap(Bump(from), to) == Gap(from, to) - 1
  {
    Wrapped(from + Gap(from, to));
    Wrapped(from + 1);
    Wrapped(to + 1);
  }

  /** Adding an entry to a ring that is not full overwrites none that is still to be read,
      also where the index wraps. */
  lemma PushSlot(ring: seq<nat>, from: nat, to: nat, h: nat)
    requires |ring| == NUM && from < WRAP && to < WRAP && Gap(from, to) < NUM
    ensures Slots(ring[to % NUM := h], from, Bump(to)) == Slots(ring, from, to) + [h]
  {
    hide Gap, Bump;
    GapFacts(from, to);
    var n := Gap(from, to);
    SlotAt(from, n);
    var a := Slots(ring[to % NUM := h], from, Bump(to));
    var b := Slots(ring, from, to) + [h];
    forall k | 0 <= k < n + 1
      ensures a[k] == b[k]
    {
      SlotAt(from, k);
      if k < n {
        Apart(from + k, n - k);
      }
    }
  }

  lemma Apart(x: nat, d: nat)
    requires 0 < d < NUM
    ensures x % NUM != (x + d) % NUM
  {
  }

  lemma PopSlot(ring: seq<nat>, from: nat, to: nat)
    requires |ring| == NUM && from < WRAP && to < WRAP && from != to
    ensures Slots(ring, from, to) == [ring[from % NUM]] + Slots(ring, Bump(from), to)
  {
    hide Gap;
    GapFacts(from, to);
    var n := Gap(from, to);
    var a := Slots(ring, from, to);
    var b := [ring[from % NUM]] + Slots(ring, Bump(from), to);
    forall k | 0 <= k < n
      ensures a[k] == b[k]
    {
      if k > 0 {
        BumpAt(from, k);
      }
    }
  }

  lemma BumpAt(from: nat, k: nat)
    requires k > 0
    ensures (Bump(from) + (k - 1)) % WRAP == (from + k) % WRAP
  {
  }

  lemma WithoutCounts(xs: seq<nat>, k: nat)
    requires k < |xs|
    ensures multiset(xs) == multiset(Without(xs, k)) + multiset{xs[k]}
  {
    assert xs == xs[..k] + [xs[k]] + xs[k + 1..];
  }

  lemma {:induction false} Pigeons(xs: seq<nat>, n: nat)
    requires forall i :: 0 <= i < |xs| ==> xs[i] < n
    requires forall i :: 0 <= i < |xs| ==> multiset(xs)[xs[i]] <= 1
    ensures |xs| <= n
    decreases n
  {
    if n == 0 {
    } else if k :| 0 <= k < |xs| && xs[k] == n - 1 {
      WithoutCounts(xs, k);
      var ys := Without(xs, k);
      forall i | 0 <= i < |ys|
        ensures ys[i] < n - 1 && multiset(ys)[ys[i]] <= 1
      {
        assert ys[i] in multiset(ys);
        assert ys[i] in multiset(xs);
        assert ys[i] in xs;
      }
      Pigeons(ys, n - 1);
    } else {
      Pigeons(xs, n - 1);
    }
  }
}
