/** Every step of the virtio driver and its device keeps the queue's invariant. */
module VirtioRuns {
  import opened Options
  import opened Virtio

  /** A head that the device has is that of one request that is waiting for it. */
  lemma HeadFacts(s: State, h: nat) returns (k: nat)
    requires Inv(s) && h in Early(s) + Late(s)
    ensures k < |s.reqs| && HeadOf(s.reqs[k], h) && h < NUM && !s.free[h] && (Early(s) + Late(s))[h] == 1
    ensures s.reqs[k].b < |s.busy| && s.busy[s.reqs[k].b]
  {
    hide Slots, NumFree, Gap;
    assert Headed(s.reqs, h);
    k :| 0 <= k < |s.reqs| && HeadOf(s.reqs[k], h);
    assert ChainOk(s.free, s.desc, s.ops, s.info, s.reqs[k]);
    assert ReqOk(s.info, s.data, s.busy, s.free, s.failed, Early(s), Late(s), s.reqs[k]);
  }

  /** There is room for one more head in a ring that holds only heads the device has. */
  lemma Room(s: State, xs: seq<nat>, h: nat)
    requires Inv(s) && h < NUM && h !in xs
    requires multiset(xs) <= Early(s) + Late(s)
    ensures |xs| < NUM
  {
    hide Slots, NumFree, Gap, Inv;
    var ys := xs + [h];
    forall i | 0 <= i < |ys|
      ensures ys[i] < NUM && multiset(ys)[ys[i]] <= 1
    {
      if i < |xs| {
        assert ys[i] in multiset(xs);
        var k := HeadFacts(s, ys[i]);
      } else {
        assert multiset(xs)[h] == 0;
      }
    }
    Pigeons(ys, NUM);
  }

  lemma InvShape(s: State)
    requires Inv(s)
    ensures Shape(s)
  {
  }

  /** The chains are the same ones. */
  predicate SamePhases(xs: seq<Req>, ys: seq<Req>) {
    |xs| <= |ys| && forall k :: 0 <= k < |xs| ==> xs[k].phase == ys[k].phase && xs[k].b == ys[k].b
  }

  lemma HeadedSame(xs: seq<Req>, ys: seq<Req>, h: nat)
    requires SamePhases(xs, ys) && Headed(xs, h)
    ensures Headed(ys, h)
  {
    var k :| 0 <= k < |xs| && HeadOf(xs[k], h);
    assert HeadOf(ys[k], h);
  }

  lemma ChainedSame(xs: seq<Req>, ys: seq<Req>, i: nat)
    requires SamePhases(xs, ys) && Chained(xs, i)
    ensures Chained(ys, i)
  {
    var k :| 0 <= k < |xs| && InChain(xs[k], i);
    assert InChain(ys[k], i);
  }

  lemma AwaitedSame(xs: seq<Req>, ys: seq<Req>, b: nat)
    requires SamePhases(xs, ys) && Awaited(xs, b)
    ensures Awaited(ys, b)
  {
    var k :| 0 <= k < |xs| && For(xs[k], b);
    assert For(ys[k], b);
  }

  lemma CoveredSame(xs: seq<Req>, ys: seq<Req>, free: seq<bool>, busy: seq<bool>, busy': seq<bool>,
                    heads: multiset<nat>, heads': multiset<nat>)
    requires Covered(xs, free, busy, heads) && SamePhases(xs, ys) && heads' <= heads
    requires |busy'| == |busy| && forall b :: 0 <= b < |busy| && busy'[b] ==> busy[b]
    ensures Covered(ys, free, busy', heads')
  {
    hide Headed, Chained, Awaited, SamePhases;
    forall h | h in heads'
      ensures Headed(ys, h)
    {
      assert h in heads;
      HeadedSame(xs, ys, h);
    }
    forall i | 0 <= i < |free| && !free[i]
      ensures Chained(ys, i)
    {
      ChainedSame(xs, ys, i);
    }
    forall b | 0 <= b < |busy'| && busy'[b]
      ensures Awaited(ys, b)
    {
      AwaitedSame(xs, ys, b);
    }
  }

  lemma PairsSame(xs: seq<Req>, ys: seq<Req>)
    requires Pairs(xs) && SamePhases(xs, ys) && |xs| == |ys|
    ensures Pairs(ys)
  {
    forall j, k | 0 <= j < |ys| && 0 <= k < |ys| && j != k
      ensures PairOk(ys[j], ys[k])
    {
      assert PairOk(xs[j], xs[k]);
    }
  }

  // ---- a call

  lemma CallKeeps(s: State, s': State, b: nat, blockno: nat, value: nat, write: bool)
    requires Inv(s) && Next(s, s', Call(b, blockno, value, write))
    ensures Inv(s')
  {
    hide Slots, NumFree, Gap, Pairs, Covered, Headed, Chained, Awaited;
    assert Early(s') == Early(s) && Late(s') == Late(s);
    NotBusy(s.reqs, s.free, s.busy, Early(s) + Late(s), b);
    forall k | 0 <= k < |s'.reqs|
      ensures ChainOk(s'.free, s'.desc, s'.ops, s'.info, s'.reqs[k])
      ensures ReqOk(s'.info, s'.data, s'.busy, s'.free, s'.failed, Early(s'), Late(s'), s'.reqs[k])
    {
      if k < |s.reqs| {
        assert ChainOk(s.free, s.desc, s.ops, s.info, s.reqs[k]);
        assert ReqOk(s.info, s.data, s.busy, s.free, s.failed, Early(s), Late(s), s.reqs[k]);
      }
    }
    PairsMore(s.reqs, s'.reqs[|s.reqs|]);
    CoveredSame(s.reqs, s'.reqs, s.free, s.busy, s.busy, Early(s) + Late(s), Early(s) + Late(s));
  }

  lemma NotBusy(reqs: seq<Req>, free: seq<bool>, busy: seq<bool>, heads: multiset<nat>, b: nat)
    requires Covered(reqs, free, busy, heads) && b < |busy|
    requires forall k :: 0 <= k < |reqs| ==> reqs[k].phase.Done? || reqs[k].b != b
    ensures !busy[b]
  {
    assert busy[b] ==> Awaited(reqs, b);
  }

  lemma PairsMore(reqs: seq<Req>, q: Req)
    requires Pairs(reqs) && q.phase.Ask?
    requires forall k :: 0 <= k < |reqs| ==> reqs[k].phase.Done? || reqs[k].b != q.b
    ensures Pairs(reqs + [q])
  {
    var ys := reqs + [q];
    forall j, k | 0 <= j < |ys| && 0 <= k < |ys| && j != k
      ensures PairOk(ys[j], ys[k])
    {
      assert j < |reqs| && k < |reqs| ==> PairOk(reqs[j], reqs[k]);
    }
  }

  // ---- the device

  /** Only where a head is changes. */
  lemma Shifted(s: State, s': State)
    requires Inv(s) && Shape(s') && Early(s') == Early(s) && Late(s') == Late(s)
    requires s' == s.(avail := s'.avail, availIdx := s'.availIdx, seen := s'.seen, used := s'.used,
                      usedIdx := s'.usedIdx,
                      lastAvail := s'.lastAvail, taken := s'.taken, performed := s'.performed)
    ensures Inv(s')
  {
    hide Slots, NumFree, Gap, Pairs, Covered;
    forall k | 0 <= k < |s'.reqs|
      ensures ChainOk(s'.free, s'.desc, s'.ops, s'.info, s'.reqs[k])
      ensures ReqOk(s'.info, s'.data, s'.busy, s'.free, s'.failed, Early(s'), Late(s'), s'.reqs[k])
    {
      assert ChainOk(s.free, s.desc, s.ops, s.info, s.reqs[k]);
      assert ReqOk(s.info, s.data, s.busy, s.free, s.failed, Early(s), Late(s), s.reqs[k]);
    }
  }

  lemma PopKeeps(s: State, s': State)
    requires Inv(s) && Next(s, s', Pop)
    ensures Inv(s')
  {
    hide Slots, NumFree, Gap, Inv;
    InvShape(s);
    PopSlot(s.avail, s.lastAvail, s.availIdx);
    Shifted(s, s');
  }

  lemma PublishKeeps(s: State, s': State, k: nat)
    requires Inv(s) && Next(s, s', Publish(k))
    ensures Inv(s')
  {
    hide Slots, NumFree, Inv;
    InvShape(s);
    var h := s.performed[k];
    WithoutCounts(s.performed, k);
    assert h in multiset(s.performed);
    var r := HeadFacts(s, h);
    assert multiset(Returned(s))[h] == 0;
    assert multiset(Returned(s)) <= Early(s) + Late(s);
    Room(s, Returned(s), h);
    assert |Returned(s)| == Gap(s.seen, s.usedIdx) by { SlotsLength(s.used, s.seen, s.usedIdx); }
    PushSlot(s.used, s.seen, s.usedIdx, h);
    Shifted(s, s');
  }

  lemma SlotsLength(ring: seq<nat>, from: nat, to: nat)
    requires |ring| == NUM && from < WRAP
    ensures |Slots(ring, from, to)| == Gap(from, to)
  {
  }

  lemma ChainRead(s: State, r: nat)
    requires Inv(s) && r < |s.reqs| && s.reqs[r].phase.Sent?
    ensures s.reqs[r].phase.i0 < NUM && s.reqs[r].b < |s.data|
    ensures ReadChain(s.desc, s.ops, s.reqs[r].phase.i0)
              == Some(Chain(Command(s.reqs[r].write, s.reqs[r].sector), s.reqs[r].b, s.reqs[r].phase.i0))
  {
    hide Slots, NumFree, Gap, Pairs, Covered;
    assert ChainOk(s.free, s.desc, s.ops, s.info, s.reqs[r]);
    assert ReqOk(s.info, s.data, s.busy, s.free, s.failed, Early(s), Late(s), s.reqs[r]);
  }

  lemma InvReq(s: State, k: nat)
    requires Inv(s) && k < |s.reqs|
    ensures ChainOk(s.free, s.desc, s.ops, s.info, s.reqs[k])
    ensures ReqOk(s.info, s.data, s.busy, s.free, s.failed, Early(s), Late(s), s.reqs[k])
  {
    hide Slots, NumFree, Gap, Pairs, Covered;
  }

  lemma InvPair(s: State, j: nat, k: nat)
    requires Inv(s) && j < |s.reqs| && k < |s.reqs| && j != k
    ensures PairOk(s.reqs[j], s.reqs[k])
  {
    hide Slots, NumFree, Gap, Covered;
  }

  lemma PerformKeeps(s: State, s': State, k: nat, status: nat, junk: nat)
    requires Inv(s) && Next(s, s', Perform(k, status, junk))
    ensures Inv(s')
  {
    hide Slots, NumFree, Gap, Inv, ReadChain;
    InvShape(s);
    var h := s.taken[k];
    assert h in multiset(s.taken);
    var r := HeadFacts(s, h);
    ChainRead(s, r);
    WithoutCounts(s.taken, k);
    Served(s, s', r, h, status, junk);
  }

  /** The device has served request r. */
  lemma Served(s: State, s': State, r: nat, h: nat, status: nat, junk: nat)
    requires Inv(s) && Shape(s') && r < |s.reqs| && HeadOf(s.reqs[r], h) && s.reqs[r].b < |s.data| && h < NUM
    requires s.halt == Going
    requires Early(s) == Early(s') + multiset{h} && Late(s') == Late(s) + multiset{h}
    requires s' == Performed(s.(taken := s'.taken, performed := s'.performed), h,
                             Chain(Command(s.reqs[r].write, s.reqs[r].sector), s.reqs[r].b, h), status, junk)
    ensures Inv(s')
  {
    hide Slots, NumFree, Gap, Inv, Pairs, Covered, Early, Late, ChainOk, ReqOk, Cleared;
    InvShape(s);
    forall j | 0 <= j < |s'.reqs|
      ensures ChainOk(s'.free, s'.desc, s'.ops, s'.info, s'.reqs[j])
      ensures ReqOk(s'.info, s'.data, s'.busy, s'.free, s'.failed, Early(s'), Late(s'), s'.reqs[j])
    {
      ServedReq(s, s', r, h, status, junk, j);
    }
    InvParts(s);
    PairsSame(s.reqs, s'.reqs);
    CoveredSame(s.reqs, s'.reqs, s.free, s.busy, s.busy, Early(s) + Late(s), Early(s') + Late(s'));
    InvOf(s');
  }

  lemma ServedReq(s: State, s': State, r: nat, h: nat, status: nat, junk: nat, j: nat)
    requires Inv(s) && Shape(s') && r < |s.reqs| && HeadOf(s.reqs[r], h) && s.reqs[r].b < |s.data| && h < NUM
    requires j < |s.reqs|
    requires Early(s) == Early(s') + multiset{h} && Late(s') == Late(s) + multiset{h}
    requires s' == Performed(s.(taken := s'.taken, performed := s'.performed), h,
                             Chain(Command(s.reqs[r].write, s.reqs[r].sector), s.reqs[r].b, h), status, junk)
    ensures ChainOk(s'.free, s'.desc, s'.ops, s'.info, s'.reqs[j])
    ensures ReqOk(s'.info, s'.data, s'.busy, s'.free, s'.failed, Early(s'), Late(s'), s'.reqs[j])
  {
    hide Slots, NumFree, Gap, Inv, Pairs, Covered, Early, Late;
    InvShape(s);
    InvReq(s, r);
    InvReq(s, j);
    if j != r {
      InvPair(s, j, r);
    }
  }

  lemma InvParts(s: State)
    requires Inv(s)
    ensures Pairs(s.reqs) && Covered(s.reqs, s.free, s.busy, Early(s) + Late(s)) && Cleared(s.free, s.desc)
  {
    hide Slots, NumFree, Gap, Pairs, Covered, Cleared, ChainOk, ReqOk;
  }

  lemma InvOf(s: State)
    requires Shape(s) && (s.halt == Going || (s.halt == DiskError && s.failed))
    requires forall k :: 0 <= k < |s.reqs| ==> ChainOk(s.free, s.desc, s.ops, s.info, s.reqs[k])
    requires forall k :: 0 <= k < |s.reqs| ==>
      ReqOk(s.info, s.data, s.busy, s.free, s.failed, Early(s), Late(s), s.reqs[k])
    requires Pairs(s.reqs) && Covered(s.reqs, s.free, s.busy, Early(s) + Late(s)) && Cleared(s.free, s.desc)
    ensures Inv(s)
  {
    hide Slots, NumFree, Gap, Pairs, Covered, Cleared, ChainOk, ReqOk;
  }

  // ---- the interrupt handler

  lemma ConsumeKeeps(s: State, s': State)
    requires Inv(s) && Next(s, s', Consume)
    ensures Inv(s')
  {
    hide Slots, NumFree, Gap, Inv;
    InvShape(s);
    PopSlot(s.used, s.seen, s.usedIdx);
    var h := s.used[s.seen % NUM];
    assert h in multiset(Returned(s));
    var r := HeadFacts(s, h);
    Reported(s, s', r, h);
  }

  /** The handler has looked at the entry of request r. */
  lemma Reported(s: State, s': State, r: nat, h: nat)
    requires Inv(s) && r < |s.reqs| && HeadOf(s.reqs[r], h) && h < NUM && s.reqs[r].b < |s.busy| && s.busy[s.reqs[r].b]
    requires h == s.used[s.seen % NUM] && h in Late(s)
    requires s.halt == Going && s' == Consumed(s)
    requires Slots(s.used, s.seen, s.usedIdx) == [h] + Slots(s.used, Bump(s.seen), s.usedIdx)
    ensures Inv(s')
  {
    hide Slots, NumFree, Gap, Inv, Pairs, Covered;
    InvShape(s);
    InvReq(s, r);
    InvParts(s);
    if s.info[h].status != 0 {
      Halted(s);
    } else {
      assert Early(s') == Early(s) && Late(s) == Late(s') + multiset{h};
      forall j | 0 <= j < |s'.reqs|
        ensures ChainOk(s'.free, s'.desc, s'.ops, s'.info, s'.reqs[j])
        ensures ReqOk(s'.info, s'.data, s'.busy, s'.free, s'.failed, Early(s'), Late(s'), s'.reqs[j])
      {
        ReportedReq(s, s', r, h, j);
      }
      PairsSame(s.reqs, s'.reqs);
      CoveredSame(s.reqs, s'.reqs, s.free, s.busy, s'.busy, Early(s) + Late(s), Early(s') + Late(s'));
      InvOf(s');
    }
  }

  lemma ReportedReq(s: State, s': State, r: nat, h: nat, j: nat)
    requires Inv(s) && Shape(s') && r < |s.reqs| && HeadOf(s.reqs[r], h) && h < NUM && s.reqs[r].b < |s.busy|
    requires s.busy[s.reqs[r].b]
    requires h == s.used[s.seen % NUM] && h in Late(s) && j < |s.reqs| && s.info[h].status == 0
    requires s' == Consumed(s) && Early(s') == Early(s) && Late(s) == Late(s') + multiset{h}
    ensures ChainOk(s'.free, s'.desc, s'.ops, s'.info, s'.reqs[j])
    ensures ReqOk(s'.info, s'.data, s'.busy, s'.free, s'.failed, Early(s'), Late(s'), s'.reqs[j])
  {
    hide Slots, NumFree, Gap, Inv, Pairs, Covered, Early, Late;
    InvReq(s, r);
    InvReq(s, j);
    if j != r {
      InvPair(s, j, r);
    }
  }

  lemma Halted(s: State)
    requires Inv(s) && s.failed
    ensures Inv(s.(halt := DiskError))
  {
    hide Slots, NumFree, Gap, Pairs, Covered;
    var s' := s.(halt := DiskError);
    assert Early(s') == Early(s) && Late(s') == Late(s);
  }

  // ---- the driver

  lemma {:induction false} NoneFree(free: seq<bool>)
    requires forall k :: 0 <= k < |free| ==> !free[k]
    ensures NumFree(free) == 0
  {
    if free != [] {
      NoneFree(free[..|free| - 1]);
    }
  }

  lemma TakeOne(free: seq<bool>, i: nat)
    requires i < |free| && free[i]
    ensures NumFree(free) == NumFree(free[i := false]) + 1
  {
    FreeOne(free[i := false], i);
    assert free[i := false][i := true] == free;
  }

  /** alloc3_desc fails exactly when fewer than three descriptors are free. */
  lemma Alloc3Fails(free: seq<bool>)
    ensures Alloc3(free).None? <==> NumFree(free) < 3
  {
    hide NumFree;
    var i0 := FirstFree(free, 0);
    if i0 == |free| {
      NoneFree(free);
    } else {
      TakeOne(free, i0);
      var f1 := free[i0 := false];
      var i1 := FirstFree(free, i0 + 1);
      if i1 == |free| {
        NoneFree(f1);
      } else {
        TakeOne(f1, i1);
        var f2 := f1[i1 := false];
        var i2 := FirstFree(free, i1 + 1);
        if i2 == |free| {
          NoneFree(f2);
        } else {
          TakeOne(f2, i2);
        }
      }
    }
  }

  lemma FailKeeps(s: State, s': State, r: nat)
    requires Inv(s) && Next(s, s', Try(r)) && Alloc3(s.free) == None
    ensures Inv(s')
  {
    hide Slots, NumFree, Gap, Inv, Pairs, Covered, Cleared, Alloc3, FirstFree;
    InvShape(s);
    InvParts(s);
    assert Early(s') == Early(s) && Late(s') == Late(s);
    Alloc3Fails(s.free);
    forall j | 0 <= j < |s'.reqs|
      ensures ChainOk(s'.free, s'.desc, s'.ops, s'.info, s'.reqs[j])
      ensures ReqOk(s'.info, s'.data, s'.busy, s'.free, s'.failed, Early(s'), Late(s'), s'.reqs[j])
    {
      InvReq(s, j);
    }
    PairsSame(s.reqs, s'.reqs);
    CoveredSame(s.reqs, s'.reqs, s.free, s.busy, s'.busy, Early(s) + Late(s), Early(s') + Late(s'));
    InvOf(s');
  }

  /** Only request r has changed its chain. */
  predicate OnlyReq(xs: seq<Req>, ys: seq<Req>, r: nat) {
    && |xs| == |ys| && r < |xs| && xs[r].b == ys[r].b
    && forall k :: 0 <= k < |xs| && k != r ==> xs[k].phase == ys[k].phase && xs[k].b == ys[k].b
  }

  lemma HeadedBut(xs: seq<Req>, ys: seq<Req>, r: nat, h: nat)
    requires OnlyReq(xs, ys, r) && Headed(xs, h) && !HeadOf(xs[r], h)
    ensures Headed(ys, h)
  {
    var k :| 0 <= k < |xs| && HeadOf(xs[k], h);
    assert HeadOf(ys[k], h);
  }

  lemma ChainedBut(xs: seq<Req>, ys: seq<Req>, r: nat, i: nat)
    requires OnlyReq(xs, ys, r) && Chained(xs, i) && !InChain(xs[r], i)
    ensures Chained(ys, i)
  {
    var k :| 0 <= k < |xs| && InChain(xs[k], i);
    assert InChain(ys[k], i);
  }

  lemma AwaitedBut(xs: seq<Req>, ys: seq<Req>, r: nat, b: nat)
    requires OnlyReq(xs, ys, r) && Awaited(xs, b) && !For(xs[r], b)
    ensures Awaited(ys, b)
  {
    var k :| 0 <= k < |xs| && For(xs[k], b);
    assert For(ys[k], b);
  }

  predicate NewChain(free: seq<bool>, t: Three) {
    t.i0 < t.i1 < t.i2 < |free| && free[t.i0] && free[t.i1] && free[t.i2]
  }

  lemma SendingReq(s: State, s': State, r: nat, t: Three, j: nat)
    requires Inv(s) && Shape(s') && r < |s.reqs| && j < |s.reqs| && s.reqs[r].phase.Ask? && s.reqs[r].b < |s.busy|
    requires NewChain(s.free, t)
    requires s' == Sending(s, r, t) && Early(s') == Early(s) + multiset{t.i0} && Late(s') == Late(s)
    requires t.i0 !in Early(s) + Late(s) && NumFree(s'.free) <= NumFree(s.free)
    ensures ChainOk(s'.free, s'.desc, s'.ops, s'.info, s'.reqs[j])
    ensures ReqOk(s'.info, s'.data, s'.busy, s'.free, s'.failed, Early(s'), Late(s'), s'.reqs[j])
  {
    hide Slots, NumFree, Gap, Inv, Pairs, Covered, Early, Late;
    InvShape(s);
    InvReq(s, r);
    InvReq(s, j);
    if j != r {
      InvPair(s, j, r);
    }
  }

  lemma SendingPairs(s: State, s': State, r: nat, t: Three)
    requires Inv(s) && r < |s.reqs| && s.reqs[r].phase.Ask? && s.reqs[r].b < |s.busy| && NewChain(s.free, t)
    requires Shape(s) && s' == Sending(s, r, t)
    ensures Pairs(s'.reqs)
  {
    hide Slots, NumFree, Gap, Inv, Covered, Early, Late;
    forall j, k | 0 <= j < |s'.reqs| && 0 <= k < |s'.reqs| && j != k
      ensures PairOk(s'.reqs[j], s'.reqs[k])
    {
      InvPair(s, j, k);
      InvReq(s, j);
      InvReq(s, k);
    }
  }

  lemma SendingCovers(s: State, s': State, r: nat, t: Three)
    requires Inv(s) && Shape(s) && Shape(s') && r < |s.reqs| && s.reqs[r].phase.Ask? && s.reqs[r].b < |s.busy|
    requires NewChain(s.free, t)
    requires s' == Sending(s, r, t) && Early(s') + Late(s') == Early(s) + Late(s) + multiset{t.i0}
    ensures Covered(s'.reqs, s'.free, s'.busy, Early(s') + Late(s'))
    ensures Cleared(s'.free, s'.desc)
  {
    hide Slots, NumFree, Gap, Inv, Early, Late, Headed, Chained, Awaited, Pairs;
    InvParts(s);
    forall h | h in Early(s') + Late(s')
      ensures Headed(s'.reqs, h)
    {
      if h == t.i0 {
        IsHead(s'.reqs, r, h);
      } else {
        assert h in Early(s) + Late(s);
        HeadedBut(s.reqs, s'.reqs, r, h);
      }
    }
    forall i | 0 <= i < |s'.free| && !s'.free[i]
      ensures Chained(s'.reqs, i)
    {
      if InChain(s'.reqs[r], i) {
        IsChained(s'.reqs, r, i);
      } else {
        ChainedBut(s.reqs, s'.reqs, r, i);
      }
    }
    forall b | 0 <= b < |s'.busy| && s'.busy[b]
      ensures Awaited(s'.reqs, b)
    {
      if For(s'.reqs[r], b) {
        IsAwaited(s'.reqs, r, b);
      } else {
        AwaitedBut(s.reqs, s'.reqs, r, b);
      }
    }
  }

  lemma IsHead(reqs: seq<Req>, k: nat, h: nat)
    requires k < |reqs| && HeadOf(reqs[k], h)
    ensures Headed(reqs, h)
  {
  }

  lemma IsChained(reqs: seq<Req>, k: nat, i: nat)
    requires k < |reqs| && InChain(reqs[k], i)
    ensures Chained(reqs, i)
  {
  }

  lemma IsAwaited(reqs: seq<Req>, k: nat, b: nat)
    requires k < |reqs| && For(reqs[k], b)
    ensures Awaited(reqs, b)
  {
  }

  lemma SendKeeps(s: State, s': State, r: nat)
    requires Inv(s) && Next(s, s', Try(r)) && Alloc3(s.free).Some?
    ensures Inv(s')
  {
    hide Slots, NumFree, Inv, Pairs, Covered, Cleared, FirstFree, ChainOk, ReqOk;
    InvShape(s);
    var t := Alloc3(s.free).v;
    assert t.i0 !in Early(s) + Late(s) by { FreeIsNoHead(s, t.i0); }
    assert multiset(Offered(s)) <= Early(s) + Late(s);
    assert t.i0 !in multiset(Offered(s));
    Room(s, Offered(s), t.i0);
    SlotsLength(s.avail, s.lastAvail, s.availIdx);
    PushSlot(s.avail, s.lastAvail, s.availIdx, t.i0);
    assert Early(s') == Early(s) + multiset{t.i0} && Late(s') == Late(s);
    TakeThree(s.free, t);
    forall j | 0 <= j < |s'.reqs|
      ensures ChainOk(s'.free, s'.desc, s'.ops, s'.info, s'.reqs[j])
      ensures ReqOk(s'.info, s'.data, s'.busy, s'.free, s'.failed, Early(s'), Late(s'), s'.reqs[j])
    {
      SendingReq(s, s', r, t, j);
    }
    SendingPairs(s, s', r, t);
    SendingCovers(s, s', r, t);
    InvOf(s');
  }

  lemma FreeIsNoHead(s: State, i: nat)
    requires Inv(s) && i < NUM && s.free[i]
    ensures i !in Early(s) + Late(s)
  {
    hide Inv, Early, Late;
    InvShape(s);
    if i in Early(s) + Late(s) {
      var k := HeadFacts(s, i);
    }
  }

  lemma TakeThree(free: seq<bool>, t: Three)
    requires NewChain(free, t)
    ensures NumFree(free[t.i0 := false][t.i1 := false][t.i2 := false]) <= NumFree(free)
  {
    hide NumFree;
    TakeOne(free, t.i0);
    TakeOne(free[t.i0 := false], t.i1);
    TakeOne(free[t.i0 := false][t.i1 := false], t.i2);
  }

  lemma AgainKeeps(s: State, s': State, r: nat)
    requires Inv(s) && s.halt == Going && r < |s.reqs| && s.reqs[r].phase.Sent? && s.reqs[r].b < |s.busy|
    requires s.busy[s.reqs[r].b]
    requires s' == s.(reqs := s.reqs[r := s.reqs[r].(asleep := true)])
    ensures Inv(s')
  {
    hide Slots, NumFree, Gap, Inv, Pairs, Covered, Cleared;
    InvShape(s);
    InvParts(s);
    assert Early(s') == Early(s) && Late(s') == Late(s);
    forall j | 0 <= j < |s'.reqs|
      ensures ChainOk(s'.free, s'.desc, s'.ops, s'.info, s'.reqs[j])
      ensures ReqOk(s'.info, s'.data, s'.busy, s'.free, s'.failed, Early(s'), Late(s'), s'.reqs[j])
    {
      InvReq(s, j);
    }
    PairsSame(s.reqs, s'.reqs);
    CoveredSame(s.reqs, s'.reqs, s.free, s.busy, s'.busy, Early(s) + Late(s), Early(s') + Late(s'));
    InvOf(s');
  }

  /** free_chain frees the three descriptors of a request and no other. */
  lemma FreeChainFrees(free: seq<bool>, desc: seq<Desc>, ops: seq<Command>, info: seq<Info>, q: Req)
    requires |free| == |desc| == |ops| == |info| == NUM && q.phase.Sent? && ChainOk(free, desc, ops, info, q)
    ensures FreeChain(free, desc, q.phase.i0)
              == Some(Pool(free[q.phase.i0 := true][q.phase.i1 := true][q.phase.i2 := true],
                           desc[q.phase.i0 := CLEAR][q.phase.i1 := CLEAR][q.phase.i2 := CLEAR]))
  {
    var f1, d1 := free[q.phase.i0 := true], desc[q.phase.i0 := CLEAR];
    var f2, d2 := f1[q.phase.i1 := true], d1[q.phase.i1 := CLEAR];
    assert FreeChain(f2, d2, q.phase.i2) == Some(Pool(f2[q.phase.i2 := true], d2[q.phase.i2 := CLEAR]));
    assert FreeChain(f1, d1, q.phase.i1) == FreeChain(f2, d2, q.phase.i2);
  }

  /** What is left when request r has returned. */
  function Left(s: State, r: nat): State
    requires Shape(s) && r < |s.reqs| && s.reqs[r].phase.Sent? && s.reqs[r].phase.i0 < NUM && s.reqs[r].phase.i1 < NUM
    requires s.reqs[r].phase.i2 < NUM
  {
    var p := s.reqs[r].phase;
    s.(info := s.info[p.i0 := s.info[p.i0].(b := None)],
       free := s.free[p.i0 := true][p.i1 := true][p.i2 := true],
       desc := s.desc[p.i0 := CLEAR][p.i1 := CLEAR][p.i2 := CLEAR],
       reqs := Woken(s.reqs[r := s.reqs[r].(phase := Done)], (q: Req) => q.phase.Ask?))
  }

  predicate Ready(s: State, r: nat) {
    && Shape(s) && s.halt == Going && r < |s.reqs| && s.reqs[r].phase.Sent? && s.reqs[r].b < |s.busy|
    && !s.busy[s.reqs[r].b]
    && s.reqs[r].phase.i0 < NUM && s.reqs[r].phase.i1 < NUM && s.reqs[r].phase.i2 < NUM
  }

  lemma LeftReq(s: State, r: nat, j: nat)
    requires Inv(s) && Ready(s, r) && j < |s.reqs|
    ensures ChainOk(Left(s, r).free, Left(s, r).desc, Left(s, r).ops, Left(s, r).info, Left(s, r).reqs[j])
    ensures ReqOk(Left(s, r).info, s.data, s.busy, Left(s, r).free, s.failed, Early(s), Late(s), Left(s, r).reqs[j])
  {
    hide Slots, NumFree, Gap, Inv, Pairs, Covered, Early, Late;
    InvReq(s, r);
    InvReq(s, j);
    if j != r {
      InvPair(s, j, r);
      InvPair(s, r, j);
    }
  }

  lemma LeftPairs(s: State, r: nat)
    requires Inv(s) && Ready(s, r)
    ensures Pairs(Left(s, r).reqs)
  {
    hide Slots, NumFree, Gap, Inv, Covered, Early, Late;
    var ys := Left(s, r).reqs;
    forall j, k | 0 <= j < |ys| && 0 <= k < |ys| && j != k
      ensures PairOk(ys[j], ys[k])
    {
      InvPair(s, j, k);
    }
  }

  lemma LeftCovers(s: State, r: nat)
    requires Inv(s) && Ready(s, r)
    ensures Covered(Left(s, r).reqs, Left(s, r).free, s.busy, Early(s) + Late(s))
    ensures Cleared(Left(s, r).free, Left(s, r).desc)
  {
    hide Slots, NumFree, Gap, Inv, Early, Late, Headed, Chained, Awaited, Pairs;
    InvParts(s);
    InvReq(s, r);
    var s' := Left(s, r);
    assert OnlyReq(s.reqs, s'.reqs, r);
    forall h | h in Early(s) + Late(s)
      ensures Headed(s'.reqs, h)
    {
      HeadedBut(s.reqs, s'.reqs, r, h);
    }
    forall i | 0 <= i < |s'.free| && !s'.free[i]
      ensures Chained(s'.reqs, i)
    {
      ChainedBut(s.reqs, s'.reqs, r, i);
    }
    forall b | 0 <= b < |s.busy| && s.busy[b]
      ensures Awaited(s'.reqs, b)
    {
      AwaitedBut(s.reqs, s'.reqs, r, b);
    }
  }

  lemma LeftKeeps(s: State, r: nat)
    requires Inv(s) && Ready(s, r)
    ensures Inv(Left(s, r))
  {
    hide Slots, NumFree, Gap, Inv, Pairs, Covered, Cleared, ChainOk, ReqOk;
    var s' := Left(s, r);
    assert Early(s') == Early(s) && Late(s') == Late(s);
    forall j | 0 <= j < |s'.reqs|
      ensures ChainOk(s'.free, s'.desc, s'.ops, s'.info, s'.reqs[j])
      ensures ReqOk(s'.info, s'.data, s'.busy, s'.free, s'.failed, Early(s'), Late(s'), s'.reqs[j])
    {
      LeftReq(s, r, j);
    }
    LeftPairs(s, r);
    LeftCovers(s, r);
    InvOf(s');
  }

  lemma FinishKeeps(s: State, s': State, r: nat)
    requires Inv(s) && Next(s, s', Finish(r))
    ensures Inv(s')
  {
    hide Slots, NumFree, Gap, Inv, FreeChain;
    InvShape(s);
    InvReq(s, r);
    if s.busy[s.reqs[r].b] {
      AgainKeeps(s, s', r);
    } else {
      FreeChainFrees(s.free, s.desc, s.ops, s.info, s.reqs[r]);
      assert s' == Left(s, r);
      LeftKeeps(s, r);
    }
  }

  // ---- runs

  lemma InitialInv(s: State)
    requires Initial(s)
    ensures Inv(s)
  {
    hide NumFree;
    assert Offered(s) == [] && Returned(s) == [];
    assert Early(s) == multiset{} && Late(s) == multiset{};
  }

  lemma NextKeeps(s: State, s': State, ev: Event)
    requires Inv(s) && Next(s, s', ev)
    ensures Inv(s')
  {
    hide Inv, Slots, NumFree, Gap, FreeChain, Performed, ReadChain, Consumed, Finished, Sending, Failing;
    InvShape(s);
    match ev
    case Call(b, blockno, value, write) => CallKeeps(s, s', b, blockno, value, write);
    case Try(r) =>
      if Alloc3(s.free).None? {
        FailKeeps(s, s', r);
      } else {
        SendKeeps(s, s', r);
      }
    case Pop => PopKeeps(s, s');
    case Perform(k, status, junk) => PerformKeeps(s, s', k, status, junk);
    case Publish(k) => PublishKeeps(s, s', k);
    case Consume => ConsumeKeeps(s, s');
    case Finish(r) => FinishKeeps(s, s', r);
  }

  ghost predicate Run(ss: seq<State>, evs: seq<Event>) {
    && |ss| == |evs| + 1 && Initial(ss[0])
    && (forall k :: 0 <= k < |ss| ==> Shape(ss[k]))
    && (forall k :: 0 <= k < |evs| ==> Next(ss[k], ss[k + 1], evs[k]))
  }

  lemma {:induction false} RunInv(ss: seq<State>, evs: seq<Event>, k: nat)
    requires Run(ss, evs) && k < |ss|
    ensures Inv(ss[k])
    decreases k
  {
    hide Inv, Next, Initial;
    if k == 0 {
      InitialInv(ss[0]);
    } else {
      RunInv(ss, evs, k - 1);
      assert Next(ss[k - 1], ss[k - 1 + 1], evs[k - 1]);
      NextKeeps(ss[k - 1], ss[k], evs[k - 1]);
    }
  }

  /** In every run the free descriptors and the chains of the requests in flight partition
      the descriptors, three to a chain. */
  lemma Partition(ss: seq<State>, evs: seq<Event>, k: nat, i: nat)
    requires Run(ss, evs) && k < |ss| && i < NUM
    ensures ss[k].free[i] <==> !Chained(ss[k].reqs, i)
    ensures forall p, q :: 0 <= p < |ss[k].reqs| && 0 <= q < |ss[k].reqs|
                           && InChain(ss[k].reqs[p], i) && InChain(ss[k].reqs[q], i)
                           ==> p == q
    ensures forall p :: 0 <= p < |ss[k].reqs| && ss[k].reqs[p].phase.Sent? ==>
              |{ss[k].reqs[p].phase.i0, ss[k].reqs[p].phase.i1, ss[k].reqs[p].phase.i2}| == 3
  {
    hide Run, Inv, Early, Late, ReqOk, Headed, Awaited;
    RunInv(ss, evs, k);
    var s := ss[k];
    InvShape(s);
    InvParts(s);
    assert forall p, q :: 0 <= p < |s.reqs| && 0 <= q < |s.reqs| && p != q ==> PairOk(s.reqs[p], s.reqs[q]);
    forall p | 0 <= p < |s.reqs|
      ensures ChainOk(s.free, s.desc, s.ops, s.info, s.reqs[p])
    {
      InvReq(s, p);
    }
  }

  /** Each request that has returned was served once, for its own buffer and sector, and was
      reported once; what was written is what the buffer held at the call. */
  lemma ServedOnce(ss: seq<State>, evs: seq<Event>, k: nat, r: nat)
    requires Run(ss, evs) && k < |ss| && r < |ss[k].reqs| && ss[k].reqs[r].phase.Done?
    ensures Moved(ss[k].reqs[r]) && ss[k].reqs[r].told == 1
  {
    hide Run, Inv;
    RunInv(ss, evs, k);
    InvReq(ss[k], r);
  }

  /** virtio_disk_rw returns only after that one transfer, and after a read the buffer then
      holds what the device took from the request's sector. */
  lemma ReturnsServed(ss: seq<State>, evs: seq<Event>, k: nat, r: nat)
    requires Run(ss, evs) && k < |evs| && r < |ss[k].reqs| && r < |ss[k + 1].reqs|
    requires ss[k].reqs[r].phase.Sent? && ss[k + 1].reqs[r].phase.Done?
    ensures Moved(ss[k].reqs[r]) && ss[k].reqs[r].told == 1 && ss[k].reqs[r].b < |ss[k].data|
    ensures !ss[k].reqs[r].write ==>
      ss[k + 1].data == ss[k].data && ss[k].data[ss[k].reqs[r].b] == ss[k].reqs[r].moves[0].value
  {
    hide Inv, Early, Late, Initial, FreeChain, Performed, ReadChain, Sending, Slots, NumFree, Gap, Alloc3;
    RunInv(ss, evs, k);
    InvReq(ss[k], r);
    ReturnStep(ss[k], ss[k + 1], evs[k], r);
  }

  lemma OnlyFinishReturns(s: State, s': State, ev: Event, r: nat)
    requires Shape(s) && Next(s, s', ev) && r < |s.reqs| && r < |s'.reqs|
    requires s.reqs[r].phase.Sent? && s'.reqs[r].phase.Done?
    ensures ev == Finish(r)
  {
    hide FreeChain, ReadChain, Alloc3, FirstFree, NumFree;
    match ev
    case Call(_, _, _, _) =>
    case Try(_) =>
    case Pop =>
    case Perform(_, _, _) =>
    case Publish(_) =>
    case Consume =>
    case Finish(_) =>
  }

  lemma ReturnStep(s: State, s': State, ev: Event, r: nat)
    requires Shape(s) && Next(s, s', ev) && r < |s.reqs| && r < |s'.reqs|
    requires s.reqs[r].phase.Sent? && s'.reqs[r].phase.Done?
    ensures s.reqs[r].b < |s.busy| && !s.busy[s.reqs[r].b] && s'.data == s.data
  {
    hide FreeChain;
    OnlyFinishReturns(s, s', ev, r);
  }

  /** A sleeping request has something to wait for: fewer than three descriptors are free,
      or its head is still with the device or on its way back. */
  lemma NoLostWakeup(ss: seq<State>, evs: seq<Event>, k: nat, r: nat)
    requires Run(ss, evs) && k < |ss| && r < |ss[k].reqs| && ss[k].reqs[r].asleep
    ensures ss[k].reqs[r].phase.Ask? ==> NumFree(ss[k].free) < 3
    ensures ss[k].reqs[r].phase.Sent? ==> (Early(ss[k]) + Late(ss[k]))[ss[k].reqs[r].phase.i0] == 1
  {
    hide Run, Inv;
    RunInv(ss, evs, k);
    InvReq(ss[k], r);
  }

  /** The driver stops only when the device has reported an error. */
  lemma OnlyDiskErrors(ss: seq<State>, evs: seq<Event>, k: nat)
    requires Run(ss, evs) && k < |ss|
    ensures ss[k].halt == Going || (ss[k].halt == DiskError && ss[k].failed)
  {
    hide Run;
    RunInv(ss, evs, k);
  }

  predicate Follows(a: seq<nat>, b: seq<nat>) {
    b == a || (a != [] && b == a[1..]) || (b != [] && b[..|b| - 1] == a)
  }

  lemma TrySlots(s: State, s': State, r: nat)
    requires Inv(s) && Shape(s) && Shape(s') && Next(s, s', Try(r))
    ensures Follows(Offered(s), Offered(s')) && Returned(s') == Returned(s)
  {
    hide Slots, NumFree, Inv, FirstFree;
    var t := Alloc3(s.free);
    if t.Some? {
      FreeIsNoHead(s, t.v.i0);
      assert multiset(Offered(s)) <= Early(s) + Late(s);
      assert t.v.i0 !in multiset(Offered(s));
      Room(s, Offered(s), t.v.i0);
      SlotsLength(s.avail, s.lastAvail, s.availIdx);
      PushSlot(s.avail, s.lastAvail, s.availIdx, t.v.i0);
    }
  }

  lemma PublishSlots(s: State, s': State, k: nat)
    requires Inv(s) && Shape(s) && Shape(s') && Next(s, s', Publish(k))
    ensures Follows(Returned(s), Returned(s')) && Offered(s') == Offered(s)
  {
    hide Slots, NumFree, Inv;
    var h := s.performed[k];
    assert h in multiset(s.performed);
    var r := HeadFacts(s, h);
    assert multiset(Returned(s))[h] == 0;
    assert multiset(Returned(s)) <= Early(s) + Late(s);
    Room(s, Returned(s), h);
    SlotsLength(s.used, s.seen, s.usedIdx);
    PushSlot(s.used, s.seen, s.usedIdx, h);
  }

  lemma SlotsStep(s: State, s': State, ev: Event)
    requires Inv(s) && Shape(s) && Shape(s') && Next(s, s', ev)
    ensures Follows(Offered(s), Offered(s')) && Follows(Returned(s), Returned(s'))
  {
    hide Slots, NumFree, Inv, FreeChain, Alloc3, ReadChain, Sending, Failing;
    match ev
    case Try(r) => TrySlots(s, s', r);
    case Publish(k) => PublishSlots(s, s', k);
    case Pop => PopSlot(s.avail, s.lastAvail, s.availIdx);
    case Consume => PopSlot(s.used, s.seen, s.usedIdx);
    case Call(_, _, _, _) =>
    case Perform(_, _, _) =>
    case Finish(_) =>
  }

  lemma AtMostNum(s: State, xs: seq<nat>)
    requires Inv(s) && multiset(xs) <= Early(s) + Late(s)
    ensures |xs| <= NUM
  {
    hide Slots, NumFree, Gap, Inv;
    forall i | 0 <= i < |xs|
      ensures xs[i] < NUM && multiset(xs)[xs[i]] <= 1
    {
      assert xs[i] in multiset(xs);
      var k := HeadFacts(s, xs[i]);
    }
    Pigeons(xs, NUM);
  }

  /** Ring entries are read in the order they were written, and none is overwritten before
      it is read: a step leaves what is still to be read, takes its first entry, or adds one
      at its end. */
  lemma RingsKept(ss: seq<State>, evs: seq<Event>, k: nat)
    requires Run(ss, evs) && k < |evs|
    ensures Follows(Offered(ss[k]), Offered(ss[k + 1])) && |Offered(ss[k + 1])| <= NUM
    ensures Follows(Returned(ss[k]), Returned(ss[k + 1])) && |Returned(ss[k + 1])| <= NUM
  {
    hide Slots, Inv, Initial, Next, Follows;
    RunInv(ss, evs, k);
    RunInv(ss, evs, k + 1);
    SlotsStep(ss[k], ss[k + 1], evs[k]);
    AtMostNum(ss[k + 1], Offered(ss[k + 1]));
    AtMostNum(ss[k + 1], Returned(ss[k + 1]));
  }
}
