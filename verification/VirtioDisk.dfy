/** The driver's own code (kernel/virtio_disk.c, alloc_desc to virtio_disk_intr) over the
    global disk structure, tied to the functions that the step relation uses. */
module VirtioDisk {
  import opened Options
  import opened Virtio

  class Disk {
    const free: array<bool>
    const desc: array<Desc>
    const ops: array<Command>
    const info: array<Info>
    const avail: array<nat>
    const used: array<nat>
    const busy: array<bool>
    var availIdx: nat
    var seen: nat

    ghost predicate Valid()
      reads this
    {
      && free.Length == desc.Length == ops.Length == info.Length == avail.Length == used.Length == NUM
      && avail != used && free != busy && availIdx < WRAP && seen < WRAP
    }

    /** virtio_disk_init, as far as the driver's memory goes: all descriptors are free. */
    constructor (buffers: nat)
      ensures Valid() && busy.Length == buffers && Cleared(free[..], desc[..])
      ensures forall i :: 0 <= i < NUM ==> free[i]
    {
      free := new bool[NUM](_ => true);
      desc := new Desc[NUM](_ => CLEAR);
      ops := new Command[NUM](_ => Command(false, 0));
      info := new Info[NUM](_ => Info(None, 0));
      avail := new nat[NUM](_ => 0);
      used := new nat[NUM](_ => 0);
      busy := new bool[buffers](_ => false);
      availIdx := 0;
      seen := 0;
    }

    method AllocDesc() returns (i: nat)
      requires Valid()
      modifies free
      ensures i == FirstFree(old(free[..]), 0)
      ensures free[..] == if i < NUM then old(free[..])[i := false] else old(free[..])
    {
      i := 0;
      while i < NUM
        invariant 0 <= i <= NUM && free[..] == old(free[..])
        invariant FirstFree(free[..], i) == FirstFree(free[..], 0)
      {
        if free[i] {
          free[i] := false;
          return;
        }
        i := i + 1;
      }
    }

    /** False where free_desc would panic. */
    method FreeDesc(i: nat) returns (ok: bool)
      requires Valid()
      modifies free, desc
      ensures ok == (i < NUM && !old(free[..])[i])
      ensures free[..] == if ok then old(free[..])[i := true] else old(free[..])
      ensures desc[..] == if ok then old(desc[..])[i := CLEAR] else old(desc[..])
    {
      if i >= NUM || free[i] {
        return false;
      }
      desc[i] := CLEAR;
      free[i] := true;
      return true;
    }

    method FreeChain(head: nat) returns (ok: bool)
      requires Valid()
      modifies free, desc
      ensures ok == Virtio.FreeChain(old(free[..]), old(desc[..]), head).Some?
      ensures ok ==> Virtio.FreeChain(old(free[..]), old(desc[..]), head) == Some(Pool(free[..], desc[..]))
    {
      var i: nat := head;
      while true
        invariant Virtio.FreeChain(free[..], desc[..], i) == Virtio.FreeChain(old(free[..]), old(desc[..]), head)
        decreases NUM - NumFree(free[..])
      {
        if i >= NUM || free[i] {
          return false;
        }
        var d := desc[i];
        FreeOne(free[..], i);
        var done := FreeDesc(i);
        if !d.hasNext {
          return true;
        }
        i := d.next;
      }
    }

    /** alloc3_desc's way back: free what was taken. */
    method PutBack(ghost was: seq<bool>, idx: seq<nat>)
      requires Valid() && Got(was, free[..], idx) && Cleared(was, desc[..])
      modifies free, desc
      ensures free[..] == was && desc[..] == old(desc[..])
    {
      hide Got;
      GotMinus(was, free[..], idx);
      assert idx[0..] == idx;
      for j := 0 to |idx|
        invariant desc[..] == old(desc[..])
        invariant Minus(was, free[..], idx[j..])
      {
        assert idx[j..][0] == idx[j] && idx[j..][1..] == idx[j + 1..];
        MinusLess(was, free[..], idx[j..]);
        var freed := FreeDesc(idx[j]);
        assert desc[..] == old(desc[..]);
      }
      assert free[..] == was;
    }

    /** All three or none: a failure puts everything back. */
    method Alloc3Desc() returns (r: Opt<Three>)
      requires Valid() && Cleared(free[..], desc[..])
      modifies free, desc
      ensures r == Alloc3(old(free[..])) && desc[..] == old(desc[..])
      ensures free[..] == if r.None? then old(free[..])
        else old(free[..])[r.v.i0 := false][r.v.i1 := false][r.v.i2 := false]
    {
      hide Got, FirstFree;
      ghost var was := free[..];
      GotNone(was, was);
      var idx: seq<nat> := [];
      while |idx| < 3
        invariant |idx| <= 3 && desc[..] == old(desc[..])
        invariant Got(was, free[..], idx)
        decreases 3 - |idx|
      {
        GotMore(was, free[..], idx);
        var d := AllocDesc();
        if d == NUM {
          PutBack(was, idx);
          return None;
        }
        idx := idx + [d];
      }
      GotAll(was, free[..], idx);
      return Some(Three(idx[0], idx[1], idx[2]));
    }

    /** virtio_disk_rw from its descriptors to the notification of the device. */
    method Send(b: nat, write: bool, sector: nat, t: Three)
      requires Valid() && b < busy.Length && t.i0 < NUM && t.i1 < NUM && t.i2 < NUM && t.i0 != t.i1 && t.i0 != t.i2
      requires t.i1 != t.i2
      modifies this`availIdx, desc, ops, info, avail, busy
      ensures Valid()
      ensures desc[..] == old(desc[..])[t.i0 := Desc(Op(t.i0), 16, true, false, t.i1)]
                            [t.i1 := Desc(Contents(b), 1024, true, !write, t.i2)]
                            [t.i2 := Desc(Status(t.i0), 1, false, true, 0)]
      ensures ops[..] == old(ops[..])[t.i0 := Command(write, sector)]
      ensures info[..] == old(info[..])[t.i0 := Info(Some(b), 255)]
      ensures busy[..] == old(busy[..])[b := true]
      ensures avail[..] == old(avail[..])[old(availIdx) % NUM := t.i0] && availIdx == Bump(old(availIdx))
    {
      ops[t.i0] := Command(write, sector);
      desc[t.i0] := Desc(Op(t.i0), 16, true, false, t.i1);
      desc[t.i1] := Desc(Contents(b), 1024, true, !write, t.i2);
      info[t.i0] := info[t.i0].(status := 255);
      desc[t.i2] := Desc(Status(t.i0), 1, false, true, 0);
      busy[b] := true;
      info[t.i0] := info[t.i0].(b := Some(b));
      avail[availIdx % NUM] := t.i0;
      availIdx := (availIdx + 1) % WRAP;
    }

    /** virtio_disk_intr with what the device has published so far: every entry that was
        still to be read is reported to its buffer, until a status is not 0. */
    method Intr(usedIdx: nat) returns (ok: bool)
      requires Valid() && usedIdx < WRAP
      requires Entries(info[..], busy.Length, Slots(used[..], seen, usedIdx))
      modifies this`seen, busy
      ensures Valid()
      ensures ok <==> forall k :: 0 <= k < |Slots(used[..], old(seen), usedIdx)| ==>
        Good(info[..], Slots(used[..], old(seen), usedIdx)[k])
      ensures ok ==> seen == usedIdx
      ensures ok ==> busy[..] == Quiet(old(busy[..]), info[..], Slots(used[..], old(seen), usedIdx))
    {
      hide Slots, Gap;
      ghost var all := Slots(used[..], seen, usedIdx);
      ghost var n := 0;
      while seen != usedIdx
        invariant Valid() && 0 <= n <= |all| && Slots(used[..], seen, usedIdx) == all[n..]
        invariant busy[..] == Quiet(old(busy[..]), info[..], all[..n])
        invariant forall k :: 0 <= k < n ==> Good(info[..], all[k])
        decreases |all| - n
      {
        PopSlot(used[..], seen, usedIdx);
        var id := used[seen % NUM];
        assert all[n..][0] == all[n] == id && Entry(info[..], busy.Length, all[n]);
        if info[id].status != 0 {
          assert !Good(info[..], all[n]);
          return false;
        }
        busy[info[id].b.v] := false;
        seen := (seen + 1) % WRAP;
        assert all[n..][1..] == all[n + 1..] && all[..n + 1] == all[..n] + [id];
        n := n + 1;
      }
      EmptySlots(used[..], seen);
      assert all[..n] == all;
      return true;
    }
  }

  lemma EmptySlots(ring: seq<nat>, i: nat)
    requires |ring| == NUM && i < WRAP
    ensures Slots(ring, i, i) == []
  {
  }

  /** An entry of the used ring names a request's head. */
  predicate Entry(info: seq<Info>, buffers: nat, id: nat) {
    id < |info| && info[id].b.Some? && info[id].b.v < buffers
  }

  predicate Entries(info: seq<Info>, buffers: nat, ids: seq<nat>) {
    forall k :: 0 <= k < |ids| ==> Entry(info, buffers, ids[k])
  }

  predicate Good(info: seq<Info>, id: nat) {
    id < |info| && info[id].status == 0
  }

  predicate Names(info: seq<Info>, id: nat, b: nat) {
    id < |info| && info[id].b == Some(b)
  }

  /** The buffers that stay marked after some heads were reported. */
  function Quiet(busy: seq<bool>, info: seq<Info>, ids: seq<nat>): (r: seq<bool>)
    requires Entries(info, |busy|, ids)
    ensures |r| == |busy|
    ensures forall b :: 0 <= b < |busy| ==>
      (r[b] <==> busy[b] && forall k :: 0 <= k < |ids| ==> !Names(info, ids[k], b))
    decreases |ids|
  {
    if ids == [] then busy
    else
      var n := |ids| - 1;
      assert Entry(info, |busy|, ids[n]);
      Quiet(busy, info, ids[..n])[info[ids[n]].b.v := false]
  }

  /** alloc3_desc has taken the first |idx| free descriptors. */
  predicate Got(was: seq<bool>, free: seq<bool>, idx: seq<nat>) {
    && |idx| <= 3 && |free| == |was|
    && (|idx| > 0 ==> idx[0] == FirstFree(was, 0) < |was|)
    && (|idx| > 1 ==> idx[1] == FirstFree(was, idx[0] + 1) < |was|)
    && (|idx| > 2 ==> idx[2] == FirstFree(was, idx[1] + 1) < |was|)
    && free == match |idx|
               case 0 => was
               case 1 => was[idx[0] := false]
               case 2 => was[idx[0] := false][idx[1] := false]
               case _ => was[idx[0] := false][idx[1] := false][idx[2] := false]
  }

  lemma GotNone(was: seq<bool>, free: seq<bool>)
    ensures Got(was, free, []) <==> free == was
  {
  }

  lemma NextFree(was: seq<bool>, free: seq<bool>, idx: seq<nat>)
    requires Got(was, free, idx) && |idx| < 3
    ensures FirstFree(free, 0) == FirstFree(was, if idx == [] then 0 else idx[|idx| - 1] + 1)
  {
    if |idx| > 0 {
      var from := idx[|idx| - 1] + 1;
      assert forall k :: from <= k < |was| ==> free[k] == was[k];
      assert forall k :: 0 <= k < from ==> !free[k];
      SameFirst(was, free, from);
    }
  }

  lemma SameFirst(was: seq<bool>, free: seq<bool>, from: nat)
    requires |was| == |free| && from <= |was|
    requires forall k :: from <= k < |was| ==> free[k] == was[k]
    requires forall k :: 0 <= k < from ==> !free[k]
    ensures FirstFree(free, 0) == FirstFree(was, from)
  {
    var a, b := FirstFree(free, 0), FirstFree(was, from);
    assert a < |free| ==> a >= b;
    assert b < |was| ==> b >= a;
  }

  /** One more descriptor, or alloc3_desc fails. */
  lemma GotMore(was: seq<bool>, free: seq<bool>, idx: seq<nat>)
    requires Got(was, free, idx) && |idx| < 3
    ensures FirstFree(free, 0) < |free| ==> Got(was, free[FirstFree(free, 0) := false], idx + [FirstFree(free, 0)])
    ensures FirstFree(free, 0) == |free| ==> Alloc3(was) == None
    ensures |free| == |was|
  {
    NextFree(was, free, idx);
  }

  lemma GotAll(was: seq<bool>, free: seq<bool>, idx: seq<nat>)
    requires Got(was, free, idx) && |idx| == 3
    ensures Alloc3(was) == Some(Three(idx[0], idx[1], idx[2]))
    ensures |free| == |was| && idx[0] < |was| && idx[1] < |was| && idx[2] < |was|
    ensures free == was[idx[0] := false][idx[1] := false][idx[2] := false]
  {
  }

  /** Of the descriptors that were free, those in xs are taken. */
  predicate Minus(was: seq<bool>, free: seq<bool>, xs: seq<nat>) {
    && |free| == |was|
    && (forall k :: 0 <= k < |xs| ==> xs[k] < |was| && was[xs[k]])
    && (forall j, k :: 0 <= j < k < |xs| ==> xs[j] != xs[k])
    && (forall i :: 0 <= i < |was| ==> free[i] == (was[i] && i !in xs))
  }

  lemma GotMinus(was: seq<bool>, free: seq<bool>, idx: seq<nat>)
    requires Got(was, free, idx)
    ensures Minus(was, free, idx)
  {
  }

  lemma MinusLess(was: seq<bool>, free: seq<bool>, xs: seq<nat>)
    requires Minus(was, free, xs) && xs != []
    ensures xs[0] < |free| && !free[xs[0]] && was[xs[0]]
    ensures Minus(was, free[xs[0] := true], xs[1..])
  {
    assert forall i :: i in xs <==> i == xs[0] || i in xs[1..];
    assert xs[0] !in xs[1..];
  }
}
