/** The buffer list of kernel/bio.c: a circular list threaded through prev and next
    fields, with the head as buffer number NBUF. */
module Bcache {
  import opened Options
  import opened Bufs

  /** The k-th element of the circle: the head, the buffers in order, the head again. */
  function At(order: seq<nat>, head: nat, k: nat): nat
    requires k <= |order| + 1
  {
    if 1 <= k <= |order| then order[k - 1] else head
  }

  /** prev and next make a circle of the head and the buffers in `order`. */
  predicate Linked(next: seq<nat>, prev: seq<nat>, order: seq<nat>, head: nat) {
    && |next| == |prev| == head + 1
    && (forall i :: 0 <= i < |order| ==> order[i] < head)
    && (forall i, j :: 0 <= i < j < |order| ==> order[i] != order[j])
    && (forall k :: 0 <= k <= |order| ==> next[At(order, head, k)] == At(order, head, k + 1))
    && (forall k :: 0 <= k <= |order| ==> prev[At(order, head, k + 1)] == At(order, head, k))
  }

  lemma Distinct(order: seq<nat>, head: nat, i: nat, j: nat)
    requires i < j <= |order| && (forall a :: 0 <= a < |order| ==> order[a] < head)
    requires forall a, b :: 0 <= a < b < |order| ==> order[a] != order[b]
    ensures At(order, head, i) != At(order, head, j)
  {
  }

  /** Putting a buffer that is not in the list right after the head. */
  lemma InsertFront(next: seq<nat>, prev: seq<nat>, order: seq<nat>, head: nat, b: nat)
    requires Linked(next, prev, order, head) && b < head && b !in order
    ensures next[head] <= head
    ensures var next' := next[b := next[head]][head := b];
      var prev' := prev[b := head][next[head] := b];
      Linked(next', prev', [b] + order, head)
  {
    assert next[At(order, head, 0)] == At(order, head, 1);
    var next' := next[b := next[head]][head := b];
    var prev' := prev[b := head][next[head] := b];
    var order' := [b] + order;
    forall k | 0 <= k <= |order'| ensures next'[At(order', head, k)] == At(order', head, k + 1) {
      if k >= 2 {
        assert At(order', head, k) == At(order, head, k - 1);
        assert next[At(order, head, k - 1)] == At(order, head, k);
      }
    }
    forall k | 0 <= k <= |order'| ensures prev'[At(order', head, k + 1)] == At(order', head, k) {
      if k >= 2 {
        assert prev[At(order, head, k)] == At(order, head, k - 1);
        assert order != [] && At(order, head, k) != order[0];
      }
    }
  }

  /** The list without its k-th element. */
  function Without(order: seq<nat>, k: nat): seq<nat>
    requires 1 <= k <= |order|
  {
    order[..k - 1] + order[k..]
  }

  lemma WithoutAt(order: seq<nat>, head: nat, k: nat, i: nat)
    requires 1 <= k <= |order| && i <= |order|
    ensures At(Without(order, k), head, i) == At(order, head, if i < k then i else i + 1)
  {
  }

  lemma Neighbours(next: seq<nat>, prev: seq<nat>, order: seq<nat>, head: nat, k: nat)
    requires Linked(next, prev, order, head) && 1 <= k <= |order|
    ensures var b := At(order, head, k);
      b < head && next[b] == At(order, head, k + 1) <= head && prev[b] == At(order, head, k - 1) <= head
  {
    assert prev[At(order, head, (k - 1) + 1)] == At(order, head, k - 1);
  }

  lemma TakeOutNext(next: seq<nat>, prev: seq<nat>, order: seq<nat>, head: nat, k: nat, i: nat)
    requires Linked(next, prev, order, head) && 1 <= k <= |order| && i < |order|
    ensures var b := At(order, head, k);
      && prev[b] <= head && next[b] <= head
      && next[prev[b] := next[b]][At(Without(order, k), head, i)] == At(Without(order, k), head, i + 1)
  {
    Neighbours(next, prev, order, head, k);
    WithoutAt(order, head, k, i);
    WithoutAt(order, head, k, i + 1);
    var j := if i < k then i else i + 1;
    assert next[At(order, head, j)] == At(order, head, j + 1);
    if i < k - 1 {
      Distinct(order, head, i, k - 1);
    } else if i >= k {
      Distinct(order, head, k - 1, i + 1);
    }
  }

  lemma TakeOutPrev(next: seq<nat>, prev: seq<nat>, order: seq<nat>, head: nat, k: nat, i: nat)
    requires Linked(next, prev, order, head) && 1 <= k <= |order| && i < |order|
    ensures var b := At(order, head, k);
      && prev[b] <= head && next[b] <= head
      && prev[next[b] := prev[b]][At(Without(order, k), head, i + 1)] == At(Without(order, k), head, i)
  {
    Neighbours(next, prev, order, head, k);
    WithoutAt(order, head, k, i);
    WithoutAt(order, head, k, i + 1);
    var j := if i + 1 < k then i + 1 else i + 2;
    assert prev[At(order, head, (j - 1) + 1)] == At(order, head, j - 1);
    NextDiffer(order, head, k, i);
  }

  lemma NextDiffer(order: seq<nat>, head: nat, k: nat, i: nat)
    requires 1 <= k <= |order| && i < |order| && (forall a :: 0 <= a < |order| ==> order[a] < head)
    requires forall a, b :: 0 <= a < b < |order| ==> order[a] != order[b]
    ensures var j := if i + 1 < k then i + 1 else i + 2; j != k + 1 ==> At(order, head, j) != At(order, head, k + 1)
  {
  }

  lemma WithoutDistinct(order: seq<nat>, head: nat, k: nat)
    requires 1 <= k <= |order| && (forall i :: 0 <= i < |order| ==> order[i] < head)
    requires forall i, j :: 0 <= i < j < |order| ==> order[i] != order[j]
    ensures var o := Without(order, k);
      && |o| == |order| - 1 && order[k - 1] !in o && (forall i :: 0 <= i < |o| ==> o[i] < head)
      && (forall i, j :: 0 <= i < j < |o| ==> o[i] != o[j])
  {
  }

  /** Taking the k-th buffer out. */
  lemma TakeOut(next: seq<nat>, prev: seq<nat>, order: seq<nat>, head: nat, k: nat)
    requires Linked(next, prev, order, head) && 1 <= k <= |order|
    ensures var b := At(order, head, k);
      && b < head && next[b] <= head && prev[b] <= head && b !in Without(order, k)
      && Linked(next[prev[b] := next[b]], prev[next[b] := prev[b]], Without(order, k), head)
  {
    hide Without;
    Neighbours(next, prev, order, head, k);
    WithoutDistinct(order, head, k);
    InList(order, head, k);
    var b := At(order, head, k);
    forall i | 0 <= i < |order|
      ensures next[prev[b] := next[b]][At(Without(order, k), head, i)] == At(Without(order, k), head, i + 1)
    {
      TakeOutNext(next, prev, order, head, k, i);
    }
    forall i | 0 <= i < |order|
      ensures prev[next[b] := prev[b]][At(Without(order, k), head, i + 1)] == At(Without(order, k), head, i)
    {
      TakeOutPrev(next, prev, order, head, k, i);
    }
  }

  lemma InList(order: seq<nat>, head: nat, k: nat)
    requires 1 <= k <= |order|
    ensures At(order, head, k) == order[k - 1]
  {
  }

  /** Unlinking a buffer and linking it in again after the head: brelse's six stores. */
  lemma MoveFront(next: seq<nat>, prev: seq<nat>, order: seq<nat>, head: nat, b: nat)
    requires Linked(next, prev, order, head) && Listed(order, head) && b < head
    ensures next[b] <= head && prev[b] <= head
    ensures var next1, prev1 := next[prev[b] := next[b]], prev[next[b] := prev[b]];
      && next1[head] <= head && Listed([b] + Remove(order, b), head)
      && Linked(next1[b := next1[head]][head := b], prev1[b := head][next1[head] := b], [b] + Remove(order, b), head)
  {
    hide Linked, Listed, Front;
    LinkedSizes(next, prev, order, head);
    var k := RemoveFront(order, head, b);
    ListedFacts(order, head, k);
    RemoveIs(order, b, k);
    FrontListed(order, [b] + Remove(order, b), head, k);
    InList(order, head, k + 1);
    TakeOut(next, prev, order, head, k + 1);
    InsertFront(next[prev[b] := next[b]], prev[next[b] := prev[b]], Without(order, k + 1), head, b);
  }

  lemma ListedFacts(order: seq<nat>, n: nat, k: nat)
    requires Listed(order, n) && k < n
    ensures |order| == n && forall i :: 0 <= i < k ==> order[i] != order[k]
  {
  }

  lemma LinkedSizes(next: seq<nat>, prev: seq<nat>, order: seq<nat>, head: nat)
    requires Linked(next, prev, order, head)
    ensures |next| == |prev| == head + 1
  {
  }

  class Bcache {
    const n: nat
    var next: seq<nat>
    var prev: seq<nat>
    var id: seq<Id>
    var isValid: seq<bool>
    var refcnt: seq<nat>
    ghost var order: seq<nat>

    ghost predicate Valid()
      reads this
    {
      && |id| == |isValid| == |refcnt| == n
      && Listed(order, n) && Linked(next, prev, order, n)
    }

    /** binit: link all buffers, the last one in front. */
    constructor (nbuf: nat)
      ensures Valid() && n == nbuf
      ensures forall b :: 0 <= b < n ==> id[b] == Id(0, 0) && !isValid[b] && refcnt[b] == 0
    {
      n := nbuf;
      next, prev := seq(nbuf + 1, i => nbuf), seq(nbuf + 1, i => nbuf);
      id, isValid, refcnt := seq(nbuf, i => Id(0, 0)), seq(nbuf, i => false), seq(nbuf, i => 0);
      order := [];
      new;
      var b := 0;
      while b < n
        invariant 0 <= b <= n && Linked(next, prev, order, n) && |order| == b
        invariant forall i :: 0 <= i < b ==> order[i] == b - 1 - i
        invariant id == seq(n, i => Id(0, 0)) && isValid == seq(n, i => false) && refcnt == seq(n, i => 0)
      {
        InsertFront(next, prev, order, n, b);
        Insert(b);
        b := b + 1;
      }
      forall x | 0 <= x < n ensures x in order {
        assert order[n - 1 - x] == x;
      }
    }

    /** Link buffer `b` in right after the head. */
    method Insert(b: nat)
      requires b < n && |next| == |prev| == n + 1 && next[n] <= n
      modifies this`next, this`prev, this`order
      ensures next == old(next)[b := old(next)[n]][n := b] && prev == old(prev)[b := n][old(next)[n] := b]
      ensures order == [b] + old(order)
    {
      next := next[b := next[n]];
      prev := prev[b := n];
      prev := prev[next[n] := b];
      next := next[n := b];
      order := [b] + order;
    }

    /** bget under bcache.lock: the buffer that has the block, or else the last one in the
        list that nobody uses, made ready for the block; none if all are in use. */
    method Bget(want: Id) returns (b: Opt<nat>)
      requires Valid()
      modifies this`id, this`isValid, this`refcnt
      ensures Valid() && order == old(order)
      ensures (exists x :: 0 <= x < n && old(id)[x] == want) ==>
        b.Some? && b.v < n && old(id)[b.v] == want && id == old(id) && isValid == old(isValid)
        && refcnt == old(refcnt)[b.v := old(refcnt)[b.v] + 1]
      ensures (forall x :: 0 <= x < n ==> old(id)[x] != want) ==>
        && b == Victim(order, old(refcnt), n)
        && (b == None ==> id == old(id) && isValid == old(isValid) && refcnt == old(refcnt))
        && (b.Some? ==>
              && b.v < n && id == old(id)[b.v := want] && isValid == old(isValid)[b.v := false]
              && refcnt == old(refcnt)[b.v := 1])
    {
      var x := next[n];
      ghost var k := 1;
      assert x == At(order, n, k) by {
        assert next[At(order, n, 0)] == At(order, n, 1);
      }
      while x != n
        invariant 1 <= k <= n + 1 && x == At(order, n, k)
        invariant forall i :: 0 <= i < k - 1 ==> id[order[i]] != want
        decreases n + 1 - k
      {
        if id[x] == want {
          refcnt := refcnt[x := refcnt[x] + 1];
          return Some(x);
        }
        assert next[At(order, n, k)] == At(order, n, k + 1);
        x, k := next[x], k + 1;
      }
      assert forall y :: 0 <= y < n ==> id[y] != want by {
        forall y | 0 <= y < n ensures id[y] != want {
          assert y in order;
        }
      }
      x, k := prev[n], n;
      assert x == At(order, n, k) by {
        assert prev[At(order, n, n + 1)] == At(order, n, n);
      }
      while x != n
        invariant 0 <= k <= n && x == At(order, n, k) && Victim(order, refcnt, k) == Victim(order, refcnt, n)
        decreases k
      {
        if refcnt[x] == 0 {
          id := id[x := want];
          isValid := isValid[x := false];
          refcnt := refcnt[x := 1];
          return Some(x);
        }
        assert prev[At(order, n, (k - 1) + 1)] == At(order, n, k - 1);
        x, k := prev[x], k - 1;
      }
      return None;
    }

    /** brelse under bcache.lock: one reference less; a buffer without references goes to
        the front of the list. */
    method Drop(b: nat)
      requires Valid() && b < n && refcnt[b] > 0
      modifies this`next, this`prev, this`refcnt, this`order
      ensures Valid() && refcnt == old(refcnt)[b := old(refcnt)[b] - 1]
      ensures order == if refcnt[b] == 0 then [b] + Remove(old(order), b) else old(order)
    {
      hide Linked, Listed, Remove;
      refcnt := refcnt[b := refcnt[b] - 1];
      if refcnt[b] == 0 {
        LinkedSizes(next, prev, order, n);
        MoveFront(next, prev, order, n, b);
        next, prev := next[prev[b] := next[b]], prev[next[b] := prev[b]];
        order := Remove(order, b);
        Insert(b);
      }
    }

    method Bpin(b: nat)
      requires Valid() && b < n
      modifies this`refcnt
      ensures Valid() && refcnt == old(refcnt)[b := old(refcnt)[b] + 1]
    {
      refcnt := refcnt[b := refcnt[b] + 1];
    }

    method Bunpin(b: nat)
      requires Valid() && b < n && refcnt[b] > 0
      modifies this`refcnt
      ensures Valid() && refcnt == old(refcnt)[b := old(refcnt)[b] - 1]
    {
      refcnt := refcnt[b := refcnt[b] - 1];
    }
  }
}
