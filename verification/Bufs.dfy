/** The buffer cache (kernel/bio.c) and how the log uses it (kernel/log.c): a step relation
    over the sections that bcache.lock or a buffer's sleep lock protects. */
module Bufs {
  import opened Options
  import opened LogFormat

  datatype Id = Id(dev: nat, blockno: nat)

  /** One use of a buffer, from bget to brelse: counted but waiting for the sleep lock,
      holding it, or past releasesleep but not yet uncounted. */
  datatype Claim = Waiting(b: nat) | Holding(b: nat) | Releasing(b: nat) | Finished

  /** Buffers by index; `order` is the list from bcache.head.next on.  `pins` counts the
      references that log_write took, `stamp` tells when a buffer was last released for
      good, `latest` is what was last stored in each block. */
  datatype State = State(
    id: seq<Id>, valid: seq<bool>, refcnt: seq<nat>, lock: seq<Opt<nat>>, data: seq<Block>, order: seq<nat>,
    claims: seq<Claim>, disk: map<Id, Block>, panicked: bool,
    pins: seq<nat>, stamp: seq<nat>, clock: nat, latest: map<Id, Block>)

  predicate Shape(s: State) {
    |s.id| == |s.valid| == |s.refcnt| == |s.lock| == |s.data| == |s.pins| == |s.stamp|
  }

  // ---- the list

  /** bget's second loop: the last buffer in the list with no reference. */
  function Victim(order: seq<nat>, refcnt: seq<nat>, k: nat): (v: Opt<nat>)
    requires k <= |order| && forall i :: 0 <= i < |order| ==> order[i] < |refcnt|
    ensures v.Some? ==> v.v < |refcnt| && refcnt[v.v] == 0
  {
    if k == 0 then None
    else if refcnt[order[k - 1]] == 0 then Some(order[k - 1])
    else Victim(order, refcnt, k - 1)
  }

  /** The list without buffer `b`. */
  function Remove(order: seq<nat>, b: nat): seq<nat> {
    if order == [] then []
    else if order[0] == b then order[1..]
    else [order[0]] + Remove(order[1..], b)
  }

  // ---- steps

  datatype Event =
    | Get(want: Id)
    | Lock(c: nat)
    | Read(c: nat)
    | Store(c: nat, x: Block)
    | Write(c: nat)
    | Pin(c: nat)
    | Unpin(c: nat)
    | Unlock(c: nat)
    | Drop(c: nat)

  predicate Holds(s: State, c: nat) {
    c < |s.claims| && s.claims[c].Holding? && s.claims[c].b < |s.id|
  }

  /** bget under bcache.lock: count one more use of the block's buffer, or recycle the
      least recently used buffer that nobody uses. */
  predicate Got(s: State, s': State, want: Id)
    requires Shape(s)
  {
    && want.dev >= 1 && want in s.disk
    && ((exists b :: 0 <= b < |s.id| && Hit(s, s', want, b))
        || ((forall b :: 0 <= b < |s.id| ==> s.id[b] != want) && Recycled(s, s', want)))
  }

  predicate Hit(s: State, s': State, want: Id, b: nat)
    requires Shape(s) && b < |s.id|
  {
    s.id[b] == want && s' == s.(refcnt := s.refcnt[b := s.refcnt[b] + 1], claims := s.claims + [Waiting(b)])
  }

  predicate Recycled(s: State, s': State, want: Id)
    requires Shape(s)
  {
    && (forall i :: 0 <= i < |s.order| ==> s.order[i] < |s.refcnt|)
    && match Victim(s.order, s.refcnt, |s.order|)
       case None => s' == s.(panicked := true)
       case Some(b) =>
         s' == s.(id := s.id[b := want], valid := s.valid[b := false], refcnt := s.refcnt[b := 1],
                  claims := s.claims + [Waiting(b)])
  }

  predicate Read1(s: State, s': State, b: nat)
    requires Shape(s) && b < |s.id|
  {
    !s.valid[b] && s.id[b] in s.disk && s' == s.(data := s.data[b := s.disk[s.id[b]]], valid := s.valid[b := true])
  }

  predicate Store1(s: State, s': State, b: nat, x: Block)
    requires Shape(s) && b < |s.id|
  {
    s.valid[b] && s' == s.(data := s.data[b := x], latest := s.latest[s.id[b] := x])
  }

  predicate Write1(s: State, s': State, b: nat)
    requires Shape(s) && b < |s.id|
  {
    s.valid[b] && s' == s.(disk := s.disk[s.id[b] := s.data[b]])
  }

  predicate Pin1(s: State, s': State, b: nat)
    requires Shape(s) && b < |s.id|
  {
    s' == s.(refcnt := s.refcnt[b := s.refcnt[b] + 1], pins := s.pins[b := s.pins[b] + 1])
  }

  /** The buffer and its place on disk hold the same. */
  predicate Clean(s: State, b: nat)
    requires Shape(s) && b < |s.id|
  {
    s.id[b] in s.disk && s.data[b] == s.disk[s.id[b]]
  }

  predicate Unpin1(s: State, s': State, b: nat)
    requires Shape(s) && b < |s.id|
  {
    && s.pins[b] > 0 && s.refcnt[b] > 0 && s.valid[b] && Clean(s, b)
    && s' == s.(refcnt := s.refcnt[b := s.refcnt[b] - 1], pins := s.pins[b := s.pins[b] - 1])
  }

  predicate Unlock1(s: State, s': State, c: nat, b: nat)
    requires Shape(s) && b < |s.id| && c < |s.claims|
  {
    && s.valid[b] && (s.pins[b] > 0 || Clean(s, b))
    && s' == s.(lock := s.lock[b := None], claims := s.claims[c := Releasing(b)])
  }

  predicate Lock1(s: State, s': State, c: nat, b: nat)
    requires Shape(s) && b < |s.id| && c < |s.claims|
  {
    s.lock[b] == None && s' == s.(lock := s.lock[b := Some(c)], claims := s.claims[c := Holding(b)])
  }

  /** One step.  Callers follow bread's and the log's discipline: contents are looked at
      and changed only with the sleep lock held and after they were read; a buffer that
      differs from the disk is pinned before it is released (log_write), and unpinned
      only once it was written to its place (install_trans). */
  predicate Next(s: State, s': State, e: Event)
    requires Shape(s)
  {
    && !s.panicked
    && match e
       case Get(want) => Got(s, s', want)
       case Lock(c) =>
         && c < |s.claims| && s.claims[c].Waiting? && s.claims[c].b < |s.id|
         && Lock1(s, s', c, s.claims[c].b)
       case Read(c) => Holds(s, c) && Read1(s, s', s.claims[c].b)
       case Store(c, x) => Holds(s, c) && Store1(s, s', s.claims[c].b, x)
       case Write(c) => Holds(s, c) && Write1(s, s', s.claims[c].b)
       case Pin(c) => Holds(s, c) && Pin1(s, s', s.claims[c].b)
       case Unpin(c) => Holds(s, c) && Unpin1(s, s', s.claims[c].b)
       case Unlock(c) => Holds(s, c) && Unlock1(s, s', c, s.claims[c].b)
       case Drop(c) =>
         && c < |s.claims| && s.claims[c].Releasing? && s.claims[c].b < |s.id| && s.refcnt[s.claims[c].b] > 0
         && s' == Dropped(s, c, s.claims[c].b)
  }

  /** brelse's second half, under bcache.lock. */
  function Dropped(s: State, c: nat, b: nat): State
    requires Shape(s) && c < |s.claims| && b < |s.id| && s.refcnt[b] > 0
  {
    var s1 := s.(refcnt := s.refcnt[b := s.refcnt[b] - 1], claims := s.claims[c := Finished]);
    if s1.refcnt[b] > 0 then s1
    else s1.(order := [b] + Remove(s.order, b), stamp := s.stamp[b := s.clock], clock := s.clock + 1)
  }

  /** binit: no references, nothing valid, all buffers (0, 0). */
  predicate Initial(s: State) {
    && Shape(s) && !s.panicked && s.claims == [] && s.latest == s.disk && Listed(s.order, |s.id|)
    && (forall b :: 0 <= b < |s.id| ==>
          s.id[b] == Id(0, 0) && !s.valid[b] && s.refcnt[b] == 0 && s.lock[b] == None && s.pins[b] == 0)
    && s.clock >= |s.id| && InOrder(s.order, s.stamp, s.clock)
  }

  // ---- the invariant

  /** The list holds every buffer exactly once. */
  predicate Listed(order: seq<nat>, n: nat) {
    && |order| == n
    && (forall i :: 0 <= i < n ==> order[i] < n)
    && (forall i, j :: 0 <= i < j < n ==> order[i] != order[j])
    && (forall b :: 0 <= b < n ==> b in order)
  }

  /** Along the list, buffers were released longer and longer ago. */
  predicate InOrder(order: seq<nat>, stamp: seq<nat>, clock: nat) {
    && (forall b :: 0 <= b < |stamp| ==> stamp[b] < clock)
    && (forall i, j :: 0 <= i < j < |order| && order[i] < |stamp| && order[j] < |stamp| ==>
          stamp[order[j]] < stamp[order[i]])
  }

  predicate Uses(c: Claim, b: nat) {
    match c
    case Waiting(x) => x == b
    case Holding(x) => x == b
    case Releasing(x) => x == b
    case Finished => false
  }

  /** How many claims there are on buffer `b`. */
  function Count(claims: seq<Claim>, b: nat): nat {
    if claims == [] then 0
    else Count(claims[..|claims| - 1], b) + if Uses(claims[|claims| - 1], b) then 1 else 0
  }

  predicate Counted(s: State)
    requires Shape(s)
  {
    && (forall b :: 0 <= b < |s.id| ==> s.refcnt[b] == Count(s.claims, b) + s.pins[b])
    && (forall b :: 0 <= b < |s.id| && s.lock[b].Some? ==>
          s.lock[b].v < |s.claims| && s.claims[s.lock[b].v] == Holding(b))
    && (forall c :: 0 <= c < |s.claims| && s.claims[c].Holding? ==>
          s.claims[c].b < |s.id| && s.lock[s.claims[c].b] == Some(c))
  }

  /** No block is in two buffers. */
  predicate Unique(id: seq<Id>) {
    forall a, b :: 0 <= a < b < |id| && id[a].dev >= 1 ==> id[a] != id[b]
  }

  /** A buffer whose block may differ from the disk. */
  predicate Guarded(s: State, b: nat)
    requires Shape(s) && b < |s.id|
  {
    s.valid[b] && (s.pins[b] > 0 || s.lock[b].Some?)
  }

  /** A valid buffer holds what was last stored in its block.  The disk does too, unless
      the block is in a buffer that is pinned or in somebody's hands. */
  ghost predicate Agree(s: State)
    requires Shape(s)
  {
    && s.latest.Keys == s.disk.Keys
    && (forall b :: 0 <= b < |s.id| && s.id[b].dev >= 1 ==> s.id[b] in s.disk)
    && (forall b :: 0 <= b < |s.id| && s.id[b].dev >= 1 && s.valid[b] ==> s.data[b] == s.latest[s.id[b]])
    && (forall x :: x in s.disk && s.disk[x] != s.latest[x] ==>
          exists b :: 0 <= b < |s.id| && s.id[b] == x && Guarded(s, b))
    && (forall b :: 0 <= b < |s.id| && s.id[b].dev == 0 ==> !s.valid[b] && s.refcnt[b] == 0)
  }

  ghost predicate Inv(s: State) {
    && Shape(s) && Listed(s.order, |s.id|) && InOrder(s.order, s.stamp, s.clock)
    && Counted(s) && Unique(s.id) && Agree(s)
  }

  // ---- counting

  lemma CountAppend(claims: seq<Claim>, x: Claim, b: nat)
    ensures Count(claims + [x], b) == Count(claims, b) + if Uses(x, b) then 1 else 0
  {
    assert (claims + [x])[..|claims|] == claims;
  }

  function One(p: bool): nat {
    if p then 1 else 0
  }

  lemma {:induction false} CountChange(claims: seq<Claim>, c: nat, x: Claim, b: nat)
    requires c < |claims|
    ensures Count(claims[c := x], b) + One(Uses(claims[c], b)) == Count(claims, b) + One(Uses(x, b))
    ensures Uses(claims[c], b) ==> Count(claims, b) > 0
  {
    var n := |claims| - 1;
    var rest := claims[..n];
    if c == n {
      assert claims[c := x][..n] == rest;
    } else {
      CountChange(rest, c, x, b);
      assert claims[c := x][..n] == rest[c := x];
    }
  }

  lemma InUse(s: State, c: nat)
    requires Shape(s) && Counted(s) && c < |s.claims| && !s.claims[c].Finished? && s.claims[c].b < |s.id|
    ensures s.refcnt[s.claims[c].b] > 0
  {
    hide Count;
    CountChange(s.claims, c, Finished, s.claims[c].b);
  }

  /** A buffer without references is unlocked and not pinned. */
  lemma Unused(s: State, b: nat)
    requires Shape(s) && Counted(s) && b < |s.id| && s.refcnt[b] == 0
    ensures s.lock[b] == None && s.pins[b] == 0 && Count(s.claims, b) == 0
  {
    hide Count;
    if s.lock[b].Some? {
      CountChange(s.claims, s.lock[b].v, Finished, b);
    }
  }

  // ---- the list after brelse

  lemma {:induction false} RemoveIs(order: seq<nat>, b: nat, k: nat)
    requires k < |order| && order[k] == b && forall i :: 0 <= i < k ==> order[i] != b
    ensures Remove(order, b) == order[..k] + order[k + 1..]
  {
    if k > 0 {
      RemoveIs(order[1..], b, k - 1);
      assert order[1..][..k - 1] == order[1..k] && order[1..][k..] == order[k + 1..];
      assert [order[0]] + order[1..k] == order[..k];
    }
  }

  /** Where the entry at `i` of the list comes from after the one at `k` moved to the front. */
  function From(i: nat, k: nat): nat {
    if i == 0 then k else if i <= k then i - 1 else i
  }

  ghost predicate Front(order: seq<nat>, order': seq<nat>, k: nat) {
    && |order'| == |order| && k < |order|
    && forall i :: 0 <= i < |order| ==> order'[i] == order[From(i, k)]
  }

  lemma RemoveFront(order: seq<nat>, n: nat, b: nat) returns (k: nat)
    requires Listed(order, n) && b < n
    ensures k < n && order[k] == b && Front(order, [b] + Remove(order, b), k)
  {
    assert b in order;
    k :| 0 <= k < |order| && order[k] == b;
    RemoveIs(order, b, k);
    var order' := [b] + (order[..k] + order[k + 1..]);
    forall i | 0 <= i < n ensures order'[i] == order[From(i, k)] {
    }
  }

  lemma FrontListed(order: seq<nat>, order': seq<nat>, n: nat, k: nat)
    requires Listed(order, n) && Front(order, order', k)
    ensures Listed(order', n)
  {
    hide From;
    forall i, j | 0 <= i < j < n ensures order'[i] != order'[j] {
      FromDiffer(i, j, k, n);
    }
    forall i | 0 <= i < n ensures order'[i] < n {
      FromDiffer(i, i + 1, k, n + 1);
    }
    forall x | 0 <= x < n ensures x in order' {
      assert x in order;
      var j :| 0 <= j < |order| && order[j] == x;
      var i := if j == k then 0 else if j < k then j + 1 else j;
      FromBack(j, k);
      assert order'[i] == x;
    }
  }

  lemma FromDiffer(i: nat, j: nat, k: nat, n: nat)
    requires i < j < n && k < n
    ensures From(i, k) != From(j, k) && From(i, k) < n && From(j, k) < n && (i > 0 ==> From(i, k) < From(j, k))
    ensures From(j, k) != k && (i > 0 ==> From(i, k) != k)
    ensures k < n - 1 ==> From(i, k) < n - 1 || i == n - 1
  {
  }

  lemma FromBack(j: nat, k: nat)
    ensures From(if j == k then 0 else if j < k then j + 1 else j, k) == j
  {
  }

  lemma FrontInOrder(order: seq<nat>, order': seq<nat>, n: nat, k: nat, stamp: seq<nat>, clock: nat)
    requires Listed(order, n) && Front(order, order', k) && |stamp| == n && InOrder(order, stamp, clock)
    ensures InOrder(order', stamp[order[k] := clock], clock + 1)
  {
    hide From;
    var stamp' := stamp[order[k] := clock];
    forall i, j | 0 <= i < j < n && order'[i] < n && order'[j] < n ensures stamp'[order'[j]] < stamp'[order'[i]] {
      FromDiffer(i, j, k, n);
      FromBack(k, k);
    }
  }

  /** Moving a buffer to the front keeps the list a permutation, and in order if the
      buffer is the one released last. */
  lemma FrontKeeps(order: seq<nat>, n: nat, b: nat, stamp: seq<nat>, clock: nat)
    requires Listed(order, n) && b < n == |stamp| && InOrder(order, stamp, clock)
    ensures Listed([b] + Remove(order, b), n)
    ensures InOrder([b] + Remove(order, b), stamp[b := clock], clock + 1)
  {
    hide Listed, InOrder, Front;
    var k := RemoveFront(order, n, b);
    FrontListed(order, [b] + Remove(order, b), n, k);
    FrontInOrder(order, [b] + Remove(order, b), n, k, stamp, clock);
  }

  /** The victim is the unreferenced buffer that was released longest ago. */
  lemma {:induction false} VictimIsOldest(order: seq<nat>, refcnt: seq<nat>, stamp: seq<nat>, clock: nat, k: nat,
                                          b: nat)
    requires k <= |order| == |refcnt| == |stamp| && Listed(order, |refcnt|) && InOrder(order, stamp, clock)
    requires b < |refcnt| && refcnt[b] == 0 && exists i :: 0 <= i < k && order[i] == b
    ensures Victim(order, refcnt, k).Some? && stamp[Victim(order, refcnt, k).v] <= stamp[b]
  {
    if refcnt[order[k - 1]] == 0 {
    } else {
      VictimIsOldest(order, refcnt, stamp, clock, k - 1, b);
    }
  }

  // ---- every step keeps the invariant

  lemma HitKeeps(s: State, s': State, want: Id, b: nat)
    requires Inv(s) && b < |s.id| && want.dev >= 1 && Hit(s, s', want, b)
    ensures Inv(s')
  {
    hide Count, Listed, InOrder;
    forall x | 0 <= x < |s.id| ensures s'.refcnt[x] == Count(s'.claims, x) + s'.pins[x] {
      CountAppend(s.claims, Waiting(b), x);
    }
    SameGuards(s, s');
  }

  /** Steps that leave guards, ids, contents and disk alone. */
  lemma SameGuards(s: State, s': State)
    requires Shape(s) && Shape(s') && Agree(s) && s'.id == s.id && s'.valid == s.valid && s'.data == s.data
    requires s'.disk == s.disk && s'.latest == s.latest
    requires forall b :: 0 <= b < |s.id| && Guarded(s, b) ==>
      Guarded(s', b) || s.disk[s.id[b]] == s.latest[s.id[b]] || s.id[b] !in s.disk
    requires forall b :: 0 <= b < |s.id| && s.id[b].dev == 0 ==> s'.refcnt[b] == 0
    ensures Agree(s')
  {
    forall x | x in s'.disk && s'.disk[x] != s'.latest[x]
      ensures exists b :: 0 <= b < |s'.id| && s'.id[b] == x && Guarded(s', b)
    {
      var b :| 0 <= b < |s.id| && s.id[b] == x && Guarded(s, b);
      assert Guarded(s', b);
    }
  }

  lemma RecycleCounted(s: State, s': State, want: Id, b: nat)
    requires Shape(s) && Counted(s) && b < |s.id| && s.refcnt[b] == 0
    requires s' == s.(id := s.id[b := want], valid := s.valid[b := false], refcnt := s.refcnt[b := 1],
                      claims := s.claims + [Waiting(b)])
    ensures Counted(s')
  {
    hide Count;
    Unused(s, b);
    forall x | 0 <= x < |s.id| ensures s'.refcnt[x] == Count(s'.claims, x) + s'.pins[x] {
      CountAppend(s.claims, Waiting(b), x);
    }
  }

  lemma RecycleUnique(id: seq<Id>, want: Id, b: nat)
    requires Unique(id) && b < |id| && forall a :: 0 <= a < |id| ==> id[a] != want
    ensures Unique(id[b := want])
  {
  }

  lemma RecycleKeeps(s: State, s': State, want: Id)
    requires Inv(s) && want.dev >= 1 && want in s.disk && (forall b :: 0 <= b < |s.id| ==> s.id[b] != want)
    requires Recycled(s, s', want)
    ensures Inv(s')
  {
    hide Count, InOrder, Listed, Counted, Agree, Unique;
    match Victim(s.order, s.refcnt, |s.order|)
    case None => PanicKeeps(s);
    case Some(b) =>
      Unused(s, b);
      RecycleCounted(s, s', want, b);
      RecycleUnique(s.id, want, b);
      RecycleAgrees(s, s', want, b);
  }

  lemma PanicKeeps(s: State)
    requires Inv(s)
    ensures Inv(s.(panicked := true))
  {
    hide Count, InOrder, Listed;
    SameGuards(s, s.(panicked := true));
  }

  /** A recycled buffer held nothing that is not on disk. */
  lemma RecycleAgrees(s: State, s': State, want: Id, b: nat)
    requires Shape(s) && Unique(s.id) && Agree(s) && b < |s.id| && s.lock[b] == None && s.pins[b] == 0
    requires want.dev >= 1 && want in s.disk && forall a :: 0 <= a < |s.id| ==> s.id[a] != want
    requires s' == s.(id := s.id[b := want], valid := s.valid[b := false], refcnt := s.refcnt[b := 1],
                      claims := s'.claims)
    ensures Agree(s')
  {
    forall x | x in s'.disk && s'.disk[x] != s'.latest[x]
      ensures exists a :: 0 <= a < |s'.id| && s'.id[a] == x && Guarded(s', a)
    {
      var a :| 0 <= a < |s.id| && s.id[a] == x && Guarded(s, a);
      assert s'.id[a] == x && Guarded(s', a);
    }
  }

  lemma LockKeeps(s: State, s': State, c: nat)
    requires Inv(s) && c < |s.claims| && s.claims[c].Waiting? && s.claims[c].b < |s.id|
    requires Lock1(s, s', c, s.claims[c].b)
    ensures Inv(s')
  {
    hide Count, Listed, InOrder;
    var b := s.claims[c].b;
    forall x | 0 <= x < |s.id| ensures Count(s'.claims, x) == Count(s.claims, x) {
      CountChange(s.claims, c, Holding(b), x);
    }
    SameGuards(s, s');
  }

  lemma UnlockKeeps(s: State, s': State, c: nat)
    requires Inv(s) && Holds(s, c) && Unlock1(s, s', c, s.claims[c].b)
    ensures Inv(s')
  {
    hide Count, Listed, InOrder;
    var b := s.claims[c].b;
    forall x | 0 <= x < |s.id| ensures Count(s'.claims, x) == Count(s.claims, x) {
      CountChange(s.claims, c, Releasing(b), x);
    }
    HolderDev(s, c);
    SameGuards(s, s');
  }

  lemma HolderDev(s: State, c: nat)
    requires Inv(s) && Holds(s, c)
    ensures s.id[s.claims[c].b].dev >= 1 && s.id[s.claims[c].b] in s.disk && s.lock[s.claims[c].b] == Some(c)
  {
    hide Count, Listed, InOrder;
    InUse(s, c);
  }

  lemma DropCounted(s: State, c: nat, b: nat)
    requires Shape(s) && Counted(s) && c < |s.claims| && s.claims[c] == Releasing(b) && b < |s.id| && s.refcnt[b] > 0
    ensures Counted(Dropped(s, c, b))
  {
    hide Count, Remove;
    var s' := Dropped(s, c, b);
    forall x | 0 <= x < |s.id| ensures s'.refcnt[x] == Count(s'.claims, x) + s'.pins[x] {
      CountChange(s.claims, c, Finished, x);
    }
  }

  lemma DropKeeps(s: State, s': State, c: nat)
    requires Inv(s) && c < |s.claims| && s.claims[c].Releasing? && s.claims[c].b < |s.id| && s.refcnt[s.claims[c].b] > 0
    requires s' == Dropped(s, c, s.claims[c].b)
    ensures Inv(s')
  {
    hide Count, Listed, InOrder, Counted, Remove, Unique;
    var b := s.claims[c].b;
    DropCounted(s, c, b);
    FrontKeeps(s.order, |s.id|, b, s.stamp, s.clock);
    SameGuards(s, s');
  }

  lemma PinKeeps(s: State, s': State, c: nat)
    requires Inv(s) && Holds(s, c) && (Pin1(s, s', s.claims[c].b) || Unpin1(s, s', s.claims[c].b))
    ensures Inv(s')
  {
    hide Count, Listed, InOrder;
    HolderDev(s, c);
    SameGuards(s, s');
  }

  lemma ReadKeeps(s: State, s': State, c: nat)
    requires Inv(s) && Holds(s, c) && Read1(s, s', s.claims[c].b)
    ensures Inv(s')
  {
    hide Count, Listed, InOrder;
    HolderDev(s, c);
    var b := s.claims[c].b;
    assert s.disk[s.id[b]] == s.latest[s.id[b]];
    forall x | x in s'.disk && s'.disk[x] != s'.latest[x]
      ensures exists a :: 0 <= a < |s'.id| && s'.id[a] == x && Guarded(s', a)
    {
      var a :| 0 <= a < |s.id| && s.id[a] == x && Guarded(s, a);
      assert s'.id[a] == x && Guarded(s', a);
    }
  }

  lemma StoreKeeps(s: State, s': State, c: nat, x: Block)
    requires Inv(s) && Holds(s, c) && Store1(s, s', s.claims[c].b, x)
    ensures Inv(s')
  {
    hide Count, Listed, InOrder;
    HolderDev(s, c);
    var b := s.claims[c].b;
    forall y | y in s'.disk && s'.disk[y] != s'.latest[y]
      ensures exists a :: 0 <= a < |s'.id| && s'.id[a] == y && Guarded(s', a)
    {
      if y == s.id[b] {
        assert s'.id[b] == y && Guarded(s', b);
      } else {
        var a :| 0 <= a < |s.id| && s.id[a] == y && Guarded(s, a);
        assert s'.id[a] == y && Guarded(s', a);
      }
    }
  }

  lemma WriteKeeps(s: State, s': State, c: nat)
    requires Inv(s) && Holds(s, c) && Write1(s, s', s.claims[c].b)
    ensures Inv(s')
  {
    hide Count, Listed, InOrder;
    HolderDev(s, c);
    forall y | y in s'.disk && s'.disk[y] != s'.latest[y]
      ensures exists a :: 0 <= a < |s'.id| && s'.id[a] == y && Guarded(s', a)
    {
      var a :| 0 <= a < |s.id| && s.id[a] == y && Guarded(s, a);
      assert s'.id[a] == y && Guarded(s', a);
    }
  }

  lemma NextKeeps(s: State, s': State, e: Event)
    requires Inv(s) && Next(s, s', e)
    ensures Inv(s')
  {
    hide Inv, Hit, Recycled, Read1, Store1, Write1, Pin1, Unpin1, Unlock1, Lock1, Dropped;
    InvShape(s);
    match e
    case Get(want) =>
      if b :| 0 <= b < |s.id| && Hit(s, s', want, b) {
        HitKeeps(s, s', want, b);
      } else {
        RecycleKeeps(s, s', want);
      }
    case Lock(c) => LockKeeps(s, s', c);
    case Read(c) => ReadKeeps(s, s', c);
    case Store(c, x) => StoreKeeps(s, s', c, x);
    case Write(c) => WriteKeeps(s, s', c);
    case Pin(c) => PinKeeps(s, s', c);
    case Unpin(c) => PinKeeps(s, s', c);
    case Unlock(c) => UnlockKeeps(s, s', c);
    case Drop(c) => DropKeeps(s, s', c);
  }

  lemma InvShape(s: State)
    requires Inv(s)
    ensures Shape(s)
  {
  }

  // ---- runs

  ghost predicate IsRun(ss: seq<State>, es: seq<Event>) {
    && |ss| == |es| + 1 && Initial(ss[0])
    && forall i :: 0 <= i < |es| ==> Shape(ss[i]) && Next(ss[i], ss[i + 1], es[i])
  }

  lemma {:induction false} RunInv(ss: seq<State>, es: seq<Event>, i: nat)
    requires IsRun(ss, es) && i < |ss|
    ensures Inv(ss[i])
  {
    hide Inv, Next, Initial;
    if i == 0 {
      InitialInv(ss[0]);
    } else {
      RunInv(ss, es, i - 1);
      NextKeeps(ss[i - 1], ss[i], es[i - 1]);
    }
  }

  lemma InitialInv(s: State)
    requires Initial(s)
    ensures Inv(s)
  {
    hide Listed, InOrder;
    assert forall b :: 0 <= b < |s.id| ==> Count(s.claims, b) == 0;
  }

  /** In every reachable state the list is a permutation of the buffers, no block is in
      two buffers, and each reference count is the number of holders, waiters and
      releasers plus the pins. */
  lemma CacheStructure(ss: seq<State>, es: seq<Event>, i: nat)
    requires IsRun(ss, es) && i < |ss|
    ensures var s := ss[i];
      && Shape(s) && Listed(s.order, |s.id|) && Unique(s.id)
      && forall b :: 0 <= b < |s.id| ==> s.refcnt[b] == Count(s.claims, b) + s.pins[b]
  {
    hide IsRun, Listed, InOrder, Count;
    RunInv(ss, es, i);
  }

  /** After bread, the holder of a buffer sees what was last stored in the block. */
  lemma ReadsLatest(ss: seq<State>, es: seq<Event>, i: nat, c: nat)
    requires IsRun(ss, es) && i < |ss| && Shape(ss[i]) && Holds(ss[i], c) && ss[i].valid[ss[i].claims[c].b]
    ensures var s := ss[i]; var b := s.claims[c].b;
      s.id[b] in s.latest && s.data[b] == s.latest[s.id[b]]
  {
    hide IsRun, Listed, InOrder, Count;
    RunInv(ss, es, i);
    HolderDev(ss[i], c);
  }

  /** Recycling takes the unreferenced buffer released longest ago, and never one whose
      contents are not on disk. */
  lemma RecyclesOldest(ss: seq<State>, es: seq<Event>, i: nat, a: nat)
    requires IsRun(ss, es) && i < |ss| && Shape(ss[i]) && Listed(ss[i].order, |ss[i].id|) && a < |ss[i].id|
    requires ss[i].refcnt[a] == 0
    ensures var s := ss[i];
      var v := Victim(s.order, s.refcnt, |s.order|);
      v.Some? && s.stamp[v.v] <= s.stamp[a] && s.pins[v.v] == 0 && s.lock[v.v] == None
      && (s.id[v.v].dev >= 1 ==>
            s.id[v.v] in s.disk && s.id[v.v] in s.latest && s.disk[s.id[v.v]] == s.latest[s.id[v.v]])
  {
    hide IsRun, InOrder, Count, Victim;
    RunInv(ss, es, i);
    var s := ss[i];
    assert a in s.order;
    VictimIsOldest(s.order, s.refcnt, s.stamp, s.clock, |s.order|, a);
    Unused(s, Victim(s.order, s.refcnt, |s.order|).v);
  }
}
