/** The inode table (kernel/fs.c, ialloc to iput) as a step relation over the sections that
    itable.lock, an inode's sleep lock or the inode's disk block protect. */
module Itable {
  import opened Options

  /** An inode on disk or its copy in memory.  `gen` counts how often the number has been
      allocated. */
  datatype Dinode = Dinode(typ: nat, nlink: nat, gen: nat)

  /** One reference to an inode table entry, as somebody's pointer: at rest; with ip->lock
      held; inside iput at the point of freeing the inode, after the inode was freed on
      disk, or just before ref--.  `Fresh` is ialloc between marking an inode and iget. */
  datatype Claim =
    | Fresh(inum: nat)
    | Have(e: nat)
    | Locked(e: nat)
    | Freeing(e: nat)
    | Erased(e: nat)
    | Dropping(e: nat)
    | Gone

  datatype Halt = Going | NoInodes | NoType | SleepUnderSpinlock

  datatype State = State(
    inum: seq<nat>, ref: seq<nat>, valid: seq<bool>, mem: seq<Dinode>, lock: seq<Opt<nat>>,
    disk: seq<Dinode>, claims: seq<Claim>, halt: Halt)

  predicate Shape(s: State) {
    |s.inum| == |s.ref| == |s.valid| == |s.mem| == |s.lock|
  }

  // ---- steps

  datatype Event =
    | Alloc(inum: nat, typ: nat)
    | Lookup(inum: nat)
    | GetFresh(c: nat)
    | Dup(c: nat)
    | Lock(c: nat)
    | Read(c: nat)
    | Update(c: nat, typ: nat, nlink: nat)
    | Unlock(c: nat)
    | Put(c: nat)
    | Erase(c: nat)
    | Forget(c: nat)
    | Drop(c: nat)

  /** The entry that has the inode, or else the first one without references: iget's scan. */
  function Find(inum: seq<nat>, ref: seq<nat>, want: nat, i: nat, empty: Opt<nat>): Opt<nat>
    requires |inum| == |ref| && i <= |inum|
    decreases |inum| - i
  {
    if i == |inum| then empty
    else if ref[i] > 0 && inum[i] == want then Some(i)
    else Find(inum, ref, want, i + 1, if empty.None? && ref[i] == 0 then Some(i) else empty)
  }

  /** iget; the new reference is appended, or takes the place of claim `c`. */
  predicate Iget(s: State, s': State, want: nat, claims: seq<Claim>, at: nat)
    requires Shape(s) && at < |claims|
  {
    match Find(s.inum, s.ref, want, 0, None)
    case None => s' == s.(halt := NoInodes)
    case Some(e) =>
      && e < |s.inum|
      && s' == if s.ref[e] > 0 then s.(ref := s.ref[e := s.ref[e] + 1], claims := claims[at := Have(e)])
               else s.(inum := s.inum[e := want], ref := s.ref[e := 1], valid := s.valid[e := false],
                       claims := claims[at := Have(e)])
  }

  predicate Refers(s: State, c: nat) {
    && c < |s.claims|
    && match s.claims[c]
       case Have(e) => e < |s.inum|
       case Locked(e) => e < |s.inum|
       case Freeing(e) => e < |s.inum|
       case Erased(e) => e < |s.inum|
       case Dropping(e) => e < |s.inum|
       case _ => false
  }

  /** One step.  A directory entry leads to an inode only while its link count is not 0. */
  predicate Next(s: State, s': State, ev: Event)
    requires Shape(s)
  {
    && s.halt == Going
    && match ev
       case Alloc(inum, typ) =>
         && 1 <= inum < |s.disk| && s.disk[inum].typ == 0 && typ != 0
         && s' == s.(disk := s.disk[inum := Dinode(typ, 0, s.disk[inum].gen + 1)], claims := s.claims + [Fresh(inum)])
       case Lookup(inum) =>
         && inum < |s.disk| && s.disk[inum].typ != 0 && s.disk[inum].nlink > 0
         && Iget(s, s', inum, s.claims + [Gone], |s.claims|)
       case GetFresh(c) => c < |s.claims| && s.claims[c].Fresh? && Iget(s, s', s.claims[c].inum, s.claims, c)
       case Dup(c) =>
         && Refers(s, c) && (s.claims[c].Have? || s.claims[c].Locked?)
         && s' == s.(ref := s.ref[s.claims[c].e := s.ref[s.claims[c].e] + 1],
                     claims := s.claims + [Have(s.claims[c].e)])
       case Lock(c) => Refers(s, c) && s.claims[c].Have? && Lock1(s, s', c, s.claims[c].e)
       case Read(c) => Refers(s, c) && s.claims[c].Locked? && Read1(s, s', s.claims[c].e)
       case Update(c, typ, nlink) =>
         && Refers(s, c) && s.claims[c].Locked? && typ != 0
         && Update1(s, s', s.claims[c].e, typ, nlink)
       case Unlock(c) => Refers(s, c) && s.claims[c].Locked? && Unlock1(s, s', c, s.claims[c].e, Have(s.claims[c].e))
       case Put(c) => Refers(s, c) && s.claims[c].Have? && Put1(s, s', c, s.claims[c].e)
       case Erase(c) => Refers(s, c) && s.claims[c].Freeing? && Erase1(s, s', c, s.claims[c].e)
       case Forget(c) =>
         Refers(s, c) && s.claims[c].Erased?
         && Unlock1(s.(valid := s.valid[s.claims[c].e := false]), s', c, s.claims[c].e, Dropping(s.claims[c].e))
       case Drop(c) =>
         && Refers(s, c) && s.claims[c].Dropping? && s.ref[s.claims[c].e] > 0
         && s' == Dropped(s, c, s.claims[c].e)
  }

  predicate Lock1(s: State, s': State, c: nat, e: nat)
    requires Shape(s) && e < |s.inum| && c < |s.claims|
  {
    s.lock[e] == None && s' == s.(lock := s.lock[e := Some(c)], claims := s.claims[c := Locked(e)])
  }

  /** ilock's second half: read the inode unless it is there. */
  predicate Read1(s: State, s': State, e: nat)
    requires Shape(s) && e < |s.inum|
  {
    && !s.valid[e] && s.inum[e] < |s.disk|
    && s' == if s.disk[s.inum[e]].typ == 0 then s.(halt := NoType)
             else s.(mem := s.mem[e := s.disk[s.inum[e]]], valid := s.valid[e := true])
  }

  /** A change of the inode and iupdate, under ip->lock. */
  predicate Update1(s: State, s': State, e: nat, typ: nat, nlink: nat)
    requires Shape(s) && e < |s.inum|
  {
    && s.valid[e] && s.inum[e] < |s.disk|
    && s' == s.(mem := s.mem[e := Dinode(typ, nlink, s.mem[e].gen)],
                disk := s.disk[s.inum[e] := Dinode(typ, nlink, s.disk[s.inum[e]].gen)])
  }

  predicate Unlock1(s: State, s': State, c: nat, e: nat, claim: Claim)
    requires Shape(s) && e < |s.inum| && c < |s.claims|
  {
    s' == s.(lock := s.lock[e := None], claims := s.claims[c := claim])
  }

  /** iput up to the point where it holds ip->lock, or is done.  acquiresleep is called
      with itable.lock held, so it must not have to wait. */
  predicate Put1(s: State, s': State, c: nat, e: nat)
    requires Shape(s) && e < |s.inum| && c < |s.claims|
  {
    if s.ref[e] == 1 && s.valid[e] && s.mem[e].nlink == 0 then
      s' == if s.lock[e].Some? then s.(halt := SleepUnderSpinlock)
            else s.(lock := s.lock[e := Some(c)], claims := s.claims[c := Freeing(e)])
    else s.ref[e] > 0 && s' == Dropped(s, c, e)
  }

  /** itrunc, type 0 and iupdate. */
  predicate Erase1(s: State, s': State, c: nat, e: nat)
    requires Shape(s) && e < |s.inum| && c < |s.claims|
  {
    && s.inum[e] < |s.disk|
    && s' == s.(mem := s.mem[e := s.mem[e].(typ := 0)], disk := s.disk[s.inum[e] := s.disk[s.inum[e]].(typ := 0)],
                claims := s.claims[c := Erased(e)])
  }

  function Dropped(s: State, c: nat, e: nat): State
    requires Shape(s) && e < |s.inum| && c < |s.claims| && s.ref[e] > 0
  {
    s.(ref := s.ref[e := s.ref[e] - 1], claims := s.claims[c := Gone])
  }

  predicate Initial(s: State) {
    && Shape(s) && s.halt == Going && s.claims == []
    && forall e :: 0 <= e < |s.inum| ==> s.ref[e] == 0 && s.lock[e] == None
  }

  // ---- the invariant

  /** The entry that a claim is a reference to. */
  function EntryOf(c: Claim): Opt<nat> {
    match c
    case Fresh(_) => None
    case Have(e) => Some(e)
    case Locked(e) => Some(e)
    case Freeing(e) => Some(e)
    case Erased(e) => Some(e)
    case Dropping(e) => Some(e)
    case Gone => None
  }

  predicate HoldsLock(c: Claim) {
    c.Locked? || c.Freeing? || c.Erased?
  }

  /** The reference can still be used to reach the inode. */
  predicate Live(c: Claim) {
    c.Have? || c.Locked?
  }

  function One(c: Claim, e: nat): nat {
    if EntryOf(c) == Some(e) then 1 else 0
  }

  function Count(claims: seq<Claim>, e: nat): nat {
    if claims == [] then 0 else Count(claims[..|claims| - 1], e) + One(claims[|claims| - 1], e)
  }

  /** Claim d is no live reference to inode i, and no other allocation of it. */
  predicate Aside(s: State, d: nat, i: nat)
    requires Shape(s) && d < |s.claims|
  {
    match s.claims[d]
    case Fresh(j) => j != i
    case Have(e) => e < |s.inum| && s.inum[e] != i
    case Locked(e) => e < |s.inum| && s.inum[e] != i
    case Freeing(e) => e < |s.inum| && s.inum[e] != i
    case _ => true
  }

  predicate Allocated(s: State, e: nat)
    requires Shape(s)
  {
    e < |s.inum| && s.inum[e] < |s.disk| && s.disk[s.inum[e]].typ != 0
  }

  predicate ClaimOk(s: State, c: nat)
    requires Shape(s) && c < |s.claims|
  {
    match s.claims[c]
    case Fresh(i) =>
      i < |s.disk| && s.disk[i].typ != 0 && s.disk[i].nlink == 0
    case Have(e) => Allocated(s, e)
    case Locked(e) => Allocated(s, e) && s.lock[e] == Some(c)
    case Freeing(e) => e < |s.inum| && s.lock[e] == Some(c) && s.valid[e] && s.ref[e] == 1 && s.mem[e].nlink == 0
    case Erased(e) => e < |s.inum| && s.lock[e] == Some(c) && s.valid[e]
    case Dropping(e) => e < |s.inum|
    case Gone => true
  }

  /** While ialloc has not called iget yet, nobody else can reach the inode. */
  predicate Apart(s: State, c: nat, d: nat)
    requires Shape(s) && c < |s.claims| && d < |s.claims|
  {
    c != d && s.claims[c].Fresh? ==> Aside(s, d, s.claims[c].inum)
  }

  /** Somebody has freed the entry's inode on disk and not yet marked the copy stale. */
  predicate BeingErased(s: State, e: nat)
    requires Shape(s) && e < |s.inum|
  {
    s.lock[e].Some? && s.lock[e].v < |s.claims| && s.claims[s.lock[e].v] == Erased(e)
  }

  /** A valid copy is the inode on disk, which is allocated, unless it is being erased. */
  predicate Current(s: State, e: nat)
    requires Shape(s) && e < |s.inum|
  {
    s.ref[e] > 0 && s.valid[e] && !BeingErased(s, e) ==> Allocated(s, e) && s.mem[e] == s.disk[s.inum[e]]
  }

  /** The lock is held by a claim to this entry. */
  predicate LockOk(s: State, e: nat)
    requires Shape(s) && e < |s.inum|
  {
    s.lock[e].Some? ==>
      && s.lock[e].v < |s.claims|
      && HoldsLock(s.claims[s.lock[e].v])
      && EntryOf(s.claims[s.lock[e].v]) == Some(e)
  }

  predicate Counted(s: State)
    requires Shape(s)
  {
    forall e :: 0 <= e < |s.inum| ==> s.ref[e] == Count(s.claims, e)
  }

  /** No inode is in two entries. */
  predicate Unique(s: State)
    requires Shape(s)
  {
    && (forall e :: 0 <= e < |s.inum| && s.ref[e] > 0 ==> s.inum[e] < |s.disk|)
    && (forall d, e :: 0 <= d < e < |s.inum| && s.ref[d] > 0 && s.ref[e] > 0 ==> s.inum[d] != s.inum[e])
  }

  predicate Inv(s: State) {
    && Shape(s) && Counted(s) && Unique(s)
    && s.halt != SleepUnderSpinlock && s.halt != NoType
    && (forall e :: 0 <= e < |s.inum| ==> LockOk(s, e))
    && (forall e :: 0 <= e < |s.inum| ==> Current(s, e))
    && (forall c :: 0 <= c < |s.claims| ==> ClaimOk(s, c))
    && (forall c, d :: 0 <= c < |s.claims| && 0 <= d < |s.claims| ==> Apart(s, c, d))
  }

  // ---- counting

  lemma {:induction false} CountSet(claims: seq<Claim>, c: nat, v: Claim, e: nat)
    requires c < |claims|
    ensures Count(claims[c := v], e) == Count(claims, e) - One(claims[c], e) + One(v, e)
    decreases |claims|
  {
    var k := |claims| - 1;
    if c < k {
      CountSet(claims[..k], c, v, e);
      assert claims[c := v][..k] == claims[..k][c := v];
    } else {
      assert claims[c := v][..k] == claims[..k];
    }
  }

  lemma CountAppend(claims: seq<Claim>, v: Claim, e: nat)
    ensures Count(claims + [v], e) == Count(claims, e) + One(v, e)
  {
    assert (claims + [v])[..|claims|] == claims;
  }

  lemma {:induction false} CountUsed(claims: seq<Claim>, c: nat, e: nat)
    requires c < |claims| && EntryOf(claims[c]) == Some(e)
    ensures Count(claims, e) >= 1
  {
    if c < |claims| - 1 {
      CountUsed(claims[..|claims| - 1], c, e);
    }
  }

  lemma {:induction false} CountTwice(claims: seq<Claim>, c: nat, d: nat, e: nat)
    requires c < d < |claims| && EntryOf(claims[c]) == Some(e) && EntryOf(claims[d]) == Some(e)
    ensures Count(claims, e) >= 2
  {
    if d < |claims| - 1 {
      CountTwice(claims[..|claims| - 1], c, d, e);
    } else {
      CountUsed(claims[..|claims| - 1], c, e);
    }
  }

  /** Every claim to an entry is counted. */
  lemma Used(s: State)
    requires Inv(s)
    ensures forall c :: 0 <= c < |s.claims| && EntryOf(s.claims[c]).Some? ==>
              EntryOf(s.claims[c]).v < |s.inum| && s.ref[EntryOf(s.claims[c]).v] > 0
  {
    forall c | 0 <= c < |s.claims| && EntryOf(s.claims[c]).Some?
      ensures EntryOf(s.claims[c]).v < |s.inum| && s.ref[EntryOf(s.claims[c]).v] > 0
    {
      assert ClaimOk(s, c);
      CountUsed(s.claims, c, EntryOf(s.claims[c]).v);
    }
  }

  /** The only reference to an entry is the only claim to it. */
  lemma Alone(s: State, c: nat, e: nat)
    requires Inv(s) && c < |s.claims| && e < |s.inum| && s.ref[e] == 1 && EntryOf(s.claims[c]) == Some(e)
    ensures forall d :: 0 <= d < |s.claims| && d != c ==> EntryOf(s.claims[d]) != Some(e)
  {
    forall d | 0 <= d < |s.claims| && d != c && EntryOf(s.claims[d]) == Some(e)
      ensures false
    {
      CountTwice(s.claims, if c < d then c else d, if c < d then d else c, e);
    }
  }

  /** Replacing a claim changes the counts by what the two claims refer to. */
  lemma Recounted(s: State, claims: seq<Claim>, ref: seq<nat>, c: nat, v: Claim)
    requires Inv(s) && c < |s.claims| && claims == s.claims[c := v] && |ref| == |s.ref|
    requires forall e :: 0 <= e < |ref| ==> ref[e] == s.ref[e] - One(s.claims[c], e) + One(v, e)
    ensures forall e :: 0 <= e < |ref| ==> ref[e] == Count(claims, e)
  {
    forall e | 0 <= e < |ref|
      ensures ref[e] == Count(claims, e)
    {
      CountSet(s.claims, c, v, e);
    }
  }

  lemma CountedMore(s: State, ref: seq<nat>, v: Claim)
    requires Inv(s) && |ref| == |s.ref|
    requires forall e :: 0 <= e < |ref| ==> ref[e] == s.ref[e] + One(v, e)
    ensures forall e :: 0 <= e < |ref| ==> ref[e] == Count(s.claims + [v], e)
  {
    forall e | 0 <= e < |ref|
      ensures ref[e] == Count(s.claims + [v], e)
    {
      CountAppend(s.claims, v, e);
    }
  }

  // ---- iget's scan

  /** The scan finds a referenced entry for the inode whenever there is one, and otherwise
      an unreferenced entry whenever there is one. */
  lemma {:induction false} FindFinds(inum: seq<nat>, ref: seq<nat>, want: nat, i: nat, empty: Opt<nat>)
    requires |inum| == |ref| && i <= |inum|
    requires empty.Some? ==> empty.v < i && ref[empty.v] == 0
    ensures empty.Some? ==> Find(inum, ref, want, i, empty).Some?
    ensures Find(inum, ref, want, i, empty) == None ==> forall e :: i <= e < |inum| ==> ref[e] > 0 && inum[e] != want
    ensures Find(inum, ref, want, i, empty).Some? ==> Find(inum, ref, want, i, empty).v < |inum|
    ensures Find(inum, ref, want, i, empty).Some? && ref[Find(inum, ref, want, i, empty).v] > 0 ==>
              inum[Find(inum, ref, want, i, empty).v] == want
    ensures Find(inum, ref, want, i, empty).Some? && ref[Find(inum, ref, want, i, empty).v] == 0 ==>
              forall e :: i <= e < |inum| && ref[e] > 0 ==> inum[e] != want
    decreases |inum| - i
  {
    if i < |inum| && !(ref[i] > 0 && inum[i] == want) {
      FindFinds(inum, ref, want, i + 1, if empty.None? && ref[i] == 0 then Some(i) else empty);
    }
  }

  // ---- every step keeps the invariant

  lemma AllocKeeps(s: State, s': State, inum: nat, typ: nat)
    requires Inv(s) && Next(s, s', Alloc(inum, typ))
    ensures Inv(s')
  {
    hide Count;
    CountedMore(s, s.ref, Fresh(inum));
    Used(s);
    forall c | 0 <= c < |s'.claims|
      ensures ClaimOk(s', c)
    {
      if c < |s.claims| {
        assert ClaimOk(s, c);
      }
    }
    forall a, b | 0 <= a < |s'.claims| && 0 <= b < |s'.claims|
      ensures Apart(s', a, b)
    {
      if b < |s.claims| {
        assert a < |s.claims| ==> Apart(s, a, b);
        assert ClaimOk(s, b);
        assert s.claims[b].Freeing? ==> Current(s, s.claims[b].e);
      } else {
        assert a < |s.claims| ==> ClaimOk(s, a);
      }
    }
    forall e | 0 <= e < |s'.inum|
      ensures LockOk(s', e) && Current(s', e)
    {
      assert LockOk(s, e) && Current(s, e);
    }
  }

  lemma DupKeeps(s: State, s': State, c: nat)
    requires Inv(s) && Next(s, s', Dup(c))
    ensures Inv(s')
  {
    hide Count;
    CountedMore(s, s'.ref, Have(s.claims[c].e));
    Used(s);
    forall d | 0 <= d < |s'.claims|
      ensures ClaimOk(s', d)
    {
      assert ClaimOk(s, c);
      if d < |s.claims| {
        assert ClaimOk(s, d);
        if s.claims[d] == Freeing(s.claims[c].e) {
          Alone(s, d, s.claims[c].e);
        }
      }
    }
    forall a, b | 0 <= a < |s'.claims| && 0 <= b < |s'.claims|
      ensures Apart(s', a, b)
    {
      assert a < |s.claims| ==> Apart(s, a, if b < |s.claims| then b else c);
    }
    forall e | 0 <= e < |s'.inum|
      ensures LockOk(s', e) && Current(s', e)
    {
      assert LockOk(s, e) && Current(s, e);
    }
  }

  lemma LockKeeps(s: State, s': State, c: nat)
    requires Inv(s) && Next(s, s', Lock(c))
    ensures Inv(s')
  {
    hide Count;
    Recounted(s, s'.claims, s'.ref, c, s'.claims[c]);
    forall d | 0 <= d < |s'.claims|
      ensures ClaimOk(s', d)
    {
      assert ClaimOk(s, d) && ClaimOk(s, c);
    }
    forall a, b | 0 <= a < |s'.claims| && 0 <= b < |s'.claims|
      ensures Apart(s', a, b)
    {
      assert a < |s.claims| && b < |s.claims| ==> Apart(s, a, b);
    }
    forall e | 0 <= e < |s'.inum|
      ensures LockOk(s', e) && Current(s', e)
    {
      assert LockOk(s, e) && Current(s, e);
    }
  }

  lemma ReadKeeps(s: State, s': State, c: nat)
    requires Inv(s) && Next(s, s', Read(c))
    ensures Inv(s')
  {
    hide Count;
    assert ClaimOk(s, c);
    forall d | 0 <= d < |s'.claims|
      ensures ClaimOk(s', d)
    {
      assert ClaimOk(s, d);
    }
    forall a, b | 0 <= a < |s'.claims| && 0 <= b < |s'.claims|
      ensures Apart(s', a, b)
    {
      assert a < |s.claims| && b < |s.claims| ==> Apart(s, a, b);
    }
    forall e | 0 <= e < |s'.inum|
      ensures LockOk(s', e) && Current(s', e)
    {
      assert LockOk(s, e) && Current(s, e);
    }
  }

  lemma UpdateKeeps(s: State, s': State, c: nat, typ: nat, nlink: nat)
    requires Inv(s) && Next(s, s', Update(c, typ, nlink))
    ensures Inv(s')
  {
    hide Count;
    assert ClaimOk(s, c);
    Used(s);
    forall d | 0 <= d < |s'.claims|
      ensures ClaimOk(s', d)
    {
      assert ClaimOk(s, d);
      assert Apart(s, d, c);
    }
    forall a, b | 0 <= a < |s'.claims| && 0 <= b < |s'.claims|
      ensures Apart(s', a, b)
    {
      assert a < |s.claims| && b < |s.claims| ==> Apart(s, a, b);
    }
    forall e | 0 <= e < |s'.inum|
      ensures LockOk(s', e) && Current(s', e)
    {
      assert LockOk(s, e) && Current(s, e);
    }
  }

  lemma UnlockKeeps(s: State, s': State, c: nat)
    requires Inv(s) && Next(s, s', Unlock(c))
    ensures Inv(s')
  {
    hide Count;
    Recounted(s, s'.claims, s'.ref, c, s'.claims[c]);
    assert ClaimOk(s, c);
    forall d | 0 <= d < |s'.claims|
      ensures ClaimOk(s', d)
    {
      assert ClaimOk(s, d);
    }
    forall a, b | 0 <= a < |s'.claims| && 0 <= b < |s'.claims|
      ensures Apart(s', a, b)
    {
      assert a < |s.claims| && b < |s.claims| ==> Apart(s, a, b);
    }
    forall e | 0 <= e < |s'.inum|
      ensures LockOk(s', e) && Current(s', e)
    {
      assert LockOk(s, e) && Current(s, e);
    }
  }

  lemma ForgetKeeps(s: State, s': State, c: nat)
    requires Inv(s) && Next(s, s', Forget(c))
    ensures Inv(s')
  {
    hide Count;
    Recounted(s, s'.claims, s'.ref, c, s'.claims[c]);
    assert ClaimOk(s, c);
    forall d | 0 <= d < |s'.claims|
      ensures ClaimOk(s', d)
    {
      assert ClaimOk(s, d);
    }
    forall a, b | 0 <= a < |s'.claims| && 0 <= b < |s'.claims|
      ensures Apart(s', a, b)
    {
      assert a < |s.claims| && b < |s.claims| ==> Apart(s, a, b);
    }
    forall e | 0 <= e < |s'.inum|
      ensures LockOk(s', e) && Current(s', e)
    {
      assert LockOk(s, e) && Current(s, e);
    }
  }

  lemma EraseKeeps(s: State, s': State, c: nat)
    requires Inv(s) && Next(s, s', Erase(c))
    ensures Inv(s')
  {
    hide Count;
    Recounted(s, s'.claims, s'.ref, c, s'.claims[c]);
    assert ClaimOk(s, c);
    Used(s);
    Alone(s, c, s.claims[c].e);
    forall d | 0 <= d < |s'.claims|
      ensures ClaimOk(s', d)
    {
      assert ClaimOk(s, d);
      assert Apart(s, d, c);
    }
    forall a, b | 0 <= a < |s'.claims| && 0 <= b < |s'.claims|
      ensures Apart(s', a, b)
    {
      assert a < |s.claims| && b < |s.claims| ==> Apart(s, a, b);
    }
    forall e | 0 <= e < |s'.inum|
      ensures LockOk(s', e) && Current(s', e)
    {
      assert LockOk(s, e) && Current(s, e);
    }
  }

  /** ref--. */
  lemma DroppedKeeps(s: State, c: nat, e: nat)
    requires Inv(s) && c < |s.claims| && e < |s.inum| && s.ref[e] > 0
    requires s.claims[c] == Have(e) || s.claims[c] == Dropping(e)
    ensures Inv(Dropped(s, c, e))
  {
    hide Count;
    var s' := Dropped(s, c, e);
    Recounted(s, s'.claims, s'.ref, c, Gone);
    Used(s);
    forall d | 0 <= d < |s'.claims|
      ensures ClaimOk(s', d)
    {
      assert ClaimOk(s, d);
      if s.claims[d] == Freeing(e) {
        Alone(s, d, e);
      }
    }
    forall a, b | 0 <= a < |s'.claims| && 0 <= b < |s'.claims|
      ensures Apart(s', a, b)
    {
      assert a < |s.claims| && b < |s.claims| ==> Apart(s, a, b);
    }
    forall f | 0 <= f < |s'.inum|
      ensures LockOk(s', f) && Current(s', f)
    {
      assert LockOk(s, f) && Current(s, f);
    }
  }

  /** iput never has to wait for the lock of the inode that it frees. */
  lemma PutNeverWaits(s: State, c: nat, e: nat)
    requires Inv(s) && c < |s.claims| && s.claims[c] == Have(e) && e < |s.inum| && s.ref[e] == 1
    ensures s.lock[e] == None
  {
    Alone(s, c, e);
    assert LockOk(s, e);
  }

  lemma PutKeeps(s: State, s': State, c: nat)
    requires Inv(s) && Next(s, s', Put(c))
    ensures Inv(s')
  {
    hide Count;
    var e := s.claims[c].e;
    if s.ref[e] == 1 && s.valid[e] && s.mem[e].nlink == 0 {
      PutNeverWaits(s, c, e);
      Recounted(s, s'.claims, s'.ref, c, s'.claims[c]);
      forall d | 0 <= d < |s'.claims|
        ensures ClaimOk(s', d)
      {
        assert ClaimOk(s, d);
      }
      forall a, b | 0 <= a < |s'.claims| && 0 <= b < |s'.claims|
        ensures Apart(s', a, b)
      {
        assert a < |s.claims| && b < |s.claims| ==> Apart(s, a, b);
      }
      forall f | 0 <= f < |s'.inum|
        ensures LockOk(s', f) && Current(s', f)
      {
        assert LockOk(s, f) && Current(s, f);
      }
    } else {
      DroppedKeeps(s, c, e);
    }
  }

  /** ialloc has just marked the inode, or a directory entry leads to it. */
  predicate MayGet(s: State, c: nat, want: nat) {
    && c < |s.claims|
    && (s.claims[c] == Fresh(want)
        || (s.claims[c] == Gone && want < |s.disk| && s.disk[want].typ != 0 && s.disk[want].nlink > 0))
  }

  /** iget finds the entry that has the inode. */
  lemma HitKeeps(s: State, s': State, want: nat, c: nat, e: nat)
    requires Inv(s) && c < |s.claims| && e < |s.inum| && s.ref[e] > 0 && s.inum[e] == want
    requires MayGet(s, c, want)
    requires s' == s.(ref := s.ref[e := s.ref[e] + 1], claims := s.claims[c := Have(e)])
    ensures Inv(s')
  {
    hide Count;
    Recounted(s, s'.claims, s'.ref, c, Have(e));
    assert ClaimOk(s, c);
    forall d | 0 <= d < |s'.claims|
      ensures ClaimOk(s', d)
    {
      assert ClaimOk(s, d) && Apart(s, c, d) && Current(s, e);
    }
    forall a, b | 0 <= a < |s'.claims| && 0 <= b < |s'.claims|
      ensures Apart(s', a, b)
    {
      assert Apart(s, a, b) && ClaimOk(s, a);
    }
    forall f | 0 <= f < |s'.inum|
      ensures LockOk(s', f) && Current(s', f)
    {
      assert LockOk(s, f) && Current(s, f);
    }
  }

  /** iget takes an entry without references. */
  lemma RecycleKeeps(s: State, s': State, want: nat, c: nat, e: nat)
    requires Inv(s) && c < |s.claims| && e < |s.inum| && s.ref[e] == 0
    requires MayGet(s, c, want)
    requires forall d :: 0 <= d < |s.inum| && s.ref[d] > 0 ==> s.inum[d] != want
    requires s' == s.(inum := s.inum[e := want], ref := s.ref[e := 1], valid := s.valid[e := false],
                      claims := s.claims[c := Have(e)])
    ensures Inv(s')
  {
    hide Count;
    Recounted(s, s'.claims, s'.ref, c, Have(e));
    Used(s);
    assert ClaimOk(s, c);
    forall d | 0 <= d < |s'.claims|
      ensures ClaimOk(s', d)
    {
      assert ClaimOk(s, d);
    }
    forall a, b | 0 <= a < |s'.claims| && 0 <= b < |s'.claims|
      ensures Apart(s', a, b)
    {
      assert Apart(s, a, b) && ClaimOk(s, a);
    }
    forall f | 0 <= f < |s'.inum|
      ensures LockOk(s', f) && Current(s', f)
    {
      assert LockOk(s, f) && Current(s, f);
    }
  }

  lemma IgetKeeps(s: State, s': State, want: nat, c: nat)
    requires Inv(s) && MayGet(s, c, want) && Iget(s, s', want, s.claims, c)
    ensures Inv(s')
  {
    hide Count, Inv, Find;
    assert Shape(s) by { InvShape(s); }
    FindFinds(s.inum, s.ref, want, 0, None);
    var found := Find(s.inum, s.ref, want, 0, None);
    if found == None {
      StopKeeps(s);
    } else if s.ref[found.v] > 0 {
      HitKeeps(s, s', want, c, found.v);
    } else {
      RecycleKeeps(s, s', want, c, found.v);
    }
  }

  lemma LookupKeeps(s: State, s': State, inum: nat)
    requires Inv(s) && Next(s, s', Lookup(inum))
    ensures Inv(s')
  {
    hide Count, Inv, Find;
    assert Shape(s) by { InvShape(s); }
    var t := s.(claims := s.claims + [Gone]);
    if s'.halt == NoInodes {
      StopKeeps(s);
    } else {
      GoneAdded(s);
      IgetKeeps(t, s', inum, |s.claims|);
    }
  }

  lemma GoneAdded(s: State)
    requires Inv(s)
    ensures Inv(s.(claims := s.claims + [Gone]))
  {
    hide Count;
    var s' := s.(claims := s.claims + [Gone]);
    CountedMore(s, s.ref, Gone);
    forall d | 0 <= d < |s'.claims|
      ensures ClaimOk(s', d)
    {
      assert d < |s.claims| ==> ClaimOk(s, d);
    }
    forall a, b | 0 <= a < |s'.claims| && 0 <= b < |s'.claims|
      ensures Apart(s', a, b)
    {
      assert a < |s.claims| && b < |s.claims| ==> Apart(s, a, b);
    }
    forall f | 0 <= f < |s'.inum|
      ensures LockOk(s', f) && Current(s', f)
    {
      assert LockOk(s, f) && Current(s, f);
    }
  }

  lemma InvShape(s: State)
    requires Inv(s)
    ensures Shape(s)
  {
  }

  lemma StopKeeps(s: State)
    requires Inv(s)
    ensures Inv(s.(halt := NoInodes))
  {
    hide Count;
    var s' := s.(halt := NoInodes);
    forall d | 0 <= d < |s'.claims|
      ensures ClaimOk(s', d)
    {
      assert ClaimOk(s, d);
    }
    forall a, b | 0 <= a < |s'.claims| && 0 <= b < |s'.claims|
      ensures Apart(s', a, b)
    {
      assert Apart(s, a, b);
    }
    forall f | 0 <= f < |s'.inum|
      ensures LockOk(s', f) && Current(s', f)
    {
      assert LockOk(s, f) && Current(s, f);
    }
  }

  lemma InitialInv(s: State)
    requires Initial(s)
    ensures Inv(s)
  {
  }

  lemma NextKeeps(s: State, s': State, ev: Event)
    requires Inv(s) && Next(s, s', ev)
    ensures Inv(s')
  {
    hide Inv, Count, Find, Iget;
    InvShape(s);
    match ev
    case Alloc(inum, typ) => AllocKeeps(s, s', inum, typ);
    case Lookup(inum) => LookupKeeps(s, s', inum);
    case GetFresh(c) => IgetKeeps(s, s', s.claims[c].inum, c);
    case Dup(c) => DupKeeps(s, s', c);
    case Lock(c) => LockKeeps(s, s', c);
    case Read(c) => ReadKeeps(s, s', c);
    case Update(c, typ, nlink) => UpdateKeeps(s, s', c, typ, nlink);
    case Unlock(c) => UnlockKeeps(s, s', c);
    case Put(c) => PutKeeps(s, s', c);
    case Erase(c) => EraseKeeps(s, s', c);
    case Forget(c) => ForgetKeeps(s, s', c);
    case Drop(c) => DroppedKeeps(s, c, s.claims[c].e);
  }

  // ---- runs

  /** A run: states with the events between them. */
  ghost predicate Run(ss: seq<State>, evs: seq<Event>) {
    && |ss| == |evs| + 1 && Initial(ss[0])
    && (forall k :: 0 <= k < |ss| ==> Shape(ss[k]))
    && (forall k :: 0 <= k < |evs| ==> Next(ss[k], ss[k + 1], evs[k]))
  }

  lemma {:induction false} RunInv(ss: seq<State>, evs: seq<Event>, k: nat)
    requires Run(ss, evs) && k < |ss|
    ensures Inv(ss[k])
    decreases k
  {
    hide Inv, Next;
    if k == 0 {
      InitialInv(ss[0]);
    } else {
      RunInv(ss, evs, k - 1);
      assert Next(ss[k - 1], ss[k - 1 + 1], evs[k - 1]);
      NextKeeps(ss[k - 1], ss[k], evs[k - 1]);
    }
  }

  /** In every run an inode number is in at most one referenced entry, an entry's ref is the
      number of references to it, and whoever holds an inode's lock has a reference of its
      own: no two claims hold it, and all of them are counted. */
  lemma TableStructure(ss: seq<State>, evs: seq<Event>, k: nat, d: nat, e: nat)
    requires Run(ss, evs) && k < |ss| && d < |ss[k].inum| && e < |ss[k].inum|
    ensures ss[k].ref[d] > 0 && ss[k].ref[e] > 0 && ss[k].inum[d] == ss[k].inum[e] ==> d == e
    ensures ss[k].ref[e] == Count(ss[k].claims, e)
    ensures ss[k].lock[e].Some? ==> ss[k].lock[e].v < |ss[k].claims| && HoldsLock(ss[k].claims[ss[k].lock[e].v])
                                    && EntryOf(ss[k].claims[ss[k].lock[e].v]) == Some(e) && ss[k].ref[e] > 0
    ensures forall c :: 0 <= c < |ss[k].claims| && HoldsLock(ss[k].claims[c]) && EntryOf(ss[k].claims[c]) == Some(e) ==>
              ss[k].lock[e] == Some(c)
  {
    hide Count, Run;
    RunInv(ss, evs, k);
    var s := ss[k];
    Used(s);
    assert LockOk(s, e);
    forall c | 0 <= c < |s.claims| && HoldsLock(s.claims[c]) && EntryOf(s.claims[c]) == Some(e)
      ensures s.lock[e] == Some(c)
    {
      assert ClaimOk(s, c);
    }
  }

  /** iput never sleeps on the inode's lock while it holds itable.lock, and ilock never finds
      a free inode on disk: the table stops only for want of an entry. */
  lemma OnlyTableFull(ss: seq<State>, evs: seq<Event>, k: nat)
    requires Run(ss, evs) && k < |ss|
    ensures ss[k].halt == Going || ss[k].halt == NoInodes
  {
    RunInv(ss, evs, k);
  }

  // ---- an inode number that is used again

  /** A step neither moves a live reference to another inode, nor changes which allocation of
      the inode number it belongs to. */
  lemma LiveStep(s: State, s': State, ev: Event, c: nat)
    requires Inv(s) && Inv(s') && Next(s, s', ev)
    requires c < |s.claims| && c < |s'.claims| && !s.claims[c].Fresh? && Live(s'.claims[c])
    ensures Live(s.claims[c]) && s.claims[c].e == s'.claims[c].e && s.claims[c].e < |s.inum| == |s'.inum|
    ensures s'.inum[s.claims[c].e] == s.inum[s.claims[c].e] < |s.disk| == |s'.disk|
    ensures s'.disk[s.inum[s.claims[c].e]].gen == s.disk[s.inum[s.claims[c].e]].gen
  {
    hide Count, Find, Inv;
    Used(s);
    InvClaim(s, c);
    InvShape(s);
  }

  lemma InvClaim(s: State, c: nat)
    requires Inv(s) && c < |s.claims|
    ensures ClaimOk(s, c)
  {
  }

  lemma ClaimsGrow(s: State, s': State, ev: Event)
    requires Inv(s) && Next(s, s', ev)
    ensures |s.claims| <= |s'.claims|
    ensures forall c :: 0 <= c < |s.claims| && !s.claims[c].Fresh? ==> !s'.claims[c].Fresh?
  {
    hide Count, Find, Inv;
    InvShape(s);
  }

  lemma NoLongerFresh(s: State, s': State, c: nat)
    requires Inv(s) && Next(s, s', GetFresh(c)) && s'.halt == Going
    ensures c < |s'.claims| && !s'.claims[c].Fresh?
  {
    hide Count, Find, Inv;
    InvShape(s);
  }

  lemma GetFreshGets(s: State, s': State, c: nat)
    requires Inv(s) && Inv(s') && Next(s, s', GetFresh(c)) && c < |s'.claims| && Live(s'.claims[c])
    ensures s'.claims[c].e < |s'.inum| && s'.inum[s'.claims[c].e] == s.claims[c].inum < |s.disk| && s'.disk == s.disk
  {
    hide Count, Find;
    FindFinds(s.inum, s.ref, s.claims[c].inum, 0, None);
    assert ClaimOk(s, c);
  }

  /** The reference that ialloc gets stays one to the inode that it allocated. */
  lemma {:induction false} AllocatedStays(ss: seq<State>, evs: seq<Event>, i: nat, j: nat, c: nat)
    requires Run(ss, evs) && i < j < |ss| && evs[i] == GetFresh(c)
    requires c < |ss[i].claims| && ss[i].claims[c].Fresh?
    ensures c < |ss[j].claims| && (ss[j].halt == Going ==> !ss[j].claims[c].Fresh?)
    ensures Live(ss[j].claims[c]) ==>
              && ss[j].claims[c].e < |ss[j].inum| && ss[j].inum[ss[j].claims[c].e] == ss[i].claims[c].inum
              && ss[i].claims[c].inum < |ss[i].disk| == |ss[j].disk|
              && ss[j].disk[ss[i].claims[c].inum].gen == ss[i].disk[ss[i].claims[c].inum].gen
    decreases j
  {
    hide Inv, Next, Run, Shape;
    RunLength(ss, evs);
    RunStep(ss, evs, j - 1);
    ClaimsGrow(ss[j - 1], ss[j], evs[j - 1]);
    if i == j - 1 {
      if ss[j].halt == Going {
        NoLongerFresh(ss[i], ss[j], c);
      }
      if Live(ss[j].claims[c]) {
        GetFreshGets(ss[i], ss[j], c);
      }
    } else {
      AllocatedStays(ss, evs, i, j - 1, c);
      StepGoing(ss[j - 1], ss[j], evs[j - 1]);
      if Live(ss[j].claims[c]) {
        LiveStep(ss[j - 1], ss[j], evs[j - 1], c);
      }
    }
  }

  lemma RunLength(ss: seq<State>, evs: seq<Event>)
    requires Run(ss, evs)
    ensures |ss| == |evs| + 1
  {
  }

  lemma StepGoing(s: State, s': State, ev: Event)
    requires Shape(s) && Next(s, s', ev)
    ensures s.halt == Going
  {
  }

  lemma RunStep(ss: seq<State>, evs: seq<Event>, k: nat)
    requires Run(ss, evs) && k < |evs|
    ensures |ss| == |evs| + 1 && Inv(ss[k]) && Inv(ss[k + 1]) && Shape(ss[k]) && Next(ss[k], ss[k + 1], evs[k])
  {
    hide Inv, Next;
    RunInv(ss, evs, k);
    RunInv(ss, evs, k + 1);
  }

  /** ialloc gets the inode it has allocated, also when iput is still freeing the number's
      previous inode in the entry that iget returns: a copy that the allocator can see under
      ip->lock is the inode on disk, with the generation of this allocation. */
  lemma ReuseRereads(ss: seq<State>, evs: seq<Event>, i: nat, j: nat, c: nat, e: nat)
    requires Run(ss, evs) && i < j < |ss| && evs[i] == GetFresh(c)
    requires c < |ss[i].claims| && ss[i].claims[c].Fresh? && ss[i].claims[c].inum < |ss[i].disk|
    requires c < |ss[j].claims| && ss[j].claims[c] == Locked(e) && e < |ss[j].inum| && ss[j].valid[e]
    ensures ss[j].inum[e] == ss[i].claims[c].inum < |ss[j].disk|
    ensures ss[j].mem[e] == ss[j].disk[ss[j].inum[e]] && ss[j].mem[e].typ != 0
    ensures ss[j].mem[e].gen == ss[i].disk[ss[i].claims[c].inum].gen
  {
    hide Count, Next, Run;
    AllocatedStays(ss, evs, i, j, c);
    RunInv(ss, evs, j);
    assert ClaimOk(ss[j], c) && Current(ss[j], e);
    Used(ss[j]);
  }

  /** Under ip->lock, everybody sees the inode that is on disk. */
  lemma LockedIsCurrent(ss: seq<State>, evs: seq<Event>, k: nat, c: nat, e: nat)
    requires Run(ss, evs) && k < |ss| && c < |ss[k].claims| && ss[k].claims[c] == Locked(e)
    ensures e < |ss[k].inum| && ss[k].inum[e] < |ss[k].disk|
    ensures ss[k].valid[e] ==> ss[k].mem[e] == ss[k].disk[ss[k].inum[e]]
    ensures ss[k].disk[ss[k].inum[e]].typ != 0
  {
    hide Count, Next, Run;
    RunInv(ss, evs, k);
    assert ClaimOk(ss[k], c) && Current(ss[k], e);
    Used(ss[k]);
  }

  // ---- a run in which the number is used again too early

  function Reuse(k: nat): (s: State)
    requires k <= 9
    ensures Shape(s)
  {
    var none := Dinode(0, 0, 0);
    var was := Dinode(1, 0, 1);
    var free := Dinode(0, 0, 1);
    var anew := Dinode(2, 0, 2);
    match k
    case 0 => State([0], [0], [false], [free], [None], [none, none], [], Going)
    case 1 => State([0], [0], [false], [free], [None], [none, was], [Fresh(1)], Going)
    case 2 => State([1], [1], [false], [free], [None], [none, was], [Have(0)], Going)
    case 3 => State([1], [1], [false], [free], [Some(0)], [none, was], [Locked(0)], Going)
    case 4 => State([1], [1], [true], [was], [Some(0)], [none, was], [Locked(0)], Going)
    case 5 => State([1], [1], [true], [was], [None], [none, was], [Have(0)], Going)
    case 6 => State([1], [1], [true], [was], [Some(0)], [none, was], [Freeing(0)], Going)
    case 7 => State([1], [1], [true], [free], [Some(0)], [none, free], [Erased(0)], Going)
    case 8 => State([1], [1], [true], [free], [Some(0)], [none, anew], [Erased(0), Fresh(1)], Going)
    case 9 => State([1], [2], [true], [free], [Some(0)], [none, anew], [Erased(0), Have(0)], Going)
  }

  function ReuseEvent(k: nat): Event {
    match k
    case 0 => Alloc(1, 1)
    case 1 => GetFresh(0)
    case 2 => Lock(0)
    case 3 => Read(0)
    case 4 => Unlock(0)
    case 5 => Put(0)
    case 6 => Erase(0)
    case 7 => Alloc(1, 2)
    case _ => GetFresh(1)
  }

  lemma ReuseEarly(k: nat)
    requires k < 5
    ensures Next(Reuse(k), Reuse(k + 1), ReuseEvent(k))
  {
  }

  lemma ReuseLate(k: nat)
    requires 5 <= k < 9
    ensures Next(Reuse(k), Reuse(k + 1), ReuseEvent(k))
  {
  }

  /** iget does hand out an entry whose previous inode iput is still freeing: the copy is
      marked valid, and it is not the inode on disk. */
  lemma ReuseHappens()
    ensures exists ss, evs :: Run(ss, evs) && |ss| == 10 && ss[9] == Reuse(9)
    ensures Reuse(9).claims[1] == Have(0) && Reuse(9).valid[0] && Reuse(9).inum[0] == 1
    ensures Reuse(9).mem[0] != Reuse(9).disk[1]
  {
    hide Next;
    var ss := seq(10, k requires 0 <= k < 10 => Reuse(k));
    var evs := seq(9, k requires 0 <= k < 9 => ReuseEvent(k));
    assert Initial(Reuse(0));
    forall k: nat | k < 9
      ensures Next(ss[k], ss[k + 1], evs[k])
    {
      if k < 5 {
        ReuseEarly(k);
      } else {
        ReuseLate(k);
      }
    }
    assert Run(ss, evs);
  }

  // ---- the loops of iget and ialloc

  /** itable.inode[]: the fields that iget, idup and iput use under itable.lock. */
  class Table {
    const inum: array<nat>
    const ref: array<nat>
    const valid: array<bool>

    ghost predicate Valid()
      reads this
    {
      inum.Length == ref.Length == valid.Length && inum != ref
    }

    /** iinit: NINODE entries without references. */
    constructor (n: nat)
      ensures Valid() && inum.Length == n && forall e :: 0 <= e < n ==> ref[e] == 0
    {
      inum := new nat[n](_ => 0);
      ref := new nat[n](_ => 0);
      valid := new bool[n](_ => false);
    }

    /** iget: the step that `Iget` allows, or nothing when the table is full. */
    method Iget(want: nat) returns (r: Opt<nat>)
      requires Valid()
      modifies inum, ref, valid
      ensures Valid() && r == Find(old(inum[..]), old(ref[..]), want, 0, None)
      ensures r.None? ==> inum[..] == old(inum[..]) && ref[..] == old(ref[..]) && valid[..] == old(valid[..])
      ensures r.Some? ==> r.v < inum.Length && inum[r.v] == want
      ensures r.Some? && old(ref[..])[r.v] > 0 ==>
                ref[..] == old(ref[..])[r.v := old(ref[..])[r.v] + 1] && inum[..] == old(inum[..])
                  && valid[..] == old(valid[..])
      ensures r.Some? && old(ref[..])[r.v] == 0 ==>
                ref[..] == old(ref[..])[r.v := 1] && inum[..] == old(inum[..])[r.v := want]
                  && valid[..] == old(valid[..])[r.v := false]
    {
      FindFinds(inum[..], ref[..], want, 0, None);
      var empty: Opt<nat> := None;
      var i: nat := 0;
      while i < inum.Length
        invariant 0 <= i <= inum.Length
        invariant inum[..] == old(inum[..]) && ref[..] == old(ref[..]) && valid[..] == old(valid[..])
        invariant empty.Some? ==> empty.v < i && ref[empty.v] == 0
        invariant Find(inum[..], ref[..], want, i, empty) == Find(inum[..], ref[..], want, 0, None)
      {
        if ref[i] > 0 && inum[i] == want {
          ref[i] := ref[i] + 1;
          return Some(i);
        }
        if empty.None? && ref[i] == 0 {
          empty := Some(i);
        }
        i := i + 1;
      }
      if empty.Some? {
        inum[empty.v] := want;
        ref[empty.v] := 1;
        valid[empty.v] := false;
      }
      return empty;
    }
  }

  /** ialloc's scan over the inodes on disk: the first free one, from 1. */
  method FindFree(disk: seq<Dinode>) returns (r: Opt<nat>)
    ensures r.Some? ==> 1 <= r.v < |disk| && disk[r.v].typ == 0 && forall i :: 1 <= i < r.v ==> disk[i].typ != 0
    ensures r.None? ==> forall i :: 1 <= i < |disk| ==> disk[i].typ != 0
  {
    var i := 1;
    while i < |disk|
      invariant 1 <= i
      invariant forall j :: 1 <= j < i && j < |disk| ==> disk[j].typ != 0
    {
      if disk[i].typ == 0 {
        return Some(i);
      }
      i := i + 1;
    }
    return None;
  }
}
