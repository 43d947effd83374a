/** Inodes that nobody can free any more (kernel/fs.c, iput): the comment on iput says that
    the last reference to an inode without links frees it, and when that fails. */
module ItableOrphans {
  import opened Options
  import opened Itable

  /** Allocated on disk, without links, and nobody has a reference to it. */
  ghost predicate Orphan(s: State, n: nat)
    requires Shape(s)
  {
    && n < |s.disk| && s.disk[n].typ != 0 && s.disk[n].nlink == 0
    && (forall e :: 0 <= e < |s.inum| && s.ref[e] > 0 ==> s.inum[e] != n)
    && (forall c :: 0 <= c < |s.claims| ==> s.claims[c] != Fresh(n))
  }

  /** The step takes the last reference to an allocated inode without links: in iput after
      it has freed the number's previous inode, or in iput of an inode never read. */
  ghost predicate LosesLast(s: State, ev: Event, n: nat)
    requires Shape(s)
  {
    && n < |s.disk| && s.disk[n].typ != 0 && s.disk[n].nlink == 0
    && (forall c :: 0 <= c < |s.claims| ==> s.claims[c] != Fresh(n))
    && (ev.Drop? || ev.Put?) && Refers(s, ev.c) && s.inum[s.claims[ev.c].e] == n && s.ref[s.claims[ev.c].e] == 1
    && (ev.Put? ==> !s.valid[s.claims[ev.c].e])
  }

  lemma DroppedOrphan(s: State, c: nat, e: nat, n: nat)
    requires Inv(s) && c < |s.claims| && e < |s.inum| && s.ref[e] > 0 && EntryOf(s.claims[c]) == Some(e)
    requires !Orphan(s, n)
    ensures Orphan(Dropped(s, c, e), n) <==>
              && n < |s.disk| && s.disk[n].typ != 0 && s.disk[n].nlink == 0 && s.inum[e] == n && s.ref[e] == 1
              && forall d :: 0 <= d < |s.claims| ==> s.claims[d] != Fresh(n)
  {
    hide Count, Counted;
    var s' := Dropped(s, c, e);
    if Orphan(s', n) {
      forall d | 0 <= d < |s.claims|
        ensures s.claims[d] != Fresh(n)
      {
        assert s'.claims[d] != Fresh(n);
      }
      assert forall f :: 0 <= f < |s.inum| && f != e && s.ref[f] > 0 ==> s.inum[f] != n by {
        assert forall f :: 0 <= f < |s.inum| && f != e ==> s'.ref[f] == s.ref[f];
      }
    }
  }

  /** iput at the last reference of an inode without links. */
  lemma PutOrphan(s: State, s': State, c: nat, n: nat)
    requires Inv(s) && Next(s, s', Put(c)) && !Orphan(s, n)
    ensures Orphan(s', n) <==> LosesLast(s, Put(c), n)
  {
    hide Count, Counted;
    var e := s.claims[c].e;
    if s.ref[e] == 1 && s.valid[e] && s.mem[e].nlink == 0 {
      PutNeverWaits(s, c, e);
      StillNamed(s, s', n);
    } else {
      DroppedOrphan(s, c, e, n);
      if s.ref[e] == 1 && s.valid[e] {
        Alone(s, c, e);
        assert Current(s, e) && LockOk(s, e);
      }
    }
  }

  /** A step that keeps references and the disk makes no orphan. */
  lemma StillNamed(s: State, s': State, n: nat)
    requires Shape(s) && Shape(s') && s'.ref == s.ref && s'.inum == s.inum && s'.disk == s.disk
    requires |s'.claims| == |s.claims|
    requires forall c :: 0 <= c < |s.claims| ==> (s'.claims[c] == Fresh(n) <==> s.claims[c] == Fresh(n))
    ensures Orphan(s', n) <==> Orphan(s, n)
  {
  }

  /** References are only added, and what was named stays named. */
  lemma Named(s: State, s': State, n: nat)
    requires Shape(s) && Shape(s') && |s'.inum| == |s.inum| && s'.disk == s.disk && |s'.claims| >= |s.claims|
    requires forall e :: 0 <= e < |s.inum| && s.ref[e] > 0 ==> s'.ref[e] > 0 && s'.inum[e] == s.inum[e]
    requires forall c :: 0 <= c < |s.claims| && s.claims[c] == Fresh(n) ==>
               s'.claims[c] == Fresh(n) || exists e :: 0 <= e < |s'.inum| && s'.ref[e] > 0 && s'.inum[e] == n
    requires !Orphan(s, n)
    ensures !Orphan(s', n)
  {
    if n < |s.disk| && s.disk[n].typ != 0 && s.disk[n].nlink == 0 {
      if e :| 0 <= e < |s.inum| && s.ref[e] > 0 && s.inum[e] == n {
        assert s'.ref[e] > 0 && s'.inum[e] == n;
      } else {
        var c :| 0 <= c < |s.claims| && s.claims[c] == Fresh(n);
        assert s'.claims[c] == Fresh(n) || exists e :: 0 <= e < |s'.inum| && s'.ref[e] > 0 && s'.inum[e] == n;
      }
    }
  }

  lemma GetOrphan(s: State, s': State, ev: Event, n: nat)
    requires Inv(s) && Next(s, s', ev) && (ev.Lookup? || ev.GetFresh?) && !Orphan(s, n)
    ensures !Orphan(s', n)
  {
    hide Count, Counted, Find;
    var want := if ev.Lookup? then ev.inum else s.claims[ev.c].inum;
    FindFinds(s.inum, s.ref, want, 0, None);
    if s'.halt == Going {
      var e := Find(s.inum, s.ref, want, 0, None).v;
      assert s'.ref[e] > 0 && s'.inum[e] == want;
      Named(s, s', n);
    } else {
      StillNamed(s, s', n);
    }
  }

  /** Another inode has changed. */
  lemma Unnamed(s: State, s': State, n: nat)
    requires Shape(s) && Shape(s') && |s'.disk| == |s.disk| && s'.ref == s.ref && s'.inum == s.inum
    requires |s'.claims| >= |s.claims|
    requires n < |s.disk| ==> s'.disk[n] == s.disk[n]
    requires forall c :: 0 <= c < |s.claims| && s.claims[c] == Fresh(n) ==> s'.claims[c] == Fresh(n)
    ensures Orphan(s', n) ==> Orphan(s, n)
  {
  }

  /** Someone's entry names the inode that changes. */
  lemma OwnOrphan(s: State, s': State, ev: Event, n: nat)
    requires Inv(s) && Next(s, s', ev) && (ev.Update? || ev.Erase?) && !Orphan(s, n)
    ensures !Orphan(s', n)
  {
    hide Count, Counted;
    Used(s);
    var e := s.claims[ev.c].e;
    assert s'.ref[e] > 0 && s'.inum[e] == s.inum[e];
    if s.inum[e] != n {
      Unnamed(s, s', n);
    }
  }

  /** An inode becomes an orphan exactly in these two ways. */
  lemma OrphanStep(s: State, s': State, ev: Event, n: nat)
    requires Inv(s) && Shape(s') && Next(s, s', ev) && !Orphan(s, n)
    ensures Orphan(s', n) <==> LosesLast(s, ev, n)
  {
    hide Inv, Orphan, Iget;
    match ev
    case Alloc(inum, typ) => AllocOrphan(s, s', ev, n);
    case Lookup(_) => GetOrphan(s, s', ev, n);
    case GetFresh(_) => GetOrphan(s, s', ev, n);
    case Dup(_) => PlainOrphan(s, s', ev, n);
    case Lock(_) => PlainOrphan(s, s', ev, n);
    case Read(_) => PlainOrphan(s, s', ev, n);
    case Update(_, _, _) => OwnOrphan(s, s', ev, n);
    case Unlock(_) => PlainOrphan(s, s', ev, n);
    case Put(c) => PutOrphan(s, s', c, n);
    case Erase(_) => OwnOrphan(s, s', ev, n);
    case Forget(_) => PlainOrphan(s, s', ev, n);
    case Drop(c) => DroppedOrphan(s, c, s.claims[c].e, n);
  }

  lemma AllocOrphan(s: State, s': State, ev: Event, n: nat)
    requires Inv(s) && Next(s, s', ev) && ev.Alloc? && !Orphan(s, n)
    ensures !Orphan(s', n)
  {
    hide Count, Counted;
    assert s'.claims[|s.claims|] == Fresh(ev.inum);
    if ev.inum != n {
      Unnamed(s, s', n);
    }
  }

  lemma PlainOrphan(s: State, s': State, ev: Event, n: nat)
    requires Inv(s) && Next(s, s', ev) && (ev.Dup? || ev.Lock? || ev.Read? || ev.Unlock? || ev.Forget?) && !Orphan(s, n)
    ensures !Orphan(s', n)
  {
    hide Count, Counted;
    Named(s, s', n);
  }

  // ---- over whole runs

  lemma LosingNamed(s: State, ev: Event, n: nat)
    requires Shape(s) && LosesLast(s, ev, n)
    ensures !Orphan(s, n)
  {
    assert s.ref[s.claims[ev.c].e] > 0 && s.inum[s.claims[ev.c].e] == n;
  }

  /** Up to the first such step there is no orphan. */
  lemma {:induction false} NoOrphanYet(ss: seq<State>, evs: seq<Event>, k: nat, n: nat)
    requires Run(ss, evs) && k < |ss| && !Orphan(ss[0], n)
    requires forall j :: 0 <= j < k ==> !LosesLast(ss[j], evs[j], n)
    ensures !Orphan(ss[k], n)
    decreases k
  {
    hide Orphan, LosesLast, Next;
    if k > 0 {
      var i := k - 1;
      RunInv(ss, evs, i);
      NoOrphanYet(ss, evs, i, n);
      OrphanStep(ss[i], ss[i + 1], evs[i], n);
    }
  }

  /** A run has a state with the orphan `n` exactly if one of its steps loses the last
      reference to `n`. */
  lemma OrphanRun(ss: seq<State>, evs: seq<Event>, n: nat)
    requires Run(ss, evs) && !Orphan(ss[0], n)
    ensures (exists k :: 0 <= k < |ss| && Orphan(ss[k], n)) <==>
      (exists j :: 0 <= j < |evs| && LosesLast(ss[j], evs[j], n))
  {
    hide Orphan, LosesLast, Next;
    if j :| 0 <= j < |evs| && LosesLast(ss[j], evs[j], n) {
      RunInv(ss, evs, j);
      LosingNamed(ss[j], evs[j], n);
      OrphanStep(ss[j], ss[j + 1], evs[j], n);
    } else if k :| 0 <= k < |ss| && Orphan(ss[k], n) {
      NoOrphanYet(ss, evs, k, n);
    }
  }

  // ---- in terms of the calls

  /** An iput has freed inode `n` and has not yet given up its reference. */
  ghost predicate Lingers(s: State, c: nat, n: nat)
    requires Shape(s)
  {
    Refers(s, c) && (s.claims[c].Erased? || s.claims[c].Dropping?) && s.inum[s.claims[c].e] == n
  }

  /** ialloc answers a number while an iput that has freed it lingers. */
  ghost predicate ReusedEarly(s: State, ev: Event, n: nat)
    requires Shape(s)
  {
    ev.Alloc? && ev.inum == n && exists c :: Lingers(s, c, n)
  }

  /** iput of an inode that was never read. */
  ghost predicate PutUnread(s: State, ev: Event, n: nat)
    requires Shape(s)
  {
    ev.Put? && Refers(s, ev.c) && s.inum[s.claims[ev.c].e] == n && !s.valid[s.claims[ev.c].e]
  }

  ghost predicate StaysFree(s: State, n: nat)
    requires Shape(s)
  {
    forall c :: Lingers(s, c, n) ==> n < |s.disk| && s.disk[n].typ == 0
  }

  lemma LingeredBefore(s: State, s': State, ev: Event, c: nat, n: nat)
    requires Inv(s) && Shape(s') && Next(s, s', ev) && Lingers(s', c, n) && !(ev.Erase? && ev.c == c)
    ensures Lingers(s, c, n)
  {
    hide Count, Counted, Find;
    Used(s);
  }

  lemma FreeBefore(s: State, s': State, ev: Event, n: nat)
    requires Inv(s) && Shape(s') && Next(s, s', ev) && n < |s.disk| && s.disk[n].typ == 0
    requires !(ev.Alloc? && ev.inum == n)
    ensures n < |s'.disk| && s'.disk[n].typ == 0
  {
    hide Count, Counted, Find;
    if ev.Update? {
      assert ClaimOk(s, ev.c);
    }
  }

  /** While an iput lingers the number stays free, unless it is used again early. */
  lemma FreeStep(s: State, s': State, ev: Event, n: nat)
    requires Inv(s) && Shape(s') && Next(s, s', ev) && StaysFree(s, n) && !ReusedEarly(s, ev, n)
    ensures StaysFree(s', n)
  {
    hide Inv, Lingers, Iget;
    forall c | Lingers(s', c, n)
      ensures n < |s'.disk| && s'.disk[n].typ == 0
    {
      if ev.Erase? && ev.c == c {
        JustErased(s, s', c, n);
      } else {
        LingeredBefore(s, s', ev, c, n);
        FreeBefore(s, s', ev, n);
      }
    }
  }

  lemma JustErased(s: State, s': State, c: nat, n: nat)
    requires Inv(s) && Shape(s') && Next(s, s', Erase(c)) && Lingers(s', c, n)
    ensures n < |s'.disk| && s'.disk[n].typ == 0
  {
  }

  lemma LosesByCall(s: State, s': State, ev: Event, n: nat)
    requires Shape(s) && Next(s, s', ev) && LosesLast(s, ev, n) && StaysFree(s, n)
    ensures PutUnread(s, ev, n)
  {
    assert ev.Drop? ==> Lingers(s, ev.c, n);
  }

  /** In a run in which no number is used again while an iput that has freed it lingers, and
      no inode is put unread, there is no orphan. */
  lemma {:induction false} NoOrphanByCalls(ss: seq<State>, evs: seq<Event>, k: nat, n: nat)
    requires Run(ss, evs) && k < |ss| && !Orphan(ss[0], n)
    requires forall j :: 0 <= j < k ==> !ReusedEarly(ss[j], evs[j], n)
    requires forall j :: 0 <= j < k ==> !PutUnread(ss[j], evs[j], n)
    ensures !Orphan(ss[k], n) && StaysFree(ss[k], n)
    decreases k
  {
    hide Orphan, LosesLast, Next, ReusedEarly, PutUnread;
    if k > 0 {
      var i := k - 1;
      RunInv(ss, evs, i);
      NoOrphanByCalls(ss, evs, i, n);
      OrphanStep(ss[i], ss[i + 1], evs[i], n);
      FreeStep(ss[i], ss[i + 1], evs[i], n);
      if LosesLast(ss[i], evs[i], n) {
        LosesByCall(ss[i], ss[i + 1], evs[i], n);
      }
    }
  }

  // ---- a run that leaves one behind

  /** From the state in which iget has handed out an entry that iput is still freeing. */
  function Late(k: nat): (s: State)
    requires k <= 6
    ensures Shape(s)
  {
    var none := Dinode(0, 0, 0);
    var anew := Dinode(2, 0, 2);
    var free := Dinode(0, 0, 1);
    match k
    case 0 => Reuse(9)
    case 1 => State([1], [2], [false], [free], [None], [none, anew], [Dropping(0), Have(0)], Going)
    case 2 => State([1], [2], [false], [free], [Some(1)], [none, anew], [Dropping(0), Locked(0)], Going)
    case 3 => State([1], [2], [true], [anew], [Some(1)], [none, anew], [Dropping(0), Locked(0)], Going)
    case 4 => State([1], [2], [true], [anew], [None], [none, anew], [Dropping(0), Have(0)], Going)
    case 5 => State([1], [1], [true], [anew], [None], [none, anew], [Dropping(0), Gone], Going)
    case 6 => State([1], [0], [true], [anew], [None], [none, anew], [Gone, Gone], Going)
  }

  function LateEvent(k: nat): Event {
    match k
    case 0 => Forget(0)
    case 1 => Lock(1)
    case 2 => Read(1)
    case 3 => Unlock(1)
    case 4 => Put(1)
    case _ => Drop(0)
  }

  lemma LateStep(k: nat)
    requires k < 6
    ensures Next(Late(k), Late(k + 1), LateEvent(k))
  {
  }

  /** One process frees an inode and is held up before its ref--.  Another allocates the
      number, uses the inode and drops it without links: it is not the last one to have a
      reference, so it does not free the inode, and the first process does not either. */
  lemma OrphanHappens() returns (ss: seq<State>, evs: seq<Event>)
    ensures Run(ss, evs) && |ss| == 16 && Shape(ss[15]) && Orphan(ss[15], 1)
  {
    hide Next, Reuse, Late;
    ss := seq(16, k requires 0 <= k < 16 => if k <= 9 then Reuse(k) else Late(k - 9));
    evs := seq(15, k requires 0 <= k < 15 => if k < 9 then ReuseEvent(k) else LateEvent(k - 9));
    assert Initial(ss[0]) by { ReuseStarts(); }
    assert Late(0) == Reuse(9) by { LateStarts(); }
    forall k: nat | k < 15
      ensures Shape(ss[k]) && Next(ss[k], ss[k + 1], evs[k])
    {
      if k < 5 {
        ReuseEarly(k);
      } else if k < 9 {
        ReuseLate(k);
      } else {
        LateStep(k - 9);
      }
    }
    LateOrphan();
    assert Run(ss, evs) && Orphan(ss[15], 1);
  }

  lemma ReuseStarts()
    ensures Initial(Reuse(0))
  {
  }

  lemma LateStarts()
    ensures Late(0) == Reuse(9)
  {
  }

  lemma LateOrphan()
    ensures Orphan(Late(6), 1)
  {
  }
}
