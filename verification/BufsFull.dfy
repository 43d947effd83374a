/** When bget finds no buffer (kernel/bio.c): the condition, and a run in which the log's own
    pins and one reader bring it about. */
module BufsFull {
  import opened Options
  import opened LogFormat
  import opened Bufs

  lemma {:induction false} NoVictim(order: seq<nat>, refcnt: seq<nat>, k: nat)
    requires k <= |order| && forall i :: 0 <= i < |order| ==> order[i] < |refcnt| && refcnt[order[i]] > 0
    ensures Victim(order, refcnt, k) == None
  {
    if k > 0 {
      NoVictim(order, refcnt, k - 1);
    }
  }

  /** bget panics exactly when the block is in no buffer and every buffer is referenced. */
  lemma NoBuffers(ss: seq<State>, es: seq<Event>, i: nat)
    requires IsRun(ss, es) && i < |es| && es[i].Get?
    ensures ss[i + 1].panicked <==>
              && (forall b :: 0 <= b < |ss[i].id| ==> ss[i].id[b] != es[i].want)
              && (forall b :: 0 <= b < |ss[i].refcnt| ==> ss[i].refcnt[b] > 0)
  {
    hide Inv, Victim, InOrder;
    RunInv(ss, es, i);
    assert Next(ss[i], ss[i + 1], es[i]);
    GetPanics(ss[i], ss[i + 1], es[i].want);
  }

  lemma GetPanics(s: State, s': State, want: Id)
    requires Inv(s) && Shape(s) && !s.panicked && Got(s, s', want)
    ensures s'.panicked <==>
              && (forall b :: 0 <= b < |s.id| ==> s.id[b] != want)
              && (forall b :: 0 <= b < |s.refcnt| ==> s.refcnt[b] > 0)
  {
    hide Victim, InOrder, Count, Agree, Counted;
    if forall b :: 0 <= b < |s.refcnt| ==> s.refcnt[b] > 0 {
      NoVictim(s.order, s.refcnt, |s.order|);
    } else {
      var a :| 0 <= a < |s.refcnt| && s.refcnt[a] == 0;
      assert a in s.order;
      VictimIsOldest(s.order, s.refcnt, s.stamp, s.clock, |s.order|, a);
    }
  }

  // ---- a run

  function Blank(): Block {
    seq(BSIZE, _ => 0)
  }

  function Flat(n: nat): map<Id, Block> {
    map j: nat | j <= n :: Id(1, j) := Blank()
  }

  /** Of n buffers the last k are pinned: one log_write after another, on new blocks. */
  function Pinned(n: nat, k: nat): (s: State)
    requires k <= n
    ensures Shape(s) && |s.id| == n
  {
    State(seq(n, b requires 0 <= b < n => if b >= n - k then Id(1, n - 1 - b) else Id(0, 0)),
          seq(n, b => b >= n - k), seq(n, b => if b >= n - k then 1 else 0), seq(n, _ => None), seq(n, _ => Blank()),
          seq(n, b => b), seq(k, _ => Finished), Flat(n), false,
          seq(n, b => if b >= n - k then 1 else 0), seq(n, b requires 0 <= b < n => n - 1 - b), n, Flat(n))
  }

  /** The states of one bread, log_write and brelse of block k. */
  function Turn(n: nat, k: nat, step: nat): (s: State)
    requires k < n && step <= 6
    ensures Shape(s)
  {
    var s0 := Pinned(n, k);
    var b := n - 1 - k;
    var s1 := s0.(id := s0.id[b := Id(1, k)], valid := s0.valid[b := false], refcnt := s0.refcnt[b := 1],
                  claims := s0.claims + [Waiting(b)]);
    var s2 := s1.(lock := s1.lock[b := Some(k)], claims := s1.claims[k := Holding(b)]);
    var s3 := s2.(data := s2.data[b := Blank()], valid := s2.valid[b := true]);
    var s4 := s3.(refcnt := s3.refcnt[b := 2], pins := s3.pins[b := 1]);
    var s5 := s4.(lock := s4.lock[b := None], claims := s4.claims[k := Releasing(b)]);
    match step
    case 0 => s0
    case 1 => s1
    case 2 => s2
    case 3 => s3
    case 4 => s4
    case 5 => s5
    case 6 => s5.(refcnt := s5.refcnt[b := 1], claims := s5.claims[k := Finished])
  }

  function TurnEvent(k: nat, step: nat): Event {
    match step
    case 0 => Get(Id(1, k))
    case 1 => Lock(k)
    case 2 => Read(k)
    case 3 => Pin(k)
    case 4 => Unlock(k)
    case _ => Drop(k)
  }

  lemma {:induction false} LastFree(n: nat, k: nat, i: nat)
    requires n - k <= i <= n && k < n
    ensures Victim(Pinned(n, k).order, Pinned(n, k).refcnt, i) == Some(n - 1 - k)
    decreases i
  {
    if i > n - k {
      LastFree(n, k, i - 1);
    }
  }

  lemma TurnGets(n: nat, k: nat)
    requires k < n
    ensures Next(Turn(n, k, 0), Turn(n, k, 1), TurnEvent(k, 0))
  {
    hide Victim;
    LastFree(n, k, n);
  }

  lemma TurnSteps(n: nat, k: nat, step: nat)
    requires k < n && 1 <= step < 6
    ensures Next(Turn(n, k, step), Turn(n, k, step + 1), TurnEvent(k, step))
  {
    hide Victim, Remove;
  }

  lemma TurnEnds(n: nat, k: nat)
    requires k < n
    ensures Turn(n, k, 6) == Pinned(n, k + 1)
  {
    var s, t := Turn(n, k, 6), Pinned(n, k + 1);
    assert s.id == t.id && s.valid == t.valid && s.refcnt == t.refcnt && s.lock == t.lock;
    assert s.data == t.data && s.claims == t.claims && s.pins == t.pins;
  }

  lemma FirstInitial(n: nat)
    ensures Initial(Pinned(n, 0))
  {
    var s := Pinned(n, 0);
    forall b | 0 <= b < n
      ensures b in s.order
    {
      assert s.order[b] == b;
    }
  }

  /** A run extended by one step. */
  lemma Extend(ss: seq<State>, es: seq<Event>, s: State, e: Event)
    requires IsRun(ss, es) && Shape(ss[|es|]) && Next(ss[|es|], s, e)
    ensures IsRun(ss + [s], es + [e])
  {
    hide Initial, Next;
    var ss', es' := ss + [s], es + [e];
    forall i | 0 <= i < |es'|
      ensures Shape(ss'[i]) && Next(ss'[i], ss'[i + 1], es'[i])
    {
      assert i < |es| ==> Next(ss[i], ss[i + 1], es[i]);
    }
  }

  lemma {:induction false} TurnRun(n: nat, k: nat, step: nat, ss: seq<State>, es: seq<Event>)
    returns (ss': seq<State>, es': seq<Event>)
    requires k < n && step <= 6 && IsRun(ss, es) && ss[|es|] == Turn(n, k, step)
    ensures IsRun(ss', es') && ss'[|es'|] == Turn(n, k, 6)
    decreases 6 - step
  {
    hide IsRun, Next, Turn;
    RunLength(ss, es);
    if step == 6 {
      ss', es' := ss, es;
    } else {
      if step == 0 {
        TurnGets(n, k);
      } else {
        TurnSteps(n, k, step);
      }
      Extend(ss, es, Turn(n, k, step + 1), TurnEvent(k, step));
      ss', es' := TurnRun(n, k, step + 1, ss + [Turn(n, k, step + 1)], es + [TurnEvent(k, step)]);
    }
  }

  lemma RunLength(ss: seq<State>, es: seq<Event>)
    requires IsRun(ss, es)
    ensures |ss| == |es| + 1
  {
  }

  lemma {:induction false} PinRun(n: nat, k: nat) returns (ss: seq<State>, es: seq<Event>)
    requires k <= n
    ensures IsRun(ss, es) && ss[|es|] == Pinned(n, k)
    decreases k
  {
    hide Next, Initial;
    if k == 0 {
      FirstInitial(n);
      ss, es := [Pinned(n, 0)], [];
    } else {
      ss, es := PinRun(n, k - 1);
      ss, es := TurnRun(n, k - 1, 0, ss, es);
      TurnEnds(n, k - 1);
    }
  }

  /** With n - 1 buffers pinned by the log and the last one in a reader's hands, the next
      bread of another block panics: with NBUF buffers, LOGSIZE - 1 logged blocks and one
      reader, that is write_log's bread of a log block. */
  lemma LogAndReader(n: nat) returns (ss: seq<State>, es: seq<Event>)
    requires n >= 1
    ensures IsRun(ss, es) && |es| > 0 && es[|es| - 1] == Get(Id(1, n)) && ss[|es|].panicked
    ensures var s := ss[|es| - 1];
            |s.id| == n && |s.pins| == n && |s.claims| == n && s.claims[n - 1] == Holding(0)
            && forall b :: 1 <= b < n ==> s.pins[b] == 1
  {
    hide Next, IsRun;
    ss, es := PinRun(n, n - 1);
    RunLength(ss, es);
    TurnGets(n, n - 1);
    Extend(ss, es, Turn(n, n - 1, 1), TurnEvent(n - 1, 0));
    ss, es := ss + [Turn(n, n - 1, 1)], es + [TurnEvent(n - 1, 0)];
    TurnSteps(n, n - 1, 1);
    Extend(ss, es, Turn(n, n - 1, 2), TurnEvent(n - 1, 1));
    ss, es := ss + [Turn(n, n - 1, 2)], es + [TurnEvent(n - 1, 1)];
    var s := Turn(n, n - 1, 2);
    NoneLeft(n);
    Extend(ss, es, s.(panicked := true), Get(Id(1, n)));
    ss, es := ss + [s.(panicked := true)], es + [Get(Id(1, n))];
  }

  lemma NoneLeft(n: nat)
    requires n >= 1
    ensures var s := Turn(n, n - 1, 2); Next(s, s.(panicked := true), Get(Id(1, n)))
  {
    hide Victim;
    var s := Turn(n, n - 1, 2);
    NoVictim(s.order, s.refcnt, |s.order|);
  }
}
