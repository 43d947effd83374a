/** pipewrite, piperead and pipeclose on a pipe's memory, as loops: what one call does while
    it holds pi->lock. */
module PipeBuffer {
  import opened Pipe

  class Buffer {
    const data: array<int>
    var nread: nat
    var nwrite: nat
    var readopen: bool
    var writeopen: bool

    ghost predicate Valid()
      reads this
    {
      data.Length == PIPESIZE && nread < WRAP && nwrite < WRAP
    }

    /** The buffer is that of a state. */
    ghost predicate Shows(s: State)
      reads this, data
    {
      && Valid() && Shape(s) && s.data == data[..] && s.nread == nread && s.nwrite == nwrite
      && s.readopen == readopen && s.writeopen == writeopen
    }

    /** pipealloc. */
    constructor ()
      ensures Valid() && nread == 0 && nwrite == 0 && readopen && writeopen
    {
      data := new int[PIPESIZE](_ => 0);
      nread := 0;
      nwrite := 0;
      readopen := true;
      writeopen := true;
    }

    /** pipewrite from byte `from` on; `src` is the caller's memory as far as it can be read,
        and the caller is killed after `life` bytes. */
    method Write(src: seq<int>, from: nat, n: int, life: nat, ghost s: State) returns (i: nat, ending: Ending)
      requires Shows(s) && Fifo(s) && from <= |src|
      modifies this`nwrite, data
      ensures from <= i <= |src|
      ensures Shows(Stored(s, src[from..i])) && MayEnd(s, Writer(from, n, false), i - from, ending)
      ensures ending == BadAddress ==> i == |src|
    {
      hide Put, Fifo, Held, Stored;
      i := from;
      assert src[from..from] == [];
      HeldBound(s);
      StoredHeld(s, []);
      StoredNone(s);
      while i < n
        invariant from <= i <= |src| && i - from <= PIPESIZE - Held(s)
        invariant i > from ==> readopen && i <= n
        invariant readopen == s.readopen && Shows(Stored(s, src[from..i]))
      {
        StoredHeld(s, src[from..i]);
        if !readopen {
          return i, ReaderGone;
        }
        if i - from == life {
          return i, Killed;
        }
        if nwrite == (nread + PIPESIZE) % WRAP {
          return i, Full;
        }
        if i == |src| {
          return i, BadAddress;
        }
        StoredOne(s, src[from..i], src[i]);
        assert src[from..i] + [src[i]] == src[from..i + 1];
        data[nwrite % PIPESIZE] := src[i];
        nwrite := (nwrite + 1) % WRAP;
        i := i + 1;
      }
      return i, Complete;
    }

    /** piperead once it has stopped waiting; the caller's memory takes `room` bytes.  The
        bytes delivered, and whether one more was taken and lost. */
    method Read(n: int, room: nat, ghost s: State) returns (out: seq<int>, lost: bool)
      requires Shows(s) && Fifo(s)
      modifies this`nread
      ensures var m := if lost then |out| + 1 else |out|;
              && m <= Held(s) && m <= Max(0, n) && (!lost ==> m == Held(s) || m == Max(0, n))
              && nread == Removed(s, m, lost).nread && Removed(s, m, lost).got == s.got + out
      ensures lost <==> room < Max(0, n) && room < Held(s)
    {
      hide Fifo, Held, Peek;
      out := [];
      lost := false;
      var i := 0;
      TakenNone(s);
      while i < n
        invariant 0 <= i <= Max(0, n) && i <= Held(s) && i <= room && data[..] == s.data && nwrite == s.nwrite
        invariant nread == (s.nread + i) % WRAP && out == Peek(s.data, s.nread, i)
      {
        Taken(s, i);
        if nread == nwrite {
          break;
        }
        var ch := data[nread % PIPESIZE];
        nread := (nread + 1) % WRAP;
        if i == room {
          lost := true;
          break;
        }
        out := out + [ch];
        i := i + 1;
      }
      Taken(s, i);
      assert lost ==> Peek(s.data, s.nread, i + 1)[..i] == out;
      assert Peek(s.data, s.nread, i)[..i] == Peek(s.data, s.nread, i);
    }

    method Close(writable: bool) returns (freed: bool)
      requires Valid()
      modifies this`readopen, this`writeopen
      ensures if writable then !writeopen && readopen == old(readopen) else !readopen && writeopen == old(writeopen)
      ensures freed == (!readopen && !writeopen)
    {
      if writable {
        writeopen := false;
      } else {
        readopen := false;
      }
      return !readopen && !writeopen;
    }
  }

  /** One more byte goes where the counter points. */
  lemma StoredOne(s: State, bs: seq<int>, x: int)
    requires Shape(s)
    ensures var now := Stored(s, bs);
            Stored(s, bs + [x]) == now.(data := now.data[now.nwrite % PIPESIZE := x], nwrite := (now.nwrite + 1) % WRAP,
                                        written := now.written + [x])
  {
    PutMore(s.data, s.nwrite, bs, x);
    Bump(s.nwrite + |bs|, 1);
    assert s.written + (bs + [x]) == s.written + bs + [x];
  }

  lemma {:induction false} PutMore(data: seq<int>, at: nat, bs: seq<int>, x: int)
    requires |data| == PIPESIZE && at < WRAP
    ensures Put(data, at, bs + [x]) == Put(data, at, bs)[(at + |bs|) % WRAP % PIPESIZE := x]
    decreases |bs|
  {
    if bs == [] {
      assert (bs + [x])[1..] == [];
      Slot(at);
    } else {
      assert (bs + [x])[1..] == bs[1..] + [x];
      PutMore(data[at % PIPESIZE := bs[0]], (at + 1) % WRAP, bs[1..], x);
      Bump(at + 1, |bs| - 1);
    }
  }

  lemma HeldBound(s: State)
    requires Shape(s) && Fifo(s)
    ensures Held(s) <= PIPESIZE
  {
    HeldIs(s);
  }

  lemma StoredNone(s: State)
    requires Shape(s)
    ensures var now := Stored(s, []); now.data == s.data && now.nwrite == s.nwrite
  {
    Bump(s.nwrite, 0);
  }

  /** pipewrite's test for a full pipe, after some bytes of its own. */
  lemma StoredHeld(s: State, bs: seq<int>)
    requires Shape(s) && Fifo(s) && |bs| <= PIPESIZE - Held(s)
    ensures var now := Stored(s, bs);
            && Shape(now) && now.nread == s.nread && now.readopen == s.readopen && now.writeopen == s.writeopen
            && (now.nwrite == (now.nread + PIPESIZE) % WRAP <==> |bs| == PIPESIZE - Held(s))
  {
    hide Put, Held;
    StoredKeeps(s, bs);
    HeldIs(s);
    HeldIs(Stored(s, bs));
  }

  lemma TakenNone(s: State)
    requires Shape(s)
    ensures Peek(s.data, s.nread, 0) == [] && (s.nread + 0) % WRAP == s.nread
  {
  }

  /** After i bytes the read counter points at byte i, and meets the other one at the end. */
  lemma Taken(s: State, i: nat)
    requires Shape(s) && Fifo(s) && i <= Held(s)
    ensures (s.nread + i) % WRAP == s.nwrite <==> i == Held(s)
    ensures ((s.nread + i) % WRAP + 1) % WRAP == (s.nread + (i + 1)) % WRAP
    ensures Peek(s.data, s.nread, i + 1) == Peek(s.data, s.nread, i) + [s.data[(s.nread + i) % WRAP % PIPESIZE]]
  {
    HeldIs(s);
    Bump(s.nread + i, 1);
    Round(s.nread + i);
  }

  lemma Round(n: nat)
    requires n < WRAP + PIPESIZE
    ensures n % WRAP == if n < WRAP then n else n - WRAP
  {
  }
}
