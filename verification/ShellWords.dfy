/** nulterminate (user/sh.c): every word of a parsed command becomes a C string of its own. */
module ShellWords {
  import opened Shell

  // ---- the words of a command

  predicate HasWord(cmd: Cmd, w: Span) {
    match cmd
    case Exec(args) => w in args
    case Redir(c, r) => w == r.file || HasWord(c, w)
    case Pipe(l, r) => HasWord(l, w) || HasWord(r, w)
    case List(l, r) => HasWord(l, w) || HasWord(r, w)
    case Back(c) => HasWord(c, w)
  }

  predicate AllWords(buf: string, cmd: Cmd) {
    match cmd
    case Exec(args) => ArgWords(buf, args)
    case Redir(c, r) => AllWords(buf, c) && IsWord(buf, r.file)
    case Pipe(l, r) => AllWords(buf, l) && AllWords(buf, r)
    case List(l, r) => AllWords(buf, l) && AllWords(buf, r)
    case Back(c) => AllWords(buf, c)
  }

  predicate ArgWords(buf: string, args: seq<Span>) {
    forall i :: 0 <= i < |args| ==> IsWord(buf, args[i])
  }

  predicate FileWords(buf: string, rs: seq<Redirection>) {
    forall i :: 0 <= i < |rs| ==> IsWord(buf, rs[i].file)
  }

  lemma {:induction false} WrapWords(buf: string, cmd: Cmd, rs: seq<Redirection>)
    requires AllWords(buf, cmd) && FileWords(buf, rs)
    ensures AllWords(buf, Wrap(cmd, rs))
    decreases |rs|
  {
    if rs != [] {
      WrapWords(buf, cmd, rs[..|rs| - 1]);
    }
  }

  lemma {:induction false} RedirsWords(buf: string, s: nat, rs: seq<Redirection>)
    requires s <= |buf| && FileWords(buf, rs)
    ensures ParseRedirs(buf, s, rs).Ok? ==> FileWords(buf, ParseRedirs(buf, s, rs).v)
    decreases |buf| - s
  {
    if Peek(buf, s, "<>") {
      var t := GetToken(buf, s);
      var f := GetToken(buf, t.next);
      if f.tok == Word {
        var kind := if t.tok == Twice then Append else if t.tok == Sym('<') then In else Out;
        RedirsWords(buf, f.next, rs + [Redirection(f.span, kind)]);
      }
    }
  }

  lemma {:induction false} ArgsWords(buf: string, s: nat, args: seq<Span>, rs: seq<Redirection>)
    requires s <= |buf| && ArgWords(buf, args) && FileWords(buf, rs)
    ensures var r := ParseArgs(buf, s, args, rs); r.Ok? ==> ArgWords(buf, r.v.args) && FileWords(buf, r.v.rs)
    decreases |buf| - s
  {
    hide Skip, GetToken, Peek, IsWord, ParseRedirs;
    if !Peek(buf, s, "|)&;") {
      var t := GetToken(buf, s);
      if t.tok == Word && |args| + 1 < MAXARGS {
        RedirsWords(buf, t.next, rs);
        var r := ParseRedirs(buf, t.next, rs);
        if r.Ok? {
          ArgsWords(buf, r.s, args + [t.span], r.v);
        }
      }
    }
  }

  lemma {:induction false} ExecWords(buf: string, s: nat)
    requires s <= |buf|
    ensures ParseExec(buf, s).Ok? ==> AllWords(buf, ParseExec(buf, s).v)
    decreases |buf| - s, 2
  {
    hide Skip, GetToken, Peek, IsWord, ParseRedirs, ParseArgs, Wrap;
    if Peek(buf, s, "(") {
      BlockWords(buf, s);
    } else {
      RedirsWords(buf, s, []);
      var r := ParseRedirs(buf, s, []);
      if r.Ok? {
        ArgsWords(buf, r.s, [], r.v);
        var a := ParseArgs(buf, r.s, [], r.v);
        if a.Ok? {
          WrapWords(buf, Exec(a.v.args), a.v.rs);
        }
      }
    }
  }

  lemma {:induction false} BlockWords(buf: string, s: nat)
    requires s <= |buf|
    ensures ParseBlock(buf, s).Ok? ==> AllWords(buf, ParseBlock(buf, s).v)
    decreases |buf| - s, 1
  {
    hide IsWord, ParseRedirs, Wrap;
    if Peek(buf, s, "(") {
      var line := ParseLine(buf, GetToken(buf, s).next);
      LineWords(buf, GetToken(buf, s).next);
      if line.Ok? && Peek(buf, line.s, ")") {
        RedirsWords(buf, GetToken(buf, line.s).next, []);
        var r := ParseRedirs(buf, GetToken(buf, line.s).next, []);
        if r.Ok? {
          WrapWords(buf, line.v, r.v);
        }
      }
    }
  }

  lemma {:induction false} PipeWords(buf: string, s: nat)
    requires s <= |buf|
    ensures ParsePipe(buf, s).Ok? ==> AllWords(buf, ParsePipe(buf, s).v)
    decreases |buf| - s, 3
  {
    hide IsWord;
    ExecWords(buf, s);
    var left := ParseExec(buf, s);
    if left.Ok? && Peek(buf, left.s, "|") {
      PipeWords(buf, GetToken(buf, left.s).next);
    }
  }

  lemma {:induction false} BacksWords(buf: string, s: nat, cmd: Cmd)
    requires s <= |buf| && AllWords(buf, cmd)
    ensures AllWords(buf, ParseBacks(buf, s, cmd).v)
    decreases |buf| - s
  {
    hide IsWord;
    if Peek(buf, s, "&") {
      BacksWords(buf, GetToken(buf, s).next, Back(cmd));
    }
  }

  lemma {:induction false} LineWords(buf: string, s: nat)
    requires s <= |buf|
    ensures ParseLine(buf, s).Ok? ==> AllWords(buf, ParseLine(buf, s).v)
    decreases |buf| - s, 4
  {
    hide IsWord;
    PipeWords(buf, s);
    var first := ParsePipe(buf, s);
    if first.Ok? {
      BacksWords(buf, first.s, first.v);
      var left := ParseBacks(buf, first.s, first.v);
      if Peek(buf, left.s, ";") {
        LineWords(buf, GetToken(buf, left.s).next);
      }
    }
  }

  lemma {:induction false} WordOf(buf: string, cmd: Cmd, w: Span)
    requires AllWords(buf, cmd) && HasWord(cmd, w)
    ensures IsWord(buf, w)
  {
    match cmd
    case Exec(args) =>
    case Redir(c, r) => if w != r.file { WordOf(buf, c, w); }
    case Pipe(l, r) => if HasWord(l, w) { WordOf(buf, l, w); } else { WordOf(buf, r, w); }
    case List(l, r) => if HasWord(l, w) { WordOf(buf, l, w); } else { WordOf(buf, r, w); }
    case Back(c) => WordOf(buf, c, w);
  }

  // ---- NULs

  const NUL := '\0'

  /** Some word of the command ends at i. */
  predicate HasEnd(cmd: Cmd, i: nat) {
    match cmd
    case Exec(args) => ArgEnd(args, i)
    case Redir(c, r) => r.file.eq == i || HasEnd(c, i)
    case Pipe(l, r) => HasEnd(l, i) || HasEnd(r, i)
    case List(l, r) => HasEnd(l, i) || HasEnd(r, i)
    case Back(c) => HasEnd(c, i)
  }

  predicate ArgEnd(args: seq<Span>, i: nat) {
    exists k :: 0 <= k < |args| && args[k].eq == i
  }

  /** The line's memory with a NUL at the end of each word. */
  function Terminated(mem: seq<char>, cmd: Cmd): (r: seq<char>)
    ensures |r| == |mem|
  {
    seq(|mem|, i requires 0 <= i < |mem| => if HasEnd(cmd, i) then NUL else mem[i])
  }

  /** nulterminate. */
  method Nulterminate(a: array<char>, buf: string, cmd: Cmd)
    requires a.Length == |buf| + 1 && AllWords(buf, cmd)
    modifies a
    ensures a[..] == Terminated(old(a[..]), cmd)
    decreases cmd
  {
    match cmd
    case Exec(args) =>
      var i := 0;
      while i < |args|
        invariant 0 <= i <= |args|
        invariant forall j :: 0 <= j < a.Length ==> a[j] == if ArgEnd(args[..i], j) then NUL else old(a[..])[j]
      {
        assert IsWord(buf, args[i]);
        assert args[..i + 1] == args[..i] + [args[i]];
        EndMore(args[..i], args[i]);
        a[args[i].eq] := NUL;
        i := i + 1;
      }
      assert args[..i] == args;
    case Redir(c, r) =>
      Nulterminate(a, buf, c);
      a[r.file.eq] := NUL;
    case Pipe(l, r) =>
      Nulterminate(a, buf, l);
      Nulterminate(a, buf, r);
    case List(l, r) =>
      Nulterminate(a, buf, l);
      Nulterminate(a, buf, r);
    case Back(c) =>
      Nulterminate(a, buf, c);
  }

  lemma EndMore(args: seq<Span>, w: Span)
    ensures forall j: nat :: ArgEnd(args + [w], j) <==> ArgEnd(args, j) || w.eq == j
  {
    forall j: nat
      ensures ArgEnd(args + [w], j) <==> ArgEnd(args, j) || w.eq == j
    {
      if w.eq == j {
        assert (args + [w])[|args|].eq == j;
      }
      if ArgEnd(args, j) {
        var k :| 0 <= k < |args| && args[k].eq == j;
        assert (args + [w])[k].eq == j;
      }
    }
  }

  // ---- C strings

  function CString(mem: seq<char>, at: nat): string
    decreases |mem| - at
  {
    if at >= |mem| || mem[at] == NUL then [] else [mem[at]] + CString(mem, at + 1)
  }

  lemma {:induction false} CStringIs(mem: seq<char>, buf: string, at: nat, e: nat)
    requires at <= e < |mem| && e <= |buf| && mem[e] == NUL
    requires forall i :: at <= i < e ==> mem[i] == buf[i] != NUL
    ensures CString(mem, at) == buf[at..e]
    decreases e - at
  {
    if at < e {
      CStringIs(mem, buf, at + 1, e);
      assert buf[at..e] == [buf[at]] + buf[at + 1..e];
    }
  }

  /** Where a word ends, no other word is. */
  lemma {:induction false} EndsOutside(buf: string, cmd: Cmd, i: nat)
    requires AllWords(buf, cmd) && i < |buf| && WordChar(buf[i])
    ensures !HasEnd(cmd, i)
  {
    match cmd
    case Exec(args) =>
    case Redir(c, r) => EndsOutside(buf, c, i);
    case Pipe(l, r) =>
      EndsOutside(buf, l, i);
      EndsOutside(buf, r, i);
    case List(l, r) =>
      EndsOutside(buf, l, i);
      EndsOutside(buf, r, i);
    case Back(c) => EndsOutside(buf, c, i);
  }

  lemma {:induction false} WordEnds(cmd: Cmd, w: Span)
    requires HasWord(cmd, w)
    ensures HasEnd(cmd, w.eq)
  {
    match cmd
    case Exec(args) =>
      var k :| 0 <= k < |args| && args[k] == w;
      assert ArgEnd(args, w.eq);
    case Redir(c, r) => if w != r.file { WordEnds(c, w); }
    case Pipe(l, r) => if HasWord(l, w) { WordEnds(l, w); } else { WordEnds(r, w); }
    case List(l, r) => if HasWord(l, w) { WordEnds(l, w); } else { WordEnds(r, w); }
    case Back(c) => WordEnds(c, w);
  }

  /** For every line that parses: after nulterminate each argument and each file name is the
      C string of its own token, and no token was written to. */
  lemma WordsAreStrings(buf: string, w: Span)
    requires ParseCmd(buf).Ok? && HasWord(ParseCmd(buf).v, w) && forall i :: 0 <= i < |buf| ==> buf[i] != NUL
    ensures w.q < w.eq <= |buf| && CString(Terminated(buf + [NUL], ParseCmd(buf).v), w.q) == buf[w.q..w.eq]
    ensures Terminated(buf + [NUL], ParseCmd(buf).v)[w.q..w.eq] == buf[w.q..w.eq]
  {
    hide ParseLine, HasWord, HasEnd, AllWords;
    var cmd := ParseCmd(buf).v;
    LineWords(buf, 0);
    WordOf(buf, cmd, w);
    var mem := Terminated(buf + [NUL], cmd);
    WordEnds(cmd, w);
    forall i | w.q <= i < w.eq
      ensures mem[i] == buf[i] != NUL
    {
      EndsOutside(buf, cmd, i);
    }
    CStringIs(mem, buf, w.q, w.eq);
  }
}
