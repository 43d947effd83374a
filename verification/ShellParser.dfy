/** The parser as it runs (user/sh.c, gettoken to parsecmd): a position that every function
    moves, and loops. */
module ShellParser {
  import opened Options
  import opened Shell
  import opened ShellWords

  class Parser {
    const buf: string
    var s: nat

    ghost predicate Valid()
      reads this
    {
      s <= |buf|
    }

    constructor (line: string)
      ensures Valid() && buf == line && s == 0
    {
      buf := line;
      s := 0;
    }

    /** The loop over white space that gettoken and peek begin with. */
    method SkipSpace()
      requires Valid()
      modifies this
      ensures Valid() && s == Skip(buf, old(s))
    {
      while s < |buf| && Space(buf[s])
        invariant Valid() && Skip(buf, s) == Skip(buf, old(s))
        decreases |buf| - s
      {
        s := s + 1;
      }
    }

    method GetToken() returns (tok: Tok, span: Span)
      requires Valid()
      modifies this
      ensures Valid() && Shell.GetToken(buf, old(s)) == Token(tok, span, s)
    {
      SkipSpace();
      var q := s;
      if s == |buf| {
        tok := Eof;
      } else if buf[s] == '>' {
        s := s + 1;
        tok := Sym('>');
        if s < |buf| && buf[s] == '>' {
          tok := Twice;
          s := s + 1;
        }
      } else if Symbol(buf[s]) {
        tok := Sym(buf[s]);
        s := s + 1;
      } else {
        tok := Word;
        while s < |buf| && !Space(buf[s]) && !Symbol(buf[s])
          invariant q <= s <= |buf| && WordEnd(buf, s) == WordEnd(buf, q)
          decreases |buf| - s
        {
          s := s + 1;
        }
      }
      span := Span(q, s);
      SkipSpace();
    }

    method Peek(toks: string) returns (r: bool)
      requires Valid()
      modifies this
      ensures Valid() && s == Skip(buf, old(s)) && r == Shell.Peek(buf, old(s), toks) == Shell.Peek(buf, s, toks)
      ensures Shell.GetToken(buf, s) == Shell.GetToken(buf, old(s))
    {
      PeekSkip(buf, s, toks);
      TokenSkip(buf, s);
      SkipSpace();
      r := s < |buf| && buf[s] in toks;
    }

    method ParseRedirs(before: seq<Redirection>) returns (r: Opt<seq<Redirection>>)
      requires Valid()
      modifies this
      ensures Valid() && Agrees(r, s, Shell.ParseRedirs(buf, old(s), before))
    {
      hide Skip, Shell.GetToken, Shell.Peek, Shell.ParseRedirs;
      var rs := before;
      RedirsSkip(buf, s, rs);
      var more := Peek("<>");
      while more
        invariant Valid() && more == Shell.Peek(buf, s, "<>") && s == Skip(buf, s)
        invariant Shell.ParseRedirs(buf, s, rs) == Shell.ParseRedirs(buf, old(s), before)
        decreases |buf| - s
      {
        RedirsMore(buf, s, rs);
        var tok, span := GetToken();
        var ftok, file := GetToken();
        if ftok != Word {
          return None;
        }
        match tok {
          case Twice => rs := rs + [Redirection(file, Append)];
          case _ => rs := rs + [Redirection(file, if tok == Sym('<') then In else Out)];
        }
        RedirsSkip(buf, s, rs);
        more := Peek("<>");
      }
      RedirsDone(buf, s, rs);
      return Some(rs);
    }

    method ParseExec() returns (r: Opt<Cmd>)
      requires Valid()
      modifies this
      ensures Valid() && Agrees(r, s, Shell.ParseExec(buf, old(s)))
      decreases |buf| - s, 2
    {
      hide Skip, Shell.GetToken, Shell.Peek, Shell.ParseRedirs, Shell.ParseArgs, Shell.ParseExec, Shell.ParseBlock;
      ExecParts(buf, s);
      var block := Peek("(");
      if block {
        r := ParseBlock();
        return;
      }
      var before := ParseRedirs([]);
      if before.None? {
        return None;
      }
      ghost var from, rs0 := s, before.v;
      var args, rs: seq<Redirection> := [], before.v;
      while true
        invariant Valid() && from <= |buf| && Shell.ParseArgs(buf, s, args, rs) == Shell.ParseArgs(buf, from, [], rs0)
        decreases |buf| - s
      {
        ArgsStep(buf, s, args, rs);
        var stop := Peek("|)&;");
        if stop {
          break;
        }
        var tok, span := GetToken();
        if tok == Eof {
          break;
        }
        if tok != Word {
          return None;
        }
        args := args + [span];
        if |args| >= MAXARGS {
          return None;
        }
        var more := ParseRedirs(rs);
        if more.None? {
          return None;
        }
        rs := more.v;
      }
      return Some(Wrap(Exec(args), rs));
    }

    method ParseBlock() returns (r: Opt<Cmd>)
      requires Valid()
      modifies this
      ensures Valid() && Agrees(r, s, Shell.ParseBlock(buf, old(s)))
      decreases |buf| - s, 1
    {
      hide Skip, Shell.GetToken, Shell.Peek, Shell.ParseRedirs, Shell.ParseBlock, Shell.ParseLine;
      BlockParts(buf, s);
      var open := Peek("(");
      if !open {
        return None;
      }
      var tok, span := GetToken();
      var line := ParseLine();
      if line.None? {
        return None;
      }
      var close := Peek(")");
      if !close {
        return None;
      }
      tok, span := GetToken();
      var rs := ParseRedirs([]);
      if rs.None? {
        return None;
      }
      return Some(Wrap(line.v, rs.v));
    }

    method ParsePipe() returns (r: Opt<Cmd>)
      requires Valid()
      modifies this
      ensures Valid() && Agrees(r, s, Shell.ParsePipe(buf, old(s)))
      decreases |buf| - s, 3
    {
      hide Skip, Shell.GetToken, Shell.Peek, Shell.ParseExec, Shell.ParsePipe;
      PipeParts(buf, s);
      var left := ParseExec();
      if left.None? {
        return None;
      }
      var more := Peek("|");
      if !more {
        return left;
      }
      var tok, span := GetToken();
      var right := ParsePipe();
      if right.None? {
        return None;
      }
      return Some(Pipe(left.v, right.v));
    }

    method ParseLine() returns (r: Opt<Cmd>)
      requires Valid()
      modifies this
      ensures Valid() && Agrees(r, s, Shell.ParseLine(buf, old(s)))
      decreases |buf| - s, 4
    {
      hide Skip, Shell.GetToken, Shell.Peek, Shell.ParsePipe, Shell.ParseBacks, Shell.ParseLine;
      LineParts(buf, s);
      var first := ParsePipe();
      if first.None? {
        return None;
      }
      var cmd := first.v;
      ghost var from := s;
      BacksSkip(buf, s, cmd);
      var more := Peek("&");
      while more
        invariant Valid() && from <= s && more == Shell.Peek(buf, s, "&") && s == Skip(buf, s)
        invariant Shell.ParseBacks(buf, s, cmd) == Shell.ParseBacks(buf, from, first.v)
        decreases |buf| - s
      {
        BacksMore(buf, s, cmd);
        var tok, span := GetToken();
        cmd := Back(cmd);
        BacksSkip(buf, s, cmd);
        more := Peek("&");
      }
      BacksDone(buf, s, cmd);
      var next := Peek(";");
      if !next {
        return Some(cmd);
      }
      var tok, span := GetToken();
      var rest := ParseLine();
      if rest.None? {
        return None;
      }
      return Some(List(cmd, rest.v));
    }

    /** parsecmd: the command, with every word terminated in the line's memory; none for the
        lines at which the shell panics. */
    method ParseCmd(mem: array<char>) returns (r: Opt<Cmd>)
      requires Valid() && s == 0 && mem.Length == |buf| + 1
      modifies this, mem
      ensures Valid() && Agrees(r, s, Shell.ParseCmd(buf))
      ensures mem[..] == if r.Some? then Terminated(old(mem[..]), r.v) else old(mem[..])
    {
      hide Skip, Shell.Peek, Shell.ParseLine, AllWords;
      LineWords(buf, 0);
      var cmd := ParseLine();
      if cmd.None? {
        return None;
      }
      var none := Peek("");
      if s != |buf| {
        return None;
      }
      Nulterminate(mem, buf, cmd.v);
      return cmd;
    }
  }

  /** A method's result and the place it leaves the parser at are those of the function. */
  predicate Agrees<T(==)>(r: Opt<T>, s: nat, want: Result<T>) {
    match want
    case Panic => r == None
    case Ok(v, at) => r == Some(v) && s == at
  }

  // ---- one turn of each function

  lemma SkipTwice(buf: string, s: nat)
    requires s <= |buf|
    ensures Skip(buf, Skip(buf, s)) == Skip(buf, s)
  {
  }

  lemma PeekSkip(buf: string, s: nat, toks: string)
    requires s <= |buf|
    ensures Peek(buf, Skip(buf, s), toks) == Peek(buf, s, toks)
  {
    SkipTwice(buf, s);
  }

  lemma TokenSkip(buf: string, s: nat)
    requires s <= |buf|
    ensures GetToken(buf, Skip(buf, s)) == GetToken(buf, s)
  {
    SkipTwice(buf, s);
  }

  lemma RedirsSkip(buf: string, s: nat, rs: seq<Redirection>)
    requires s <= |buf|
    ensures ParseRedirs(buf, Skip(buf, s), rs) == ParseRedirs(buf, s, rs) && Skip(buf, Skip(buf, s)) == Skip(buf, s)
  {
    hide GetToken, Peek, Skip;
    SkipTwice(buf, s);
    PeekSkip(buf, s, "<>");
    TokenSkip(buf, s);
  }

  lemma RedirsMore(buf: string, s: nat, rs: seq<Redirection>)
    requires s <= |buf| && Peek(buf, s, "<>")
    ensures var t := GetToken(buf, s);
            var f := GetToken(buf, t.next);
            var kind := if t.tok == Twice then Append else if t.tok == Sym('<') then In else Out;
            ParseRedirs(buf, s, rs) == if f.tok != Word then Panic
                                       else ParseRedirs(buf, f.next, rs + [Redirection(f.span, kind)])
    ensures s < GetToken(buf, s).next
  {
    hide Skip, Peek;
    PeekToken(buf, s, "<>");
  }

  lemma PeekToken(buf: string, s: nat, toks: string)
    requires s <= |buf| && Peek(buf, s, toks)
    ensures GetToken(buf, s).tok != Eof && s < GetToken(buf, s).next
  {
  }

  lemma RedirsDone(buf: string, s: nat, rs: seq<Redirection>)
    requires s <= |buf| && !Peek(buf, s, "<>")
    ensures ParseRedirs(buf, s, rs) == Ok(rs, Skip(buf, s))
  {
  }

  lemma ArgsStep(buf: string, s: nat, args: seq<Span>, rs: seq<Redirection>)
    requires s <= |buf|
    ensures var t := GetToken(buf, s);
            var r := ParseRedirs(buf, t.next, rs);
            ParseArgs(buf, s, args, rs) == if Peek(buf, s, "|)&;") then Ok(Simple(args, rs), Skip(buf, s))
                                           else if t.tok == Eof then Ok(Simple(args, rs), t.next)
                                           else if t.tok != Word || |args| + 1 >= MAXARGS then Panic
                                           else if r.Panic? then Panic
                                           else ParseArgs(buf, r.s, args + [t.span], r.v)
  {
    hide Skip, GetToken, Peek, ParseRedirs;
  }

  lemma ExecParts(buf: string, s: nat)
    requires s <= |buf|
    ensures Peek(buf, s, "(") ==> ParseExec(buf, s) == ParseBlock(buf, s) == ParseBlock(buf, Skip(buf, s))
    ensures var r := ParseRedirs(buf, s, []);
            !Peek(buf, s, "(") ==>
              ParseRedirs(buf, Skip(buf, s), []) == r && ParseExec(buf, s) == if r.Panic? then Panic
                                                      else var a := ParseArgs(buf, r.s, [], r.v);
                                                      if a.Panic? then Panic else Ok(Wrap(Exec(a.v.args), a.v.rs), a.s)
  {
    hide Skip, GetToken, Peek, ParseRedirs, ParseArgs;
    RedirsSkip(buf, s, []);
    PeekSkip(buf, s, "(");
    TokenSkip(buf, s);
  }

  lemma BlockParts(buf: string, s: nat)
    requires s <= |buf|
    ensures ParseBlock(buf, s) ==
              if !Peek(buf, s, "(") then Panic
              else
                var line := ParseLine(buf, GetToken(buf, s).next);
                if line.Panic? || !Peek(buf, line.s, ")") then Panic
                else
                  var r := ParseRedirs(buf, GetToken(buf, line.s).next, []);
                  if r.Panic? then Panic else Ok(Wrap(line.v, r.v), r.s)
    ensures Peek(buf, s, "(") ==> s < GetToken(buf, s).next
  {
    hide Skip, Peek, ParseRedirs, ParseLine;
    if Peek(buf, s, "(") {
      PeekToken(buf, s, "(");
    }
  }

  lemma PipeParts(buf: string, s: nat)
    requires s <= |buf|
    ensures ParsePipe(buf, s) ==
              var left := ParseExec(buf, s);
              if left.Panic? then Panic
              else if !Peek(buf, left.s, "|") then Ok(left.v, Skip(buf, left.s))
              else
                var right := ParsePipe(buf, GetToken(buf, left.s).next);
                if right.Panic? then Panic else Ok(Pipe(left.v, right.v), right.s)
    ensures var left := ParseExec(buf, s); left.Ok? && Peek(buf, left.s, "|") ==> s < GetToken(buf, left.s).next
  {
    hide Skip, Peek, ParseExec;
    var left := ParseExec(buf, s);
    if left.Ok? && Peek(buf, left.s, "|") {
      PeekToken(buf, left.s, "|");
    }
  }

  lemma BacksSkip(buf: string, s: nat, cmd: Cmd)
    requires s <= |buf|
    ensures ParseBacks(buf, Skip(buf, s), cmd) == ParseBacks(buf, s, cmd) && Skip(buf, Skip(buf, s)) == Skip(buf, s)
  {
    hide GetToken, Peek, Skip;
    SkipTwice(buf, s);
    PeekSkip(buf, s, "&");
    TokenSkip(buf, s);
  }

  lemma BacksMore(buf: string, s: nat, cmd: Cmd)
    requires s <= |buf| && Peek(buf, s, "&")
    ensures ParseBacks(buf, s, cmd) == ParseBacks(buf, GetToken(buf, s).next, Back(cmd)) && s < GetToken(buf, s).next
  {
    hide Skip, Peek;
    PeekToken(buf, s, "&");
  }

  lemma BacksDone(buf: string, s: nat, cmd: Cmd)
    requires s <= |buf| && !Peek(buf, s, "&")
    ensures ParseBacks(buf, s, cmd) == Ok(cmd, Skip(buf, s))
  {
  }

  lemma LineParts(buf: string, s: nat)
    requires s <= |buf|
    ensures ParseLine(buf, s) ==
              var first := ParsePipe(buf, s);
              if first.Panic? then Panic
              else
                var left := ParseBacks(buf, first.s, first.v);
                if !Peek(buf, left.s, ";") then Ok(left.v, Skip(buf, left.s))
                else
                  var right := ParseLine(buf, GetToken(buf, left.s).next);
                  if right.Panic? then Panic else Ok(List(left.v, right.v), right.s)
    ensures forall t: nat :: t <= |buf| && Peek(buf, t, ";") ==> t < GetToken(buf, t).next
  {
    hide Skip, Peek, ParsePipe, ParseBacks;
    forall t: nat | t <= |buf| && Peek(buf, t, ";")
      ensures t < GetToken(buf, t).next
    {
      PeekToken(buf, t, ";");
    }
  }
}
