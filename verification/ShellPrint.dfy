/** Parsing what a fully parenthesised printing shows gives back the command. */
module ShellPrint {
  import opened Shell

  /** A command with its words, not where they stand in a line. */
  datatype Tree =
    | Run(args: seq<string>)
    | Redirect(tree: Tree, file: string, kind: Kind)
    | Piped(left: Tree, right: Tree)
    | Then(left: Tree, right: Tree)
    | Behind(tree: Tree)

  /** No space, no symbol and not empty. */
  predicate GoodWord(w: string) {
    w != [] && forall i :: 0 <= i < |w| ==> WordChar(w[i])
  }

  /** Words that can be written, and fewer than MAXARGS of them in a command. */
  predicate Good(t: Tree) {
    match t
    case Run(args) => |args| < MAXARGS && forall i :: 0 <= i < |args| ==> GoodWord(args[i])
    case Redirect(c, file, _) => Good(c) && GoodWord(file)
    case Piped(l, r) => Good(l) && Good(r)
    case Then(l, r) => Good(l) && Good(r)
    case Behind(c) => Good(c)
  }

  function Join(args: seq<string>): string {
    if args == [] then [] else if |args| == 1 then args[0] else args[0] + [' '] + Join(args[1..])
  }

  function Operator(kind: Kind): string {
    match kind
    case In => ['<']
    case Out => ['>']
    case Append => ['>', '>']
  }

  /** Every command inside another one stands in parentheses. */
  function Print(t: Tree): string
    decreases t, 0
  {
    match t
    case Run(args) => Join(args)
    case Redirect(c, file, kind) => Enclosed(c) + Operator(kind) + file
    case Piped(l, r) => Enclosed(l) + ['|'] + Enclosed(r)
    case Then(l, r) => Enclosed(l) + [';'] + Enclosed(r)
    case Behind(c) => Enclosed(c) + ['&']
  }

  function Enclosed(t: Tree): string
    decreases t, 1
  {
    ['('] + Print(t) + [')']
  }

  function Text(buf: string, w: Span): string
    requires w.q <= w.eq <= |buf|
  {
    buf[w.q..w.eq]
  }

  predicate InLine(buf: string, w: Span) {
    w.q <= w.eq <= |buf|
  }

  /** The command that the parser's result shows. */
  predicate Denotes(buf: string, cmd: Cmd, t: Tree) {
    match t
    case Run(args) =>
      && cmd.Exec? && |cmd.args| == |args|
      && forall i :: 0 <= i < |args| ==> InLine(buf, cmd.args[i]) && Text(buf, cmd.args[i]) == args[i]
    case Redirect(c, file, kind) =>
      && cmd.Redir? && Denotes(buf, cmd.cmd, c)
      && InLine(buf, cmd.r.file) && Text(buf, cmd.r.file) == file && cmd.r.kind == kind
    case Piped(l, r) => cmd.Pipe? && Denotes(buf, cmd.left, l) && Denotes(buf, cmd.right, r)
    case Then(l, r) => cmd.List? && Denotes(buf, cmd.left, l) && Denotes(buf, cmd.right, r)
    case Behind(c) => cmd.Back? && Denotes(buf, cmd.cmd, c)
  }

  // ---- text at a place in a line

  predicate At(buf: string, s: nat, x: string) {
    s + |x| <= |buf| && buf[s..s + |x|] == x
  }

  lemma AtParts(buf: string, s: nat, a: string, b: string)
    requires At(buf, s, a + b)
    ensures At(buf, s, a) && At(buf, s + |a|, b)
  {
    assert (a + b)[..|a|] == a && (a + b)[|a|..] == b;
  }

  lemma AtChar(buf: string, s: nat, c: char)
    requires At(buf, s, [c])
    ensures s < |buf| && buf[s] == c
  {
    assert buf[s..s + 1][0] == c;
  }

  lemma AtIndex(buf: string, s: nat, x: string, i: nat)
    requires At(buf, s, x) && i < |x|
    ensures s + i < |buf| && buf[s + i] == x[i]
  {
    assert buf[s..s + |x|][i] == x[i];
  }

  // ---- tokens at a place

  /** There is no space to skip. */
  predicate Firm(buf: string, s: nat) {
    s <= |buf| && (s == |buf| || !Space(buf[s]))
  }

  lemma FirmSkip(buf: string, s: nat)
    requires Firm(buf, s)
    ensures Skip(buf, s) == s
  {
  }

  lemma SymbolToken(buf: string, s: nat)
    requires s < |buf| && Symbol(buf[s]) && buf[s] != '>' && Firm(buf, s + 1)
    ensures Firm(buf, s) && GetToken(buf, s) == Token(Sym(buf[s]), Span(s, s + 1), s + 1)
  {
    FirmSkip(buf, s);
    FirmSkip(buf, s + 1);
  }

  lemma WordToken(buf: string, s: nat, w: string)
    requires At(buf, s, w) && GoodWord(w) && (s + |w| < |buf| ==> !WordChar(buf[s + |w|]))
    ensures Firm(buf, s) && GetToken(buf, s) == Token(Word, Span(s, s + |w|), Skip(buf, s + |w|))
  {
    forall i | s <= i < s + |w|
      ensures WordChar(buf[i])
    {
      AtIndex(buf, s, w, i - s);
    }
    FirmSkip(buf, s);
    WordEndIs(buf, s, s + |w|);
    AtIndex(buf, s, w, 0);
  }

  lemma {:induction false} WordEndIs(buf: string, s: nat, e: nat)
    requires s <= e <= |buf| && (e < |buf| ==> !WordChar(buf[e])) && forall i :: s <= i < e ==> WordChar(buf[i])
    ensures WordEnd(buf, s) == e
    decreases e - s
  {
    if s < e {
      WordEndIs(buf, s + 1, e);
    }
  }

  /** Where a command in parentheses, or the whole line, ends. */
  predicate Ends(buf: string, e: nat) {
    e <= |buf| && (e == |buf| || buf[e] == ')')
  }

  // ---- words

  function Spans(s: nat, args: seq<string>): seq<Span>
    decreases |args|
  {
    if args == [] then [] else [Span(s, s + |args[0]|)] + Spans(s + |args[0]| + 1, args[1..])
  }

  lemma {:induction false} SpansText(buf: string, s: nat, args: seq<string>, i: nat)
    requires At(buf, s, Join(args)) && i < |args|
    ensures |Spans(s, args)| == |args| && InLine(buf, Spans(s, args)[i]) && Text(buf, Spans(s, args)[i]) == args[i]
    decreases |args|
  {
    if |args| == 1 {
      assert Spans(s + |args[0]| + 1, args[1..]) == [];
    } else {
      AtParts(buf, s, args[0] + [' '], Join(args[1..]));
      AtParts(buf, s, args[0], [' ']);
      SpansText(buf, s + |args[0]| + 1, args[1..], if i > 0 then i - 1 else 0);
    }
  }

  lemma NoRedirs(buf: string, s: nat, rs: seq<Redirection>)
    requires Firm(buf, s) && (s < |buf| ==> buf[s] != '<' && buf[s] != '>')
    ensures ParseRedirs(buf, s, rs) == Ok(rs, s)
  {
    FirmSkip(buf, s);
  }

  lemma ArgsEnd(buf: string, e: nat, args: seq<Span>)
    requires Ends(buf, e)
    ensures ParseArgs(buf, e, args, []) == Ok(Simple(args, []), e)
  {
    FirmSkip(buf, e);
  }

  lemma {:induction false} ArgsParse(buf: string, s: nat, args: seq<string>, done: seq<Span>)
    requires At(buf, s, Join(args)) && Ends(buf, s + |Join(args)|) && |done| + |args| < MAXARGS
    requires forall i :: 0 <= i < |args| ==> GoodWord(args[i])
    ensures ParseArgs(buf, s, done, []) == Ok(Simple(done + Spans(s, args), []), s + |Join(args)|)
    decreases |args|
  {
    hide Skip, GetToken, ParseRedirs, ParseArgs, At, Join, GoodWord, Spans;
    JoinParts(args);
    SpansParts(s, args);
    if args == [] {
      ArgsEnd(buf, s, done);
      assert done + Spans(s, args) == done;
    } else {
      var w := args[0];
      var t := s + |w|;
      if |args| == 1 {
        SpansParts(t + 1, args[1..]);
        assert Spans(s, args) == [Span(s, t)];
        OneArg(buf, s, w, t, done);
        ArgsEnd(buf, t, done + [Span(s, t)]);
      } else {
        AtParts(buf, s, w + [' '], Join(args[1..]));
        AtParts(buf, s, w, [' ']);
        AtChar(buf, t, ' ');
        JoinHead(args[1..]);
        AtIndex(buf, t + 1, Join(args[1..]), 0);
        OneArg(buf, s, w, t + 1, done);
        ArgsParse(buf, t + 1, args[1..], done + [Span(s, t)]);
        assert done + [Span(s, t)] + Spans(t + 1, args[1..]) == done + Spans(s, args);
      }
    }
  }

  lemma JoinParts(args: seq<string>)
    ensures Join(args) == if args == [] then [] else if |args| == 1 then args[0] else args[0] + [' '] + Join(args[1..])
  {
  }

  lemma SpansParts(s: nat, args: seq<string>)
    ensures Spans(s, args) == if args == [] then [] else [Span(s, s + |args[0]|)] + Spans(s + |args[0]| + 1, args[1..])
  {
  }

  lemma JoinHead(args: seq<string>)
    requires args != [] && GoodWord(args[0])
    ensures Join(args) != [] && WordChar(Join(args)[0])
  {
  }

  /** One word, with at most one space behind it. */
  lemma OneArg(buf: string, s: nat, w: string, next: nat, done: seq<Span>)
    requires At(buf, s, w) && GoodWord(w) && |done| + 1 < MAXARGS && s + |w| <= next <= |buf|
    requires if next == s + |w| then Ends(buf, next)
      else next == s + |w| + 1 && Space(buf[s + |w|]) && next < |buf| && WordChar(buf[next])
    ensures ParseArgs(buf, s, done, []) == ParseArgs(buf, next, done + [Span(s, s + |w|)], [])
  {
    WordToken(buf, s, w);
    FirmSkip(buf, s);
    AtIndex(buf, s, w, 0);
    FirmSkip(buf, next);
    assert Skip(buf, s + |w|) == next;
    NoRedirs(buf, next, []);
  }

  // ---- commands

  /** What can follow a command in parentheses, without a redirection. */
  predicate Stop(buf: string, e: nat) {
    e <= |buf| && (e == |buf| || buf[e] == ')' || buf[e] == '|' || buf[e] == ';' || buf[e] == '&')
  }

  lemma PeekIs(buf: string, s: nat, toks: string)
    requires Firm(buf, s)
    ensures Peek(buf, s, toks) <==> s < |buf| && buf[s] in toks
  {
    FirmSkip(buf, s);
  }

  /** A line in parentheses. */
  predicate Inner(buf: string, s: nat, c: Cmd, e: nat) {
    && s < |buf| && buf[s] == '(' && Firm(buf, s + 1) && ParseLine(buf, s + 1) == Ok(c, e)
    && e < |buf| && buf[e] == ')'
  }

  /** parseblock up to the redirections. */
  lemma BlockOpens(buf: string, s: nat, c: Cmd, e: nat)
    requires Inner(buf, s, c, e) && Firm(buf, e + 1)
    ensures ParseExec(buf, s) ==
              var r := ParseRedirs(buf, e + 1, []);
              if r.Panic? then Panic else Ok(Wrap(c, r.v), r.s)
  {
    hide Skip, GetToken, ParseRedirs, ParseLine, Peek;
    SymbolToken(buf, s);
    SymbolToken(buf, e);
    PeekIs(buf, s, "(");
    PeekIs(buf, e, ")");
  }

  lemma BlockParses(buf: string, s: nat, c: Cmd, e: nat)
    requires Inner(buf, s, c, e) && Stop(buf, e + 1)
    ensures ParseExec(buf, s) == Ok(c, e + 1)
  {
    hide Skip, GetToken, ParseRedirs, ParseLine, Peek, ParseExec;
    BlockOpens(buf, s, c, e);
    NoRedirs(buf, e + 1, []);
  }

  lemma OperatorToken(buf: string, s: nat, kind: Kind)
    requires At(buf, s, Operator(kind)) && s + |Operator(kind)| < |buf| && WordChar(buf[s + |Operator(kind)|])
    ensures var t := GetToken(buf, s);
            && t.next == s + |Operator(kind)|
            && (kind == In <==> t.tok == Sym('<')) && (kind == Out <==> t.tok == Sym('>'))
            && (kind == Append <==> t.tok == Twice)
    ensures Firm(buf, s) && s < |buf| && (buf[s] == '<' || buf[s] == '>')
  {
    AtIndex(buf, s, Operator(kind), 0);
    if kind == Append {
      AtIndex(buf, s, Operator(kind), 1);
    }
    FirmSkip(buf, s);
    FirmSkip(buf, s + |Operator(kind)|);
  }

  lemma OneRedir(buf: string, s: nat, kind: Kind, file: string)
    requires At(buf, s, Operator(kind) + file) && GoodWord(file) && Stop(buf, s + |Operator(kind)| + |file|)
    ensures var f := s + |Operator(kind)|;
            ParseRedirs(buf, s, []) == Ok([Redirection(Span(f, f + |file|), kind)], f + |file|)
  {
    hide Skip, GetToken, Peek, Operator;
    AtParts(buf, s, Operator(kind), file);
    var f := s + |Operator(kind)|;
    AtIndex(buf, f, file, 0);
    OperatorToken(buf, s, kind);
    WordToken(buf, f, file);
    FirmSkip(buf, f + |file|);
    PeekIs(buf, s, "<>");
    NoRedirs(buf, f + |file|, [Redirection(Span(f, f + |file|), kind)]);
    assert [] + [Redirection(Span(f, f + |file|), kind)] == [Redirection(Span(f, f + |file|), kind)];
  }

  lemma BlockRedirects(buf: string, s: nat, c: Cmd, e: nat, kind: Kind, file: string)
    requires Inner(buf, s, c, e) && At(buf, e + 1, Operator(kind) + file) && GoodWord(file)
    requires Stop(buf, e + 1 + |Operator(kind)| + |file|)
    ensures var f := e + 1 + |Operator(kind)|;
            ParseExec(buf, s) == Ok(Redir(c, Redirection(Span(f, f + |file|), kind)), f + |file|)
  {
    hide Skip, GetToken, ParseRedirs, ParseLine, Peek, ParseExec, Operator;
    var f := e + 1 + |Operator(kind)|;
    AtParts(buf, e + 1, Operator(kind), file);
    AtIndex(buf, f, file, 0);
    OperatorToken(buf, e + 1, kind);
    BlockOpens(buf, s, c, e);
    OneRedir(buf, e + 1, kind, file);
    var rs := [Redirection(Span(f, f + |file|), kind)];
    assert Wrap(c, rs[..0]) == c;
  }

  lemma PipeAlone(buf: string, s: nat, c: Cmd, e: nat)
    requires s <= |buf| && ParseExec(buf, s) == Ok(c, e) && Stop(buf, e) && (e < |buf| ==> buf[e] != '|')
    ensures ParsePipe(buf, s) == Ok(c, e)
  {
    hide Skip, GetToken, Peek, ParseExec;
    FirmSkip(buf, e);
    PeekIs(buf, e, "|");
  }

  lemma LineAlone(buf: string, s: nat, c: Cmd, e: nat)
    requires s <= |buf| && ParsePipe(buf, s) == Ok(c, e) && Ends(buf, e)
    ensures ParseLine(buf, s) == Ok(c, e)
  {
    hide Skip, GetToken, Peek, ParseExec, ParsePipe;
    FirmSkip(buf, e);
    PeekIs(buf, e, "&");
    PeekIs(buf, e, ";");
  }

  lemma LineBack(buf: string, s: nat, c: Cmd, e: nat)
    requires s <= |buf| && ParsePipe(buf, s) == Ok(c, e) && e < |buf| && buf[e] == '&' && Ends(buf, e + 1)
    ensures ParseLine(buf, s) == Ok(Back(c), e + 1)
  {
    hide Skip, GetToken, Peek, ParseExec, ParsePipe;
    FirmSkip(buf, e);
    FirmSkip(buf, e + 1);
    SymbolToken(buf, e);
    PeekIs(buf, e, "&");
    PeekIs(buf, e + 1, "&");
    PeekIs(buf, e + 1, ";");
    assert ParseBacks(buf, e + 1, Back(c)) == Ok(Back(c), e + 1);
  }

  lemma PipeTwo(buf: string, s: nat, l: Cmd, m: nat, r: Cmd, e: nat)
    requires s <= |buf| && ParseExec(buf, s) == Ok(l, m) && m < |buf| && buf[m] == '|' && Firm(buf, m + 1)
    requires ParsePipe(buf, m + 1) == Ok(r, e)
    ensures ParsePipe(buf, s) == Ok(Pipe(l, r), e)
  {
    hide Skip, GetToken, Peek, ParseExec;
    SymbolToken(buf, m);
    PeekIs(buf, m, "|");
  }

  lemma LineTwo(buf: string, s: nat, l: Cmd, m: nat, r: Cmd, e: nat)
    requires s <= |buf| && ParsePipe(buf, s) == Ok(l, m) && m < |buf| && buf[m] == ';' && Firm(buf, m + 1)
    requires ParseLine(buf, m + 1) == Ok(r, e)
    ensures ParseLine(buf, s) == Ok(List(l, r), e)
  {
    hide Skip, GetToken, Peek, ParseExec, ParsePipe;
    FirmSkip(buf, m);
    SymbolToken(buf, m);
    PeekIs(buf, m, "&");
    PeekIs(buf, m, ";");
    assert ParseBacks(buf, m, l) == Ok(l, m);
  }

  lemma PrintHead(t: Tree)
    requires Good(t)
    ensures Print(t) == [] || (!Space(Print(t)[0]) && (t.Run? ==> WordChar(Print(t)[0]))
                               && (!t.Run? ==> Print(t)[0] == '('))
  {
    if t.Run? && t.args != [] {
      JoinHead(t.args);
    }
  }

  lemma RunParses(args: seq<string>, buf: string, s: nat)
    requires Good(Run(args)) && At(buf, s, Join(args)) && Ends(buf, s + |Join(args)|)
    ensures s <= |buf| && ParseLine(buf, s) == Ok(Exec(Spans(s, args)), s + |Join(args)|)
    ensures Denotes(buf, Exec(Spans(s, args)), Run(args))
  {
    hide Skip, GetToken, Peek, ParseLine, ParsePipe, ParseRedirs, ParseArgs, At, Join, Spans;
    var e := s + |Join(args)|;
    PrintHead(Run(args));
    assert s <= e <= |buf|;
    if Join(args) != [] {
      AtIndex(buf, s, Join(args), 0);
    }
    PeekIs(buf, s, "(");
    NoRedirs(buf, s, []);
    ArgsParse(buf, s, args, []);
    assert [] + Spans(s, args) == Spans(s, args);
    assert ParseExec(buf, s) == Ok(Exec(Spans(s, args)), e);
    PipeAlone(buf, s, Exec(Spans(s, args)), e);
    LineAlone(buf, s, Exec(Spans(s, args)), e);
    forall i | 0 <= i < |args|
      ensures |Spans(s, args)| == |args| && InLine(buf, Spans(s, args)[i]) && Text(buf, Spans(s, args)[i]) == args[i]
    {
      SpansText(buf, s, args, i);
    }
    assert |Spans(s, args)| == |args| by { SpansLength(s, args); }
  }

  lemma {:induction false} SpansLength(s: nat, args: seq<string>)
    ensures |Spans(s, args)| == |args|
    decreases |args|
  {
    if args != [] {
      SpansLength(s + |args[0]| + 1, args[1..]);
    }
  }

  lemma EnclosedLength(t: Tree)
    ensures |Enclosed(t)| == |Print(t)| + 2
  {
  }

  lemma AtText(buf: string, s: nat, x: string)
    requires At(buf, s, x)
    ensures InLine(buf, Span(s, s + |x|)) && Text(buf, Span(s, s + |x|)) == x
  {
  }

  function Size(t: Tree): nat {
    match t
    case Run(_) => 1
    case Redirect(c, _, _) => Size(c) + 1
    case Piped(l, r) => Size(l) + Size(r) + 1
    case Then(l, r) => Size(l) + Size(r) + 1
    case Behind(c) => Size(c) + 1
  }

  lemma RedirectParses(t: Tree, file: string, kind: Kind, buf: string, s: nat, inner: Cmd) returns (c: Cmd)
    requires Good(Redirect(t, file, kind)) && At(buf, s, Print(Redirect(t, file, kind)))
    requires Ends(buf, s + |Print(Redirect(t, file, kind))|)
    requires Inner(buf, s, inner, s + 1 + |Print(t)|) && Denotes(buf, inner, t)
    ensures ParseLine(buf, s) == Ok(c, s + |Print(Redirect(t, file, kind))|) && Denotes(buf, c, Redirect(t, file, kind))
  {
    hide ParseLine, ParsePipe, ParseExec, At, Enclosed, Inner;
    assert Enclosed(t) + Operator(kind) + file == Enclosed(t) + (Operator(kind) + file);
    AtParts(buf, s, Enclosed(t), Operator(kind) + file);
    EnclosedLength(t);
    BlockRedirects(buf, s, inner, s + 1 + |Print(t)|, kind, file);
    var f := s + |Enclosed(t)| + |Operator(kind)|;
    c := Redir(inner, Redirection(Span(f, f + |file|), kind));
    InnerStart(buf, s, inner, s + 1 + |Print(t)|);
    PipeAlone(buf, s, c, f + |file|);
    LineAlone(buf, s, c, f + |file|);
    AtParts(buf, s + |Enclosed(t)|, Operator(kind), file);
    AtText(buf, f, file);
  }

  lemma InnerStart(buf: string, s: nat, c: Cmd, e: nat)
    requires Inner(buf, s, c, e)
    ensures s <= |buf|
  {
  }

  lemma BehindParses(t: Tree, buf: string, s: nat, inner: Cmd)
    requires At(buf, s, Print(Behind(t))) && Ends(buf, s + |Print(Behind(t))|)
    requires Inner(buf, s, inner, s + 1 + |Print(t)|)
    ensures s <= |buf| && ParseLine(buf, s) == Ok(Back(inner), s + |Print(Behind(t))|)
  {
    hide ParseLine, ParsePipe, ParseExec, At, Enclosed, Inner;
    AtParts(buf, s, Enclosed(t), ['&']);
    EnclosedLength(t);
    AtChar(buf, s + |Enclosed(t)|, '&');
    InnerStart(buf, s, inner, s + 1 + |Print(t)|);
    BlockParses(buf, s, inner, s + 1 + |Print(t)|);
    PipeAlone(buf, s, inner, s + |Enclosed(t)|);
    LineBack(buf, s, inner, s + |Enclosed(t)|);
  }

  /** Two commands in parentheses with a symbol between them. */
  lemma TwoParse(l: Tree, r: Tree, op: char, buf: string, s: nat, left: Cmd, right: Cmd)
    requires (op == '|' || op == ';') && At(buf, s, Enclosed(l) + [op] + Enclosed(r))
    requires Ends(buf, s + |Enclosed(l) + [op] + Enclosed(r)|)
    requires Inner(buf, s, left, s + 1 + |Print(l)|)
    requires Inner(buf, s + |Enclosed(l)| + 1, right, s + |Enclosed(l)| + 2 + |Print(r)|)
    ensures var m, e := s + |Enclosed(l)|, s + |Enclosed(l)| + 1 + |Enclosed(r)|;
            && s <= |buf| && m < |buf| && buf[m] == op && Firm(buf, m + 1)
            && ParseExec(buf, s) == Ok(left, m) && ParseExec(buf, m + 1) == Ok(right, e)
  {
    hide ParseLine, ParsePipe, ParseExec, At, Enclosed, Print;
    var m := s + |Enclosed(l)|;
    AtParts(buf, s, Enclosed(l) + [op], Enclosed(r));
    AtParts(buf, s, Enclosed(l), [op]);
    AtChar(buf, m, op);
    EnclosedLength(l);
    EnclosedLength(r);
    BlockParses(buf, s, left, s + 1 + |Print(l)|);
    BlockParses(buf, m + 1, right, m + 2 + |Print(r)|);
  }

  lemma PipedParses(l: Tree, r: Tree, buf: string, s: nat, left: Cmd, right: Cmd)
    requires At(buf, s, Print(Piped(l, r))) && Ends(buf, s + |Print(Piped(l, r))|)
    requires Inner(buf, s, left, s + 1 + |Print(l)|)
    requires Inner(buf, s + |Enclosed(l)| + 1, right, s + |Enclosed(l)| + 2 + |Print(r)|)
    ensures s <= |buf| && ParseLine(buf, s) == Ok(Pipe(left, right), s + |Print(Piped(l, r))|)
  {
    hide ParseLine, ParsePipe, ParseExec, At, Enclosed, Inner;
    TwoParse(l, r, '|', buf, s, left, right);
    var m, e := s + |Enclosed(l)|, s + |Enclosed(l)| + 1 + |Enclosed(r)|;
    PipeAlone(buf, m + 1, right, e);
    PipeTwo(buf, s, left, m, right, e);
    LineAlone(buf, s, Pipe(left, right), e);
  }

  lemma ThenParses(l: Tree, r: Tree, buf: string, s: nat, left: Cmd, right: Cmd)
    requires At(buf, s, Print(Then(l, r))) && Ends(buf, s + |Print(Then(l, r))|)
    requires Inner(buf, s, left, s + 1 + |Print(l)|)
    requires Inner(buf, s + |Enclosed(l)| + 1, right, s + |Enclosed(l)| + 2 + |Print(r)|)
    ensures s <= |buf| && ParseLine(buf, s) == Ok(List(left, right), s + |Print(Then(l, r))|)
  {
    hide ParseLine, ParsePipe, ParseExec, At, Enclosed, Inner;
    TwoParse(l, r, ';', buf, s, left, right);
    var m, e := s + |Enclosed(l)|, s + |Enclosed(l)| + 1 + |Enclosed(r)|;
    PipeAlone(buf, s, left, m);
    PipeAlone(buf, m + 1, right, e);
    LineAlone(buf, m + 1, right, e);
    LineTwo(buf, s, left, m, right, e);
  }

  /** A command in parentheses. */
  lemma {:induction false} EnclosedParses(t: Tree, buf: string, s: nat) returns (c: Cmd)
    requires Good(t) && At(buf, s, Enclosed(t))
    ensures Inner(buf, s, c, s + 1 + |Print(t)|) && Denotes(buf, c, t)
    decreases Size(t), 2
  {
    hide ParseLine, Denotes, At, Print;
    AtParts(buf, s, ['('] + Print(t), [')']);
    AtParts(buf, s, ['('], Print(t));
    AtChar(buf, s, '(');
    AtChar(buf, s + 1 + |Print(t)|, ')');
    PrintHead(t);
    if Print(t) != [] {
      AtIndex(buf, s + 1, Print(t), 0);
    }
    c := PrintParses(t, buf, s + 1);
  }

  /** Both commands of a pipe or a list. */
  lemma {:induction false} BothParse(l: Tree, r: Tree, op: char, buf: string, s: nat) returns (left: Cmd, right: Cmd)
    requires Good(l) && Good(r) && At(buf, s, Enclosed(l) + [op] + Enclosed(r))
    ensures Inner(buf, s, left, s + 1 + |Print(l)|)
    ensures Inner(buf, s + |Enclosed(l)| + 1, right, s + |Enclosed(l)| + 2 + |Print(r)|)
    ensures Denotes(buf, left, l) && Denotes(buf, right, r)
    decreases Size(l) + Size(r), 3
  {
    hide At, Enclosed, Denotes, Inner, Print;
    AtParts(buf, s, Enclosed(l) + [op], Enclosed(r));
    AtParts(buf, s, Enclosed(l), [op]);
    left := EnclosedParses(l, buf, s);
    right := EnclosedParses(r, buf, s + |Enclosed(l)| + 1);
  }

  /** Parsing the printing of a command, up to the end of the line or a closing
      parenthesis, gives the command back. */
  lemma {:induction false} PrintParses(t: Tree, buf: string, s: nat) returns (c: Cmd)
    requires Good(t) && At(buf, s, Print(t)) && Ends(buf, s + |Print(t)|)
    ensures s <= |buf| && ParseLine(buf, s) == Ok(c, s + |Print(t)|) && Denotes(buf, c, t)
    decreases Size(t), 1
  {
    hide ParseLine, At, Enclosed, Inner;
    match t
    case Run(args) =>
      RunParses(args, buf, s);
      c := Exec(Spans(s, args));
    case Redirect(d, file, kind) =>
      assert Enclosed(d) + Operator(kind) + file == Enclosed(d) + (Operator(kind) + file);
      AtParts(buf, s, Enclosed(d), Operator(kind) + file);
      var inner := EnclosedParses(d, buf, s);
      InnerStart(buf, s, inner, s + 1 + |Print(d)|);
      c := RedirectParses(d, file, kind, buf, s, inner);
    case Behind(d) =>
      AtParts(buf, s, Enclosed(d), ['&']);
      var inner := EnclosedParses(d, buf, s);
      BehindParses(d, buf, s, inner);
      c := Back(inner);
    case Piped(l, r) =>
      var left, right := BothParse(l, r, '|', buf, s);
      PipedParses(l, r, buf, s, left, right);
      c := Pipe(left, right);
    case Then(l, r) =>
      var left, right := BothParse(l, r, ';', buf, s);
      ThenParses(l, r, buf, s, left, right);
      c := List(left, right);
  }

  /** The parser reads what is printed: it accepts the printing of every command with good
      words and few enough arguments, and gives the command back. */
  lemma ParsePrint(t: Tree) returns (c: Cmd)
    requires Good(t)
    ensures ParseCmd(Print(t)) == Ok(c, |Print(t)|) && Denotes(Print(t), c, t)
  {
    var buf := Print(t);
    assert buf[0..|buf|] == buf;
    c := PrintParses(t, buf, 0);
    FirmSkip(buf, |buf|);
  }
}
