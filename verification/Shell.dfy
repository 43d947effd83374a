/** The shell's parser (user/sh.c, gettoken to parseexec) as functions over a line and a
    position in it.  A line is the characters before its NUL. */
module Shell {

  const MAXARGS := 10

  predicate Space(c: char) {
    c in " \t\r\n\U{0B}"
  }

  predicate Symbol(c: char) {
    c in "<|>&;()"
  }

  predicate WordChar(c: char) {
    !Space(c) && !Symbol(c)
  }

  /** A token's first character and the one after its last. */
  datatype Span = Span(q: nat, eq: nat)

  datatype Kind = In | Out | Append

  datatype Redirection = Redirection(file: Span, kind: Kind)

  datatype Cmd =
    | Exec(args: seq<Span>)
    | Redir(cmd: Cmd, r: Redirection)
    | Pipe(left: Cmd, right: Cmd)
    | List(left: Cmd, right: Cmd)
    | Back(cmd: Cmd)

  /** A value and where the parser stands, or a panic. */
  datatype Result<T> = Ok(v: T, s: nat) | Panic

  // ---- tokens

  function Skip(buf: string, s: nat): (r: nat)
    requires s <= |buf|
    ensures s <= r <= |buf| && (r < |buf| ==> !Space(buf[r]))
    ensures forall i :: s <= i < r ==> Space(buf[i])
    decreases |buf| - s
  {
    if s < |buf| && Space(buf[s]) then Skip(buf, s + 1) else s
  }

  function WordEnd(buf: string, s: nat): (r: nat)
    requires s <= |buf|
    ensures s <= r <= |buf| && (r < |buf| ==> !WordChar(buf[r]))
    ensures forall i :: s <= i < r ==> WordChar(buf[i])
    decreases |buf| - s
  {
    if s < |buf| && WordChar(buf[s]) then WordEnd(buf, s + 1) else s
  }

  datatype Tok = Eof | Sym(c: char) | Twice | Word

  datatype Token = Token(tok: Tok, span: Span, next: nat)

  /** gettoken. */
  function GetToken(buf: string, s: nat): (t: Token)
    requires s <= |buf|
    ensures s <= t.span.q <= t.span.eq <= t.next <= |buf|
    ensures t.tok != Eof ==> t.span.q < t.span.eq
    ensures t.tok == Word ==> IsWord(buf, t.span)
  {
    var q := Skip(buf, s);
    if q == |buf| then Token(Eof, Span(q, q), q)
    else if buf[q] == '>' && q + 1 < |buf| && buf[q + 1] == '>' then Token(Twice, Span(q, q + 2), Skip(buf, q + 2))
    else if Symbol(buf[q]) then Token(Sym(buf[q]), Span(q, q + 1), Skip(buf, q + 1))
    else
      var eq := WordEnd(buf, q);
      Token(Word, Span(q, eq), Skip(buf, eq))
  }

  /** A word: word characters, up to one that is none. */
  predicate IsWord(buf: string, w: Span) {
    && w.q < w.eq <= |buf|
    && (forall i :: w.q <= i < w.eq ==> WordChar(buf[i]))
    && (w.eq < |buf| ==> !WordChar(buf[w.eq]))
  }

  /** peek's answer; the parser then stands at Skip(buf, s). */
  predicate Peek(buf: string, s: nat, toks: string)
    requires s <= |buf|
  {
    Skip(buf, s) < |buf| && buf[Skip(buf, s)] in toks
  }

  // ---- the parser

  function Wrap(cmd: Cmd, rs: seq<Redirection>): Cmd
    decreases |rs|
  {
    if rs == [] then cmd else Redir(Wrap(cmd, rs[..|rs| - 1]), rs[|rs| - 1])
  }

  /** parseredirs: the redirections, in the order in which they wrap the command. */
  function ParseRedirs(buf: string, s: nat, rs: seq<Redirection>): (r: Result<seq<Redirection>>)
    requires s <= |buf|
    ensures r.Ok? ==> s <= r.s <= |buf|
    decreases |buf| - s
  {
    if !Peek(buf, s, "<>") then Ok(rs, Skip(buf, s))
    else
      var t := GetToken(buf, s);
      var f := GetToken(buf, t.next);
      if f.tok != Word then Panic
      else
        var kind := if t.tok == Twice then Append else if t.tok == Sym('<') then In else Out;
        ParseRedirs(buf, f.next, rs + [Redirection(f.span, kind)])
  }

  datatype Simple = Simple(args: seq<Span>, rs: seq<Redirection>)

  /** The loop of parseexec over arguments and redirections. */
  function ParseArgs(buf: string, s: nat, args: seq<Span>, rs: seq<Redirection>): (r: Result<Simple>)
    requires s <= |buf|
    ensures r.Ok? ==> s <= r.s <= |buf|
    decreases |buf| - s
  {
    if Peek(buf, s, "|)&;") then Ok(Simple(args, rs), Skip(buf, s))
    else
      var t := GetToken(buf, s);
      if t.tok == Eof then Ok(Simple(args, rs), t.next)
      else if t.tok != Word || |args| + 1 >= MAXARGS then Panic
      else
        var r := ParseRedirs(buf, t.next, rs);
        if r.Panic? then Panic else ParseArgs(buf, r.s, args + [t.span], r.v)
  }

  function ParseExec(buf: string, s: nat): (r: Result<Cmd>)
    requires s <= |buf|
    ensures r.Ok? ==> s <= r.s <= |buf|
    decreases |buf| - s, 2
  {
    if Peek(buf, s, "(") then ParseBlock(buf, s)
    else
      var r := ParseRedirs(buf, s, []);
      if r.Panic? then Panic
      else
        var a := ParseArgs(buf, r.s, [], r.v);
        if a.Panic? then Panic else Ok(Wrap(Exec(a.v.args), a.v.rs), a.s)
  }

  function ParseBlock(buf: string, s: nat): (r: Result<Cmd>)
    requires s <= |buf|
    ensures r.Ok? ==> s <= r.s <= |buf|
    decreases |buf| - s, 1
  {
    if !Peek(buf, s, "(") then Panic
    else
      var line := ParseLine(buf, GetToken(buf, s).next);
      if line.Panic? || !Peek(buf, line.s, ")") then Panic
      else
        var r := ParseRedirs(buf, GetToken(buf, line.s).next, []);
        if r.Panic? then Panic else Ok(Wrap(line.v, r.v), r.s)
  }

  function ParsePipe(buf: string, s: nat): (r: Result<Cmd>)
    requires s <= |buf|
    ensures r.Ok? ==> s <= r.s <= |buf|
    decreases |buf| - s, 3
  {
    var left := ParseExec(buf, s);
    if left.Panic? then Panic
    else if !Peek(buf, left.s, "|") then Ok(left.v, Skip(buf, left.s))
    else
      var right := ParsePipe(buf, GetToken(buf, left.s).next);
      if right.Panic? then Panic else Ok(Pipe(left.v, right.v), right.s)
  }

  /** The loop of parseline over ampersands. */
  function ParseBacks(buf: string, s: nat, cmd: Cmd): (r: Result<Cmd>)
    requires s <= |buf|
    ensures r.Ok? && s <= r.s <= |buf|
    decreases |buf| - s
  {
    if !Peek(buf, s, "&") then Ok(cmd, Skip(buf, s)) else ParseBacks(buf, GetToken(buf, s).next, Back(cmd))
  }

  function ParseLine(buf: string, s: nat): (r: Result<Cmd>)
    requires s <= |buf|
    ensures r.Ok? ==> s <= r.s <= |buf|
    decreases |buf| - s, 4
  {
    var first := ParsePipe(buf, s);
    if first.Panic? then Panic
    else
      var left := ParseBacks(buf, first.s, first.v);
      if !Peek(buf, left.s, ";") then Ok(left.v, Skip(buf, left.s))
      else
        var right := ParseLine(buf, GetToken(buf, left.s).next);
        if right.Panic? then Panic else Ok(List(left.v, right.v), right.s)
  }

  /** parsecmd, up to nulterminate. */
  function ParseCmd(buf: string): (r: Result<Cmd>)
    ensures r.Ok? ==> r.s == |buf|
  {
    var r := ParseLine(buf, 0);
    if r.Panic? || Skip(buf, r.s) != |buf| then Panic else Ok(r.v, |buf|)
  }
}
