/** find's glob patterns (user/find.c, globmatch): a star for any string, a question mark for
    any character, other characters for themselves. */
module Glob {
  import opened Pieces

  predicate Stands(p: char, piece: string) {
    match p
    case '*' => true
    case '?' => |piece| == 1
    case _ => piece == [p]
  }

  predicate Spells(pattern: string, pieces: seq<string>) {
    |pattern| == |pieces| && forall i :: 0 <= i < |pattern| ==> Stands(pattern[i], pieces[i])
  }

  /** The text can be cut into one piece for each character of the pattern. */
  ghost predicate Accepts(pattern: string, text: string) {
    exists pieces :: Spells(pattern, pieces) && Flat(pieces) == text
  }

  lemma AcceptsNone(text: string)
    ensures Accepts([], text) <==> text == []
  {
    if text == [] {
      assert Spells([], []) && Flat([]) == text;
    }
  }

  lemma AcceptsFirst(pattern: string, text: string)
    requires pattern != []
    ensures Accepts(pattern, text) <==>
      exists m :: 0 <= m <= |text| && Stands(pattern[0], text[..m]) && Accepts(pattern[1..], text[m..])
  {
    if Accepts(pattern, text) {
      var pieces :| Spells(pattern, pieces) && Flat(pieces) == text;
      var m := |pieces[0]|;
      assert text[..m] == pieces[0] && text[m..] == Flat(pieces[1..]);
      assert Spells(pattern[1..], pieces[1..]);
      assert Stands(pattern[0], text[..m]) && Accepts(pattern[1..], text[m..]);
    }
    if m :| 0 <= m <= |text| && Stands(pattern[0], text[..m]) && Accepts(pattern[1..], text[m..]) {
      var pieces :| Spells(pattern[1..], pieces) && Flat(pieces) == text[m..];
      var all := [text[..m]] + pieces;
      assert all[1..] == pieces && text == text[..m] + text[m..];
      assert Spells(pattern, all) && Flat(all) == text;
    }
  }

  lemma AcceptsChar(pattern: string, text: string)
    requires pattern != [] && pattern[0] != '*'
    ensures Accepts(pattern, text) <==>
              text != [] && (pattern[0] == '?' || pattern[0] == text[0]) && Accepts(pattern[1..], text[1..])
  {
    AcceptsFirst(pattern, text);
    if text != [] && (pattern[0] == '?' || pattern[0] == text[0]) && Accepts(pattern[1..], text[1..]) {
      assert Stands(pattern[0], text[..1]);
    }
  }

  lemma AcceptsStar(pattern: string, text: string)
    requires pattern != [] && pattern[0] == '*'
    ensures Accepts(pattern, text) <==> exists m :: 0 <= m <= |text| && Accepts(pattern[1..], text[m..])
  {
    AcceptsFirst(pattern, text);
    if m :| 0 <= m <= |text| && Accepts(pattern[1..], text[m..]) {
      assert Stands(pattern[0], text[..m]);
    }
  }

  /** A star after a star adds nothing. */
  lemma StarStar(pattern: string, text: string)
    requires |pattern| > 1 && pattern[0] == pattern[1] == '*'
    ensures Accepts(pattern, text) <==> Accepts(pattern[1..], text)
  {
    AcceptsStar(pattern, text);
    AcceptsStar(pattern[1..], text);
    if m :| 0 <= m <= |text| && Accepts(pattern[1..], text[m..]) {
      AcceptsStar(pattern[1..], text[m..]);
      var n :| 0 <= n <= |text[m..]| && Accepts(pattern[1..][1..], text[m..][n..]);
      assert text[m..][n..] == text[m + n..];
    }
    if Accepts(pattern[1..], text) {
      assert text[0..] == text;
    }
  }

  lemma TrailingStar(text: string)
    ensures Accepts("*", text)
  {
    assert Spells("*", [text]) && Flat([text]) == text by { assert [text][1..] == []; }
  }

  /** globmatch: it accepts the pattern's language, although behind a star it does not try
      the empty rest of the text; no rest of a pattern that it tries accepts that. */
  method GlobMatch(pattern: string, text: string) returns (r: bool)
    ensures r <==> Accepts(pattern, text)
    decreases |pattern|
  {
    hide Accepts;
    var p, t := pattern, text;
    while p != []
      invariant |p| <= |pattern| && (Accepts(pattern, text) <==> Accepts(p, t))
      decreases |p|
    {
      if p[0] == '*' {
        while |p| > 1 && p[1] == '*'
          invariant 0 < |p| <= |pattern| && p[0] == '*' && (Accepts(pattern, text) <==> Accepts(p, t))
          decreases |p|
        {
          StarStar(p, t);
          p := p[1..];
        }
        AcceptsStar(p, t);
        ghost var all := t;
        assert |p| == 1 ==> p == "*";
        p := p[1..];
        if p == [] {
          TrailingStar(all);
          return true;
        }
        AcceptsChar(p, []);
        ghost var m := 0;
        while t != []
          invariant 0 <= m <= |all| && t == all[m..]
          invariant forall k :: 0 <= k < m ==> !Accepts(p, all[k..])
          decreases |t|
        {
          var here := GlobMatch(p, t);
          if here {
            return true;
          }
          t := t[1..];
          m := m + 1;
        }
        assert all[|all|..] == [];
        return false;
      } else if p[0] == '?' {
        AcceptsChar(p, t);
        if t == [] {
          return false;
        }
        p, t := p[1..], t[1..];
      } else {
        AcceptsChar(p, t);
        if t == [] || p[0] != t[0] {
          return false;
        }
        p, t := p[1..], t[1..];
      }
    }
    AcceptsNone(t);
    return t == [];
  }
}
