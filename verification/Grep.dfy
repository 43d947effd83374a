/** Texts cut into pieces. */
module Pieces {

  function Flat(pieces: seq<string>): string {
    if pieces == [] then [] else pieces[0] + Flat(pieces[1..])
  }
}

/** The regular expressions of grep and find (user/grep.c, match to matchstar; user/find.c has
    the same functions).  Patterns and texts are the characters before the NUL. */
module Grep {
  import opened Pieces

  // ---- what a pattern means

  /** One character, any number of them, or the end of the text. */
  datatype Item = One(c: char) | Star(c: char) | End

  /** A pattern's items.  A star applies to the character before it, whatever that is; a
      dollar sign means the end of the text only as the last character. */
  function Items(re: string): (r: seq<Item>)
    ensures re != [] ==> r != []
    decreases |re|
  {
    if re == [] then []
    else if |re| > 1 && re[1] == '*' then [Star(re[0])] + Items(re[2..])
    else if re == "$" then [End]
    else [One(re[0])] + Items(re[1..])
  }

  predicate Fits(c: char, x: char) {
    c == '.' || c == x
  }

  /** The strings that an item stands for. */
  predicate Stands(item: Item, piece: string) {
    match item
    case One(c) => |piece| == 1 && Fits(c, piece[0])
    case Star(c) => forall i :: 0 <= i < |piece| ==> Fits(c, piece[i])
    case End => piece == []
  }

  predicate Spells(items: seq<Item>, pieces: seq<string>) {
    |items| == |pieces| && forall i :: 0 <= i < |items| ==> Stands(items[i], pieces[i])
  }

  /** The items cut a prefix of the text into their pieces; all of the text when they say so. */
  predicate Cuts(items: seq<Item>, pieces: seq<string>, text: string) {
    && Spells(items, pieces) && Flat(pieces) <= text
    && (End in items ==> Flat(pieces) == text)
  }

  ghost predicate Accepts(items: seq<Item>, text: string) {
    exists pieces :: Cuts(items, pieces, text)
  }

  /** Where a match may start: anywhere, or at the beginning after a caret. */
  ghost predicate Found(re: string, text: string) {
    if re != [] && re[0] == '^' then Accepts(Items(re[1..]), text)
    else exists k :: 0 <= k <= |text| && Accepts(Items(re), text[k..])
  }

  // ---- one item at a time

  lemma SpellsFirst(item: Item, items: seq<Item>, pieces: seq<string>)
    requires Spells([item] + items, pieces)
    ensures pieces != [] && Stands(item, pieces[0]) && Spells(items, pieces[1..])
  {
    assert ([item] + items)[0] == item;
    forall i | 0 <= i < |items|
      ensures Stands(items[i], pieces[1..][i])
    {
      assert ([item] + items)[i + 1] == items[i];
    }
  }

  lemma SpellsMore(item: Item, piece: string, items: seq<Item>, pieces: seq<string>)
    requires Stands(item, piece) && Spells(items, pieces)
    ensures Spells([item] + items, [piece] + pieces) && Flat([piece] + pieces) == piece + Flat(pieces)
  {
    assert ([piece] + pieces)[1..] == pieces;
    forall i | 0 <= i < |items| + 1
      ensures Stands(([item] + items)[i], ([piece] + pieces)[i])
    {
      assert i > 0 ==> Stands(items[i - 1], pieces[i - 1]);
    }
  }

  lemma FirstPiece(item: Item, items: seq<Item>, text: string) returns (m: nat)
    requires item != End && Accepts([item] + items, text)
    ensures m <= |text| && Stands(item, text[..m]) && Accepts(items, text[m..])
  {
    hide Stands, Spells, Flat;
    var pieces :| Cuts([item] + items, pieces, text);
    SpellsFirst(item, items, pieces);
    m := |pieces[0]|;
    FlatFirst(pieces);
    CutOff(pieces[0], Flat(pieces[1..]), text);
    assert End in items ==> End in [item] + items;
    assert Cuts(items, pieces[1..], text[m..]);
  }

  lemma FlatFirst(pieces: seq<string>)
    requires pieces != []
    ensures Flat(pieces) == pieces[0] + Flat(pieces[1..])
  {
  }

  lemma CutOff(a: string, b: string, text: string)
    requires a + b <= text
    ensures |a| <= |text| && text[..|a|] == a && b <= text[|a|..]
    ensures a + b == text ==> b == text[|a|..]
  {
    assert forall i :: 0 <= i < |b| ==> text[|a|..][i] == (a + b)[|a| + i];
  }

  lemma MorePieces(item: Item, items: seq<Item>, text: string, m: nat)
    requires item != End && m <= |text| && Stands(item, text[..m]) && Accepts(items, text[m..])
    ensures Accepts([item] + items, text)
  {
    hide Stands, Spells, Flat;
    var pieces :| Cuts(items, pieces, text[m..]);
    SpellsMore(item, text[..m], items, pieces);
    assert text == text[..m] + text[m..];
    assert Cuts([item] + items, [text[..m]] + pieces, text);
  }

  /** The first item stands for some prefix, and the others accept what is left. */
  lemma AcceptsFirst(item: Item, items: seq<Item>, text: string)
    requires item != End
    ensures Accepts([item] + items, text) <==>
      exists m :: 0 <= m <= |text| && Stands(item, text[..m]) && Accepts(items, text[m..])
  {
    hide Accepts, Stands;
    if Accepts([item] + items, text) {
      var m := FirstPiece(item, items, text);
    }
    if m :| 0 <= m <= |text| && Stands(item, text[..m]) && Accepts(items, text[m..]) {
      MorePieces(item, items, text, m);
    }
  }

  lemma AcceptsNone(text: string)
    ensures Accepts([], text)
  {
    assert Cuts([], [], text);
  }

  lemma AcceptsEnd(text: string)
    ensures Accepts([End], text) <==> text == []
  {
    if Accepts([End], text) {
      var pieces :| Cuts([End], pieces, text);
      assert End in [End];
      assert [End] + [] == [End];
      SpellsFirst(End, [], pieces);
      assert pieces[1..] == [];
      assert Flat(pieces) == pieces[0] + Flat([]) == [];
    }
    if text == [] {
      var pieces: seq<string> := [[]];
      assert pieces[1..] == [] && Flat(pieces) == [];
      assert Cuts([End], pieces, text);
    }
  }

  lemma AcceptsOne(c: char, items: seq<Item>, text: string)
    ensures Accepts([One(c)] + items, text) <==> text != [] && Fits(c, text[0]) && Accepts(items, text[1..])
  {
    AcceptsFirst(One(c), items, text);
    if text != [] && Fits(c, text[0]) && Accepts(items, text[1..]) {
      assert Stands(One(c), text[..1]);
    }
  }

  // ---- the functions of grep.c

  /** match. */
  method Match(re: string, text: string) returns (r: bool)
    ensures r <==> Found(re, text)
  {
    if re != [] && re[0] == '^' {
      r := MatchHere(re[1..], text);
      return;
    }
    var i := 0;
    while true
      invariant 0 <= i <= |text|
      invariant forall k :: 0 <= k < i ==> !Accepts(Items(re), text[k..])
      decreases |text| - i
    {
      var here := MatchHere(re, text[i..]);
      if here {
        return true;
      }
      if i == |text| {
        return false;
      }
      i := i + 1;
    }
  }

  method MatchHere(re: string, text: string) returns (r: bool)
    ensures r <==> Accepts(Items(re), text)
    decreases |re|, 0
  {
    hide Accepts;
    if re == [] {
      AcceptsNone(text);
      return true;
    }
    if |re| > 1 && re[1] == '*' {
      r := MatchStar(re[0], re[2..], text);
      return;
    }
    if re == "$" {
      AcceptsEnd(text);
      return text == [];
    }
    AcceptsOne(re[0], Items(re[1..]), text);
    if text != [] && (re[0] == '.' || re[0] == text[0]) {
      r := MatchHere(re[1..], text[1..]);
      return;
    }
    return false;
  }

  method MatchStar(c: char, re: string, text: string) returns (r: bool)
    ensures r <==> Accepts([Star(c)] + Items(re), text)
    decreases |re|, 1
  {
    hide Accepts, Items;
    AcceptsFirst(Star(c), Items(re), text);
    var i := 0;
    while true
      invariant 0 <= i <= |text| && Stands(Star(c), text[..i])
      invariant forall m :: 0 <= m < i ==> !Accepts(Items(re), text[m..])
      decreases |text| - i
    {
      var here := MatchHere(re, text[i..]);
      if here {
        return true;
      }
      if i == |text| || !(text[i] == c || c == '.') {
        assert forall m :: i < m <= |text| ==> !Stands(Star(c), text[..m]) by { StarEnds(c, text, i); }
        return false;
      }
      i := i + 1;
    }
  }

  lemma StarEnds(c: char, text: string, i: nat)
    requires i <= |text| && (i == |text| || !Fits(c, text[i]))
    ensures forall m :: i < m <= |text| ==> !Stands(Star(c), text[..m])
  {
    forall m | i < m <= |text|
      ensures !Stands(Star(c), text[..m])
    {
      assert text[..m][i] == text[i];
    }
  }
}
