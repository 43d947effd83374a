/** Bytes and the little-endian machine words that kernel structures keep inside
    disk blocks and memory pages. */
module Bytes {

  type Byte = b: int | 0 <= b < 256

  function Pow256(w: nat): (p: nat)
    ensures p >= 1
  {
    if w == 0 then 1 else 256 * Pow256(w - 1)
  }

  /** The number whose little-endian bytes are `s`. */
  function Decode(s: seq<Byte>): nat {
    if s == [] then 0 else s[0] + 256 * Decode(s[1..])
  }

  /** The `w` low-order bytes of `v`, least significant first. */
  function Encode(v: nat, w: nat): (s: seq<Byte>)
    ensures |s| == w
  {
    if w == 0 then [] else [v % 256] + Encode(v / 256, w - 1)
  }

  lemma {:induction false} DecodeEncode(v: nat, w: nat)
    requires v < Pow256(w)
    ensures Decode(Encode(v, w)) == v
  {
    if w > 0 {
      DecodeEncode(v / 256, w - 1);
      assert Encode(v, w)[1..] == Encode(v / 256, w - 1);
    }
  }

  lemma {:induction false} DecodeBound(s: seq<Byte>)
    ensures Decode(s) < Pow256(|s|)
  {
    if s != [] {
      DecodeBound(s[1..]);
    }
  }

  lemma {:induction false} DecodeZero(s: seq<Byte>)
    requires forall i :: 0 <= i < |s| ==> s[i] == 0
    ensures Decode(s) == 0
  {
    if s != [] {
      DecodeZero(s[1..]);
    }
  }

  /** The `w`-byte word stored at byte offset `at`. */
  function Word(b: seq<Byte>, at: nat, w: nat): nat
    requires at + w <= |b|
  {
    Decode(b[at..at + w])
  }

  /** `b` with the `w`-byte word at offset `at` replaced by `v`. */
  function PutWord(b: seq<Byte>, at: nat, w: nat, v: nat): (r: seq<Byte>)
    requires at + w <= |b|
    ensures |r| == |b|
  {
    b[..at] + Encode(v, w) + b[at + w..]
  }

  lemma WordOfPut(b: seq<Byte>, at: nat, w: nat, v: nat)
    requires at + w <= |b| && v < Pow256(w)
    ensures Word(PutWord(b, at, w, v), at, w) == v
  {
    assert PutWord(b, at, w, v)[at..at + w] == Encode(v, w);
    DecodeEncode(v, w);
  }

  lemma WordElsewhere(b: seq<Byte>, at: nat, w: nat, v: nat, at': nat, w': nat)
    requires at + w <= |b| && at' + w' <= |b|
    requires at + w <= at' || at' + w' <= at
    ensures Word(PutWord(b, at, w, v), at', w') == Word(b, at', w')
  {
    assert PutWord(b, at, w, v)[at'..at' + w'] == b[at'..at' + w'];
  }
}
