/** The free-block bitmap of kernel/fs.c: bit `b % 8` of byte `b % BPB / 8` of bitmap
    block `b / BPB` tells whether disk block `b` is in use. */
module Bitmap {

  const BPB := 8192

  type BitBlock = b: seq<bv8> | |b| == 1024 witness seq(1024, i => 0)

  /** The mask `1 << i` of balloc and bfree. */
  function Mask(i: nat): bv8
    requires i < 8
  {
    1 << i
  }

  predicate Covers(bm: seq<BitBlock>, b: int) {
    0 <= b < 8192 * |bm|
  }

  predicate Bit(bm: seq<BitBlock>, b: nat)
    requires Covers(bm, b)
  {
    bm[b / 8192][b % 8192 / 8] & Mask(b % 8) != 0
  }

  function SetBit(bm: seq<BitBlock>, b: nat): (r: seq<BitBlock>)
    requires Covers(bm, b)
    ensures |r| == |bm|
  {
    var blk := bm[b / 8192];
    var i := b % 8192 / 8;
    bm[b / 8192 := blk[i := blk[i] | Mask(b % 8)]]
  }

  function ClearBit(bm: seq<BitBlock>, b: nat): (r: seq<BitBlock>)
    requires Covers(bm, b)
    ensures |r| == |bm|
  {
    var blk := bm[b / 8192];
    var i := b % 8192 / 8;
    bm[b / 8192 := blk[i := blk[i] & !Mask(b % 8)]]
  }

  lemma MaskedByte(x: bv8, i: nat, j: nat)
    requires i < 8 && j < 8
    ensures (x | Mask(i)) & Mask(j) != 0 <==> i == j || x & Mask(j) != 0
    ensures (x & !Mask(i)) & Mask(j) != 0 <==> i != j && x & Mask(j) != 0
  {
    var m, k := Mask(i), Mask(j);
    MaskValues(i);
    MaskValues(j);
    OneBit(x, m, k);
  }

  lemma MaskValues(i: nat)
    requires i < 8
    ensures Mask(i) == [1, 2, 4, 8, 16, 32, 64, 128][i]
  {
  }

  lemma OneBit(x: bv8, m: bv8, k: bv8)
    requires m == 1 || m == 2 || m == 4 || m == 8 || m == 16 || m == 32 || m == 64 || m == 128
    requires k == 1 || k == 2 || k == 4 || k == 8 || k == 16 || k == 32 || k == 64 || k == 128
    ensures (x | m) & k != 0 <==> m == k || x & k != 0
    ensures (x & !m) & k != 0 <==> m != k && x & k != 0
  {
  }

  lemma Split(b: nat)
    ensures b == 8192 * (b / 8192) + 8 * (b % 8192 / 8) + b % 8
  {
    var q, r := b / 8192, b % 8192;
    assert b == 8 * (1024 * q + r / 8) + r % 8;
  }

  /** Two different blocks have different bits. */
  lemma Places(b: nat, c: nat)
    requires b / 8192 == c / 8192 && b % 8192 / 8 == c % 8192 / 8 && b % 8 == c % 8
    ensures b == c
  {
    Split(b);
    Split(c);
  }

  /** Marking a block changes its own bit and no other. */
  lemma BitOfSet(bm: seq<BitBlock>, b: nat, c: nat)
    requires Covers(bm, b) && Covers(bm, c)
    ensures Bit(SetBit(bm, b), c) <==> b == c || Bit(bm, c)
  {
    if b / 8192 == c / 8192 && b % 8192 / 8 == c % 8192 / 8 {
      MaskedByte(bm[b / 8192][b % 8192 / 8], b % 8, c % 8);
      if b % 8 == c % 8 {
        Places(b, c);
      }
    }
  }

  lemma BitOfClear(bm: seq<BitBlock>, b: nat, c: nat)
    requires Covers(bm, b) && Covers(bm, c)
    ensures Bit(ClearBit(bm, b), c) <==> b != c && Bit(bm, c)
  {
    if b / 8192 == c / 8192 && b % 8192 / 8 == c % 8192 / 8 {
      MaskedByte(bm[b / 8192][b % 8192 / 8], b % 8, c % 8);
      if b % 8 == c % 8 {
        Places(b, c);
      }
    }
  }
}
