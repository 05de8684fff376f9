/**
  The Flip-N-Write encoder: a partition of a word that would change more than half of its bits is stored
  inverted and flagged.  Undoing the flagged partitions of what is stored always gives back what was written
  last, and the encoder never counts more bits than plain writing would.
*/
module FlipNWrite {
  import opened Arithmetic

  // A byte is eight bits, the least significant one first.
  type Byte = b: seq<bool> | |b| == 8 witness [false, false, false, false, false, false, false, false]
  type Block = seq<Byte>

  // fpSize is the number of bits in a partition, wordSize the bytes of a word, cols the words of a row.
  datatype Params = Params(fpSize: nat, wordSize: nat, cols: nat)

  predicate Good(p: Params) {
    p.fpSize >= 8 && p.fpSize % 8 == 0 && (p.wordSize * 8) % p.fpSize == 0
  }

  function PartBytes(p: Params): (n: nat)
    requires Good(p)
    ensures n >= 1
  {
    p.fpSize / 8
  }

  function Parts(p: Params): nat
    requires Good(p)
  {
    (p.wordSize * 8) / p.fpSize
  }

  function RowBits(p: Params): nat { (p.cols * p.wordSize) * 8 }

  function RowParts(p: Params): nat
    requires p.fpSize >= 1
  {
    RowBits(p) / p.fpSize
  }

  lemma WordIsParts(p: Params)
    requires Good(p)
    ensures p.wordSize == Parts(p) * PartBytes(p) && p.wordSize * 8 == Parts(p) * p.fpSize
  {
    var f := PartBytes(p);
    assert p.fpSize == 8 * f;
    assert p.wordSize * 8 == Parts(p) * p.fpSize;
    assert Parts(p) * (8 * f) == 8 * (Parts(p) * f);
  }

  lemma RowIsWords(p: Params)
    requires Good(p)
    ensures RowParts(p) == p.cols * Parts(p)
  {
    WordIsParts(p);
    var n := RowBits(p);
    assert n == p.cols * (p.wordSize * 8);
    assert p.cols * (Parts(p) * p.fpSize) == (p.cols * Parts(p)) * p.fpSize;
    Split(n, p.fpSize, p.cols * Parts(p), 0);
  }

  // ----- Keys -----

  function Key(p: Params, row: nat, col: nat, i: nat): nat
    requires Good(p)
  {
    row * RowParts(p) + col * Parts(p) + i
  }

  // No two partitions share a key.
  lemma KeysDiffer(p: Params, row: nat, col: nat, i: nat, row': nat, col': nat, i': nat)
    requires Good(p) && col < p.cols && col' < p.cols && i < Parts(p) && i' < Parts(p)
    requires Key(p, row, col, i) == Key(p, row', col', i')
    ensures row == row' && col == col' && i == i'
  {
    RowIsWords(p);
    var n := Parts(p);
    hide Parts, Good;
    Distribute(row, p.cols, col, n);
    Distribute(row', p.cols, col', n);
    Split(Key(p, row, col, i), n, row * p.cols + col, i);
    Split(Key(p, row', col', i'), n, row' * p.cols + col', i');
    Split(row * p.cols + col, p.cols, row, col);
    Split(row' * p.cols + col', p.cols, row', col');
  }

  // ----- Inverting -----

  // Every bit is complemented, and the bits change places end to end.
  function FlipByte(b: Byte): (r: Byte)
    ensures forall j :: 0 <= j < 8 ==> r[j] == !b[7 - j]
  {
    [!b[7], !b[6], !b[5], !b[4], !b[3], !b[2], !b[1], !b[0]]
  }

  lemma FlipTwice(b: Byte)
    ensures FlipByte(FlipByte(b)) == b
  {
  }

  // What becomes of byte i: a bit of the range is complemented into its mirrored place, any other is lost.
  function InvertedByte(b: Byte, i: nat, startBit: nat, endBit: nat): Byte {
    seq(8, j requires 0 <= j < 8 => startBit <= i * 8 + (7 - j) < endBit && !b[7 - j])
  }

  function Inverted(block: Block, startBit: nat, endBit: nat): (r: Block)
    requires startBit < endBit
    ensures |r| == |block|
  {
    seq(|block|, k requires 0 <= k < |block| =>
      if startBit / 8 <= k <= (endBit - 1) / 8 then InvertedByte(block[k], k, startBit, endBit) else block[k])
  }

  lemma InvertedAt(block: Block, first: nat, last: nat, k: nat)
    requires first < last && k < |block|
    ensures Inverted(block, first * 8, last * 8)[k] == if first <= k < last then FlipByte(block[k]) else block[k]
  {
    assert (last * 8 - 1) / 8 == last - 1 && first * 8 / 8 == first;
    if first <= k < last {
      assert InvertedByte(block[k], k, first * 8, last * 8) == FlipByte(block[k]);
    }
  }

  // On whole bytes inverting flips those bytes and leaves the others, so doing it twice does nothing.
  lemma InvertedWholeBytes(block: Block, first: nat, last: nat)
    requires first < last
    ensures var r := Inverted(block, first * 8, last * 8);
      && (forall k :: 0 <= k < |block| ==> r[k] == if first <= k < last then FlipByte(block[k]) else block[k])
      && Inverted(r, first * 8, last * 8) == block
  {
    hide Inverted, FlipByte;
    var r := Inverted(block, first * 8, last * 8);
    forall k: nat | k < |block| ensures r[k] == if first <= k < last then FlipByte(block[k]) else block[k] {
      InvertedAt(block, first, last, k);
    }
    forall k: nat | k < |block| ensures Inverted(r, first * 8, last * 8)[k] == block[k] {
      InvertedAt(r, first, last, k);
      FlipTwice(block[k]);
    }
  }

  // ----- Counting modified bits -----

  predicate Differs(a: Block, b: Block, k: nat)
    requires k < |a| * 8 && |a| == |b|
  {
    a[k / 8][k % 8] != b[k / 8][k % 8]
  }

  // The partition a bit lies in.
  function PartOf(fp: nat, bit: nat): nat
    requires fp >= 1
  {
    bit / fp
  }

  // How many of the first n bits differ and lie in partition i.
  function Modified(fp: nat, a: Block, b: Block, i: nat, n: nat): nat
    requires fp >= 1 && |a| == |b| && n <= |a| * 8
  {
    if n == 0 then 0 else Modified(fp, a, b, i, n - 1) + One(PartOf(fp, n - 1) == i && Differs(a, b, n - 1))
  }

  lemma PartBounds(fp: nat, bit: nat, lo: nat, i: nat)
    requires fp >= 1 && lo == i * fp
    ensures PartOf(fp, bit) == i ==> lo <= bit < lo + fp
  {
    assert bit == (bit / fp) * fp + bit % fp;
  }

  // At most all bits of a partition are modified; its first bit is `lo`.
  lemma {:induction false} ModifiedFrom(fp: nat, a: Block, b: Block, i: nat, lo: nat, n: nat)
    requires fp >= 1 && |a| == |b| && n <= |a| * 8 && lo == i * fp
    ensures n <= lo ==> Modified(fp, a, b, i, n) == 0
    ensures lo <= n <= lo + fp ==> Modified(fp, a, b, i, n) <= n - lo
    ensures Modified(fp, a, b, i, n) <= fp
  {
    if n > 0 {
      ModifiedFrom(fp, a, b, i, lo, n - 1);
      PartBounds(fp, n - 1, lo, i);
      hide Differs, PartOf;
    }
  }

  lemma ModifiedBound(fp: nat, a: Block, b: Block, i: nat, n: nat)
    requires fp >= 1 && |a| == |b| && n <= |a| * 8
    ensures Modified(fp, a, b, i, n) <= fp
  {
    ModifiedFrom(fp, a, b, i, i * fp, n);
  }

  lemma ModifiedNext(fp: nat, a: Block, b: Block, i: nat, n: nat)
    requires fp >= 1 && |a| == |b| && n < |a| * 8
    ensures Modified(fp, a, b, i, n + 1) == Modified(fp, a, b, i, n) + One(PartOf(fp, n) == i && Differs(a, b, n))
  {
  }

  lemma {:induction false} SameBitsAddNothing(fp: nat, a: Block, b: Block, i: nat, n: nat, m: nat)
    requires fp >= 1 && |a| == |b| && n + m <= |a| * 8
    requires forall k: nat :: n <= k < n + m ==> !Differs(a, b, k)
    ensures Modified(fp, a, b, i, n + m) == Modified(fp, a, b, i, n)
    decreases m
  {
    if m > 0 {
      SameBitsAddNothing(fp, a, b, i, n, m - 1);
    }
  }

  // ----- One write -----

  datatype Encoder = Encoder(flipped: set<nat>, bitsFlipped: nat, bitCompareSwapWrites: nat)

  // The block with the flagged ones of its first n partitions inverted.
  function Undone(f: nat, flipped: set<nat>, base: nat, block: Block, n: nat): (r: Block)
    requires f >= 1
    ensures |r| == |block|
  {
    seq(|block|, k requires 0 <= k < |block| =>
      if k / f < n && base + k / f in flipped then FlipByte(block[k]) else block[k])
  }

  // The block with those of its first n partitions inverted that have too many modified bits.
  function Encoded(f: nat, heavy: set<nat>, block: Block, n: nat): (r: Block)
    requires f >= 1
    ensures |r| == |block|
  {
    seq(|block|, k requires 0 <= k < |block| => if k / f < n && k / f in heavy then FlipByte(block[k]) else block[k])
  }

  // The partitions more than half of whose bits are modified.
  function Heavy(p: Params, cells: Block, data: Block): set<nat>
    requires Good(p) && |cells| == |data| == p.wordSize
  {
    set i | 0 <= i < Parts(p) && Modified(p.fpSize, cells, data, i, p.wordSize * 8) > p.fpSize / 2
  }

  function Flagged(flipped: set<nat>, base: nat, heavy: set<nat>, n: nat): set<nat> {
    (set k | k in flipped && !(base <= k < base + n)) + (set i | i in heavy && i < n :: base + i)
  }

  // Bits counted for the first n partitions: plainly, and with inversion.
  function Plain(p: Params, cells: Block, data: Block, n: nat): nat
    requires Good(p) && |cells| == |data| == p.wordSize
  {
    if n == 0 then 0 else Plain(p, cells, data, n - 1) + Modified(p.fpSize, cells, data, n - 1, p.wordSize * 8)
  }

  function Saved(p: Params, cells: Block, data: Block, n: nat): nat
    requires Good(p) && |cells| == |data| == p.wordSize
  {
    if n == 0 then 0
    else
      var c := Modified(p.fpSize, cells, data, n - 1, p.wordSize * 8);
      ModifiedBound(p.fpSize, cells, data, n - 1, p.wordSize * 8);
      Saved(p, cells, data, n - 1) + if c > p.fpSize / 2 then p.fpSize - c else c
  }

  // Inverting never costs more than writing plainly, nor more than half a partition's bits each.
  lemma {:induction false} SavedBounds(p: Params, cells: Block, data: Block, n: nat)
    requires Good(p) && |cells| == |data| == p.wordSize
    ensures Saved(p, cells, data, n) <= Plain(p, cells, data, n)
    ensures Saved(p, cells, data, n) <= n * (p.fpSize / 2)
  {
    if n > 0 {
      SavedBounds(p, cells, data, n - 1);
      ModifiedBound(p.fpSize, cells, data, n - 1, p.wordSize * 8);
      assert n * (p.fpSize / 2) == (n - 1) * (p.fpSize / 2) + p.fpSize / 2;
    }
  }

  // The cells hold the old data with its flagged partitions inverted; the new data replaces it.
  function Cells(p: Params, e: Encoder, row: nat, col: nat, oldData: Block): (r: Block)
    requires Good(p)
    ensures |r| == |oldData|
  {
    Undone(PartBytes(p), e.flipped, Key(p, row, col, 0), oldData, Parts(p))
  }

  function Written(p: Params, e: Encoder, row: nat, col: nat, oldData: Block, newData: Block): (r: (Encoder, Block))
    requires Good(p) && |oldData| == |newData| == p.wordSize
    ensures |r.1| == p.wordSize
  {
    var cells := Cells(p, e, row, col, oldData);
    var heavy := Heavy(p, cells, newData);
    (Encoder(Flagged(e.flipped, Key(p, row, col, 0), heavy, Parts(p)),
             e.bitsFlipped + Saved(p, cells, newData, Parts(p)),
             e.bitCompareSwapWrites + Plain(p, cells, newData, Parts(p))),
     Encoded(PartBytes(p), heavy, newData, Parts(p)))
  }

  // What a reader sees: the stored block with its flagged partitions undone.
  function Decoded(p: Params, e: Encoder, row: nat, col: nat, stored: Block): Block
    requires Good(p)
  {
    Undone(PartBytes(p), e.flipped, Key(p, row, col, 0), stored, Parts(p))
  }

  // Undoing twice does nothing.
  lemma UndoneTwice(f: nat, flipped: set<nat>, base: nat, block: Block, n: nat)
    requires f >= 1
    ensures Undone(f, flipped, base, Undone(f, flipped, base, block, n), n) == block
  {
    forall k | 0 <= k < |block| ensures Undone(f, flipped, base, Undone(f, flipped, base, block, n), n)[k] == block[k] {
      FlipTwice(block[k]);
    }
  }

  lemma UndoneAt(f: nat, flipped: set<nat>, base: nat, block: Block, n: nat, k: nat)
    requires f >= 1 && k < |block|
    ensures Undone(f, flipped, base, block, n)[k] ==
            if k / f < n && base + k / f in flipped then FlipByte(block[k]) else block[k]
  {
  }

  lemma EncodedAt(f: nat, heavy: set<nat>, block: Block, n: nat, k: nat)
    requires f >= 1 && k < |block|
    ensures Encoded(f, heavy, block, n)[k] == if k / f < n && k / f in heavy then FlipByte(block[k]) else block[k]
  {
  }

  lemma FlaggedAt(flipped: set<nat>, base: nat, heavy: set<nat>, n: nat, i: nat)
    requires i < n
    ensures base + i in Flagged(flipped, base, heavy, n) <==> i in heavy
  {
  }

  // Undoing by the new flags undoes the encoding.
  lemma UndoneEncoded(f: nat, flipped: set<nat>, base: nat, heavy: set<nat>, block: Block, n: nat)
    requires f >= 1
    ensures Undone(f, Flagged(flipped, base, heavy, n), base, Encoded(f, heavy, block, n), n) == block
  {
    hide Undone, Encoded, Flagged, FlipByte;
    var stored := Encoded(f, heavy, block, n);
    var flags := Flagged(flipped, base, heavy, n);
    forall k: nat | k < |block| ensures Undone(f, flags, base, stored, n)[k] == block[k] {
      UndoneAt(f, flags, base, stored, n, k);
      EncodedAt(f, heavy, block, n, k);
      FlipTwice(block[k]);
      if k / f < n {
        FlaggedAt(flipped, base, heavy, n, k / f);
      }
    }
  }

  // The word just written decodes to the data written.
  lemma WrittenDecodes(p: Params, e: Encoder, row: nat, col: nat, oldData: Block, newData: Block)
    requires Good(p) && |oldData| == |newData| == p.wordSize
    ensures var (e', stored) := Written(p, e, row, col, oldData, newData);
      Decoded(p, e', row, col, stored) == newData
  {
    hide Undone, Encoded, Flagged, Heavy, Saved, Plain, Good, Parts, PartBytes, Key, Cells;
    var heavy := Heavy(p, Cells(p, e, row, col, oldData), newData);
    UndoneEncoded(PartBytes(p), e.flipped, Key(p, row, col, 0), heavy, newData, Parts(p));
  }

  // The flags of another word stay as they are.
  lemma OthersKeepFlags(p: Params, flipped: set<nat>, heavy: set<nat>, row: nat, col: nat, row': nat, col': nat, i: nat)
    requires Good(p) && col < p.cols && col' < p.cols && (row, col) != (row', col') && i < Parts(p)
    ensures Key(p, row', col', 0) + i in Flagged(flipped, Key(p, row, col, 0), heavy, Parts(p)) <==>
            Key(p, row', col', 0) + i in flipped
  {
    var k := Key(p, row', col', 0) + i;
    var base := Key(p, row, col, 0);
    assert k == Key(p, row', col', i);
    if base <= k < base + Parts(p) {
      assert k == Key(p, row, col, k - base);
      hide Key, Parts, Good;
      KeysDiffer(p, row, col, k - base, row', col', i);
    }
  }

  predicate SameFlag(flipped: set<nat>, flipped': set<nat>, base: nat, i: nat) {
    base + i in flipped <==> base + i in flipped'
  }

  lemma UndoneSame(f: nat, flipped: set<nat>, flipped': set<nat>, base: nat, block: Block, n: nat)
    requires f >= 1 && forall i: nat :: i < n ==> SameFlag(flipped, flipped', base, i)
    ensures Undone(f, flipped, base, block, n) == Undone(f, flipped', base, block, n)
  {
    hide FlipByte, Undone;
    forall k: nat | k < |block|
      ensures Undone(f, flipped, base, block, n)[k] == Undone(f, flipped', base, block, n)[k]
    {
      UndoneAt(f, flipped, base, block, n, k);
      UndoneAt(f, flipped', base, block, n, k);
      var i := k / f;
      assert i < n ==> SameFlag(flipped, flipped', base, i);
    }
  }

  // Any other word decodes to what it did before.
  lemma OthersDecodeTheSame(p: Params, e: Encoder, row: nat, col: nat, oldData: Block, newData: Block,
                            row': nat, col': nat, stored: Block)
    requires Good(p) && |oldData| == |newData| == p.wordSize && |stored| == p.wordSize
    requires col < p.cols && col' < p.cols && (row, col) != (row', col')
    ensures Decoded(p, Written(p, e, row, col, oldData, newData).0, row', col', stored) ==
        Decoded(p, e, row', col', stored)
  {
    hide Key, Parts, Good, PartBytes, Flagged, Heavy, Cells, Encoded, Undone, Saved, Plain;
    var e' := Written(p, e, row, col, oldData, newData).0;
    var heavy := Heavy(p, Cells(p, e, row, col, oldData), newData);
    forall i: nat | i < Parts(p) ensures SameFlag(e'.flipped, e.flipped, Key(p, row', col', 0), i) {
      OthersKeepFlags(p, e.flipped, heavy, row, col, row', col', i);
    }
    UndoneSame(PartBytes(p), e'.flipped, e.flipped, Key(p, row', col', 0), stored, Parts(p));
  }

  // ----- The bits that change -----

  function Mirror(b: Byte): Byte { [b[7], b[6], b[5], b[4], b[3], b[2], b[1], b[0]] }

  function Mirrored(block: Block): (r: Block)
    ensures |r| == |block|
  {
    seq(|block|, k requires 0 <= k < |block| => Mirror(block[k]))
  }

  lemma PartOfByte(f: nat, bit: nat)
    requires f >= 1
    ensures PartOf(8 * f, bit) == (bit / 8) / f
  {
    var k := bit / 8;
    var q := k / f;
    assert k == q * f + k % f;
    assert q * (8 * f) == 8 * (q * f) && (q + 1) * (8 * f) == 8 * (q * f) + 8 * f;
    DivideExact(bit, 8 * f, q);
  }

  // An inverted partition differs from the cells just where the mirrored data does not.
  lemma EncodedBit(f: nat, heavy: set<nat>, cells: Block, data: Block, n: nat, bit: nat)
    requires f >= 1 && |cells| == |data| && bit < |data| * 8 && PartOf(8 * f, bit) < n
    ensures Differs(cells, Encoded(f, heavy, data, n), bit) <==>
      if PartOf(8 * f, bit) in heavy then !Differs(cells, Mirrored(data), bit) else Differs(cells, data, bit)
  {
    PartOfByte(f, bit);
    hide PartOf;
  }

  lemma {:induction false} Complement(fp: nat, a: Block, b: Block, c: Block, i: nat, lo: nat, n: nat)
    requires fp >= 1 && |a| == |b| == |c| && n <= |a| * 8 && lo == i * fp
    requires forall bit: nat :: bit < n && PartOf(fp, bit) == i ==> (Differs(a, b, bit) <==> !Differs(a, c, bit))
    ensures Modified(fp, a, b, i, n) + Modified(fp, a, c, i, n) ==
            if n <= lo then 0 else if n <= lo + fp then n - lo else fp
  {
    if n > 0 {
      Complement(fp, a, b, c, i, lo, n - 1);
      PartIs(fp, n - 1, lo, i);
      hide Differs, PartOf;
    }
  }

  lemma PartIs(fp: nat, bit: nat, lo: nat, i: nat)
    requires fp >= 1 && lo == i * fp
    ensures PartOf(fp, bit) == i <==> lo <= bit < lo + fp
  {
    PartBounds(fp, bit, lo, i);
    if lo <= bit < lo + fp {
      assert (i + 1) * fp == lo + fp;
      DivideExact(bit, fp, i);
    }
  }

  lemma {:induction false} SameModified(fp: nat, a: Block, b: Block, c: Block, i: nat, n: nat)
    requires fp >= 1 && |a| == |b| == |c| && n <= |a| * 8
    requires forall bit: nat :: bit < n && PartOf(fp, bit) == i ==> (Differs(a, b, bit) <==> Differs(a, c, bit))
    ensures Modified(fp, a, b, i, n) == Modified(fp, a, c, i, n)
  {
    if n > 0 {
      SameModified(fp, a, b, c, i, n - 1);
      hide Differs, PartOf;
    }
  }

  // The bits of a partition that change: those of the data, or the ones the mirrored data leaves alone.
  lemma EncodedModified(p: Params, cells: Block, data: Block, i: nat)
    requires Good(p) && |cells| == |data| == p.wordSize && i < Parts(p)
    ensures var heavy := Heavy(p, cells, data);
      Modified(p.fpSize, cells, Encoded(PartBytes(p), heavy, data, Parts(p)), i, p.wordSize * 8) ==
      if i in heavy then p.fpSize - Modified(p.fpSize, cells, Mirrored(data), i, p.wordSize * 8)
      else Modified(p.fpSize, cells, data, i, p.wordSize * 8)
  {
    var heavy := Heavy(p, cells, data);
    var f := PartBytes(p);
    assert p.fpSize == 8 * f;
    var stored := Encoded(f, heavy, data, Parts(p));
    WordIsParts(p);
    MulStep(i, Parts(p), p.fpSize);
    assert (i + 1) * p.fpSize == i * p.fpSize + p.fpSize;
    hide Differs, Encoded, Mirrored, PartOf, Heavy, Good, Parts, PartBytes, Modified;
    forall bit: nat | bit < p.wordSize * 8 && PartOf(p.fpSize, bit) == i
      ensures Differs(cells, stored, bit) <==>
        if i in heavy then !Differs(cells, Mirrored(data), bit) else Differs(cells, data, bit)
    {
      EncodedBit(f, heavy, cells, data, Parts(p), bit);
    }
    if i in heavy {
      Complement(p.fpSize, cells, stored, Mirrored(data), i, i * p.fpSize, p.wordSize * 8);
    } else {
      SameModified(p.fpSize, cells, stored, data, i, p.wordSize * 8);
    }
  }

  // The bits of other data that differ from the cells, in the partitions inverted among the first n.
  function InHeavy(p: Params, cells: Block, data: Block, other: Block, n: nat): nat
    requires Good(p) && |cells| == |data| == |other| == p.wordSize
  {
    if n == 0 then 0
    else
      InHeavy(p, cells, data, other, n - 1) +
      if n - 1 in Heavy(p, cells, data) then Modified(p.fpSize, cells, other, n - 1, p.wordSize * 8) else 0
  }

  // The bits that change in the cells when the encoded data replaces what they hold.
  function Changed(p: Params, cells: Block, data: Block, n: nat): nat
    requires Good(p) && |cells| == |data| == p.wordSize
  {
    Plain(p, cells, Encoded(PartBytes(p), Heavy(p, cells, data), data, Parts(p)), n)
  }

  lemma {:induction false} ChangedSum(p: Params, cells: Block, data: Block, n: nat)
    requires Good(p) && |cells| == |data| == p.wordSize && n <= Parts(p)
    ensures Changed(p, cells, data, n) + InHeavy(p, cells, data, Mirrored(data), n) ==
            Saved(p, cells, data, n) + InHeavy(p, cells, data, data, n)
  {
    if n > 0 {
      ChangedSum(p, cells, data, n - 1);
      EncodedModified(p, cells, data, n - 1);
      ModifiedBound(p.fpSize, cells, data, n - 1, p.wordSize * 8);
      ModifiedBound(p.fpSize, cells, Mirrored(data), n - 1, p.wordSize * 8);
      hide Modified, Encoded, Mirrored, Good, Parts, PartBytes;
    }
  }

  // The count of bits written is the number of cells that change exactly when mirroring the bytes of the
  // inverted partitions would not change how many bits they differ in from the cells.
  lemma CountIsExactIff(p: Params, cells: Block, data: Block)
    requires Good(p) && |cells| == |data| == p.wordSize
    ensures Changed(p, cells, data, Parts(p)) == Saved(p, cells, data, Parts(p)) <==>
            InHeavy(p, cells, data, Mirrored(data), Parts(p)) == InHeavy(p, cells, data, data, Parts(p))
    ensures (forall k :: 0 <= k < |data| ==> data[k] == Mirror(data[k])) ==>
            Changed(p, cells, data, Parts(p)) == Saved(p, cells, data, Parts(p))
  {
    ChangedSum(p, cells, data, Parts(p));
    if forall k :: 0 <= k < |data| ==> data[k] == Mirror(data[k]) {
      assert Mirrored(data) == data;
    }
  }

  const LOW_HALF: Byte := [true, true, true, true, false, false, false, false]
  const HIGH_HALF: Byte := [false, false, false, false, true, true, true, true]

  // It can be as wrong as possible: the count is 0, and all eight cells change.
  lemma CountMissesAll()
    ensures var p := Params(8, 1, 1);
      && Good(p) && Parts(p) == 1
      && Saved(p, [LOW_HALF], [HIGH_HALF], 1) == 0 && Changed(p, [LOW_HALF], [HIGH_HALF], 1) == 8
  {
    var p := Params(8, 1, 1);
    AllDiffer([LOW_HALF], [HIGH_HALF], 8);
    assert Heavy(p, [LOW_HALF], [HIGH_HALF]) == {0};
    assert FlipByte(HIGH_HALF) == HIGH_HALF && 0 / 1 == 0;
    EncodedAt(1, {0}, [HIGH_HALF], 1, 0);
    assert Encoded(PartBytes(p), {0}, [HIGH_HALF], 1) == [HIGH_HALF];
    assert Changed(p, [LOW_HALF], [HIGH_HALF], 1) == Plain(p, [LOW_HALF], [HIGH_HALF], 1);
    assert Plain(p, [LOW_HALF], [HIGH_HALF], 1) == Modified(8, [LOW_HALF], [HIGH_HALF], 0, 8);
  }

  lemma {:induction false} AllDiffer(a: Block, b: Block, n: nat)
    requires a == [LOW_HALF] && b == [HIGH_HALF] && n <= 8
    ensures Modified(8, a, b, 0, n) == n
  {
    if n > 0 {
      AllDiffer(a, b, n - 1);
    }
  }

  // ----- Whole runs -----

  datatype Write = Write(row: nat, col: nat, data: Block)

  // The memory: what is stored in each word, and what was last written to it.
  datatype Memory = Memory(e: Encoder, stored: map<(nat, nat), Block>, logical: map<(nat, nat), Block>)

  predicate WriteOk(p: Params, w: Write) { w.col < p.cols && |w.data| == p.wordSize }

  function Zeros(p: Params): (b: Block)
    ensures |b| == p.wordSize
  {
    seq(p.wordSize, _ => [false, false, false, false, false, false, false, false])
  }

  function Last(p: Params, m: Memory, at: (nat, nat)): Block {
    if at in m.logical then m.logical[at] else Zeros(p)
  }

  function StoredAt(p: Params, m: Memory, at: (nat, nat)): Block {
    if at in m.stored then m.stored[at] else Zeros(p)
  }

  ghost predicate Sized(p: Params, m: Memory) {
    && (forall at :: at in m.logical ==> |m.logical[at]| == p.wordSize)
    && (forall at :: at in m.stored ==> |m.stored[at]| == p.wordSize)
  }

  // The old data that comes with a write is what was written there before.
  function Next(p: Params, m: Memory, w: Write): (m': Memory)
    requires Good(p) && Sized(p, m) && WriteOk(p, w)
    ensures Sized(p, m')
  {
    var here := (w.row, w.col);
    var (e, stored) := Written(p, m.e, w.row, w.col, Last(p, m, here), w.data);
    Memory(e, m.stored[here := stored], m.logical[here := w.data])
  }

  function After(p: Params, writes: seq<Write>): (m: Memory)
    requires Good(p) && forall w :: w in writes ==> WriteOk(p, w)
    ensures Sized(p, m)
  {
    if writes == [] then Memory(Encoder({}, 0, 0), map[], map[])
    else Next(p, After(p, writes[..|writes| - 1]), writes[|writes| - 1])
  }

  // After any run of writes every word decodes to what was written to it last, and the bits counted are no
  // more than plain writing would have counted.
  lemma {:induction false} LastWriteIsRead(p: Params, writes: seq<Write>, at: (nat, nat))
    requires Good(p) && (forall w :: w in writes ==> WriteOk(p, w)) && at.1 < p.cols
    ensures var m := After(p, writes);
      && Decoded(p, m.e, at.0, at.1, StoredAt(p, m, at)) == Last(p, m, at)
      && m.e.bitsFlipped <= m.e.bitCompareSwapWrites
      && m.e.bitsFlipped <= |writes| * (Parts(p) * (p.fpSize / 2))
  {
    if writes == [] {
      assert After(p, writes).e.flipped == {};
      assert Decoded(p, After(p, writes).e, at.0, at.1, Zeros(p)) == Zeros(p);
    } else {
      var front := writes[..|writes| - 1];
      var m := After(p, front);
      var w := writes[|writes| - 1];
      var here := (w.row, w.col);
      assert WriteOk(p, w);
      LastWriteIsRead(p, front, at);
      if at == here {
        WrittenDecodes(p, m.e, w.row, w.col, Last(p, m, here), w.data);
      } else {
        OthersDecodeTheSame(p, m.e, w.row, w.col, Last(p, m, here), w.data, at.0, at.1, StoredAt(p, m, at));
      }
      var cells := Cells(p, m.e, w.row, w.col, Last(p, m, here));
      SavedBounds(p, cells, w.data, Parts(p));
      assert |writes| * (Parts(p) * (p.fpSize / 2)) ==
             (|writes| - 1) * (Parts(p) * (p.fpSize / 2)) + Parts(p) * (p.fpSize / 2);
    }
  }

  // The bits a write compares with are those in the cells: inverting the flagged partitions of what was
  // written last gives what is stored.
  lemma ComparesWithCells(p: Params, writes: seq<Write>, row: nat, col: nat)
    requires Good(p) && (forall w :: w in writes ==> WriteOk(p, w)) && col < p.cols
    ensures var m := After(p, writes);
      Cells(p, m.e, row, col, Last(p, m, (row, col))) == StoredAt(p, m, (row, col))
  {
    var m := After(p, writes);
    LastWriteIsRead(p, writes, (row, col));
    UndoneTwice(PartBytes(p), m.e.flipped, Key(p, row, col, 0), StoredAt(p, m, (row, col)), Parts(p));
  }

  // ----- The encoder -----

  lemma InvertedPartition(block: Block, f: nat, i: nat)
    requires f >= 1
    ensures 8 * f * i < 8 * f * (i + 1)
    ensures var r := Inverted(block, 8 * f * i, 8 * f * (i + 1));
      forall k :: 0 <= k < |block| ==> r[k] == if k / f == i then FlipByte(block[k]) else block[k]
  {
    var lo := i * f;
    BitsOfPart(f, i);
    InvertedWholeBytes(block, lo, lo + f);
    hide Inverted, FlipByte;
    forall k: nat | k < |block| ensures lo <= k < lo + f <==> k / f == i {
      PartIs(f, k, lo, i);
    }
  }

  lemma BitsOfPart(f: nat, i: nat)
    ensures 8 * f * i == (i * f) * 8 && 8 * f * (i + 1) == (i * f + f) * 8
  {
    assert 8 * f * i == 8 * (f * i);
    assert 8 * f * (i + 1) == 8 * (f * i + f);
  }

  // One more partition of a block undone, or encoded.
  lemma UndoneNext(f: nat, flipped: set<nat>, base: nat, block: Block, n: nat, next: Block)
    requires f >= 1 && |next| == |block|
    requires forall k :: 0 <= k < |block| ==>
      next[k] == if k / f == n && base + n in flipped then FlipByte(block[k]) else Undone(f, flipped, base, block, n)[k]
    ensures next == Undone(f, flipped, base, block, n + 1)
  {
    hide FlipByte;
  }

  lemma EncodedNext(f: nat, heavy: set<nat>, block: Block, n: nat, next: Block)
    requires f >= 1 && |next| == |block|
    requires forall k :: 0 <= k < |block| ==>
      next[k] == if k / f == n && n in heavy then FlipByte(block[k]) else Encoded(f, heavy, block, n)[k]
    ensures next == Encoded(f, heavy, block, n + 1)
  {
    hide FlipByte;
  }

  lemma PartInRange(p: Params, bit: nat)
    requires Good(p) && bit < p.wordSize * 8
    ensures PartOf(p.fpSize, bit) < Parts(p)
  {
    WordIsParts(p);
    QuotientBelow(bit, p.fpSize, Parts(p));
  }

  lemma UndoneStart(f: nat, flipped: set<nat>, base: nat, block: Block)
    requires f >= 1
    ensures Undone(f, flipped, base, block, 0) == block
  {
  }

  // Later partitions have not been touched yet.
  lemma UndoneUntouched(f: nat, flipped: set<nat>, base: nat, block: Block, n: nat)
    requires f >= 1
    ensures forall k :: 0 <= k < |block| && k / f == n ==> Undone(f, flipped, base, block, n)[k] == block[k]
  {
  }

  lemma EncodedStart(f: nat, heavy: set<nat>, block: Block)
    requires f >= 1
    ensures Encoded(f, heavy, block, 0) == block
  {
  }

  lemma EncodedUntouched(f: nat, heavy: set<nat>, block: Block, n: nat)
    requires f >= 1
    ensures forall k :: 0 <= k < |block| && k / f == n ==> Encoded(f, heavy, block, n)[k] == block[k]
  {
  }

  lemma BitDiffers(a: Block, b: Block, i: nat, j: nat)
    requires i < |a| == |b| && j < 8
    ensures i * 8 + j < |a| * 8 && (Differs(a, b, i * 8 + j) <==> a[i][j] != b[i][j])
  {
    Split(i * 8 + j, 8, i, j);
  }

  class FlipNWriteEncoder {
    const p: Params
    var flippedAddresses: set<nat>
    var bitsFlipped: nat
    var bitCompareSwapWrites: nat

    function Model(): Encoder
      reads this
    {
      Encoder(flippedAddresses, bitsFlipped, bitCompareSwapWrites)
    }

    constructor (params: Params)
      ensures p == params && Model() == Encoder({}, 0, 0)
    {
      p := params;
      flippedAddresses, bitsFlipped, bitCompareSwapWrites := {}, 0, 0;
    }

    // Rewrite the bytes of a bit range in place.
    method InvertData(data: array<Byte>, startBit: nat, endBit: nat)
      requires startBit < endBit <= data.Length * 8
      modifies data
      ensures data[..] == Inverted(old(data[..]), startBit, endBit)
    {
      var startByte := startBit / 8;
      var endByte := (endBit - 1) / 8;
      for i := startByte to endByte + 1
        invariant forall k :: 0 <= k < data.Length ==>
          data[k] == if startByte <= k < i then InvertedByte(old(data[k]), k, startBit, endBit) else old(data[k])
      {
        var newByte := InvertByte(data[i], i, startBit, endBit);
        data[i] := newByte;
      }
    }

    method InvertByte(originalByte: Byte, i: nat, startBit: nat, endBit: nat) returns (newByte: Byte)
      ensures newByte == InvertedByte(originalByte, i, startBit, endBit)
    {
      newByte := [false, false, false, false, false, false, false, false];
      for j := 0 to 8
        invariant forall m :: 0 <= m < 8 ==>
          newByte[m] == (7 - m < j && startBit <= i * 8 + (7 - m) < endBit && !originalByte[7 - m])
      {
        var currentBit := i * 8 + j;
        if startBit <= currentBit < endBit {
          if !originalByte[j] {
            newByte := newByte[7 - j := true];
          }
        }
      }
    }

    // Bring the old data to what is in the cells.
    method UndoFlips(oldData: array<Byte>, row: nat, col: nat)
      requires Good(p) && oldData.Length == p.wordSize
      modifies oldData
      ensures oldData[..] == Cells(p, Model(), row, col, old(oldData[..]))
    {
      hide Undone, Good, Parts, PartBytes, FlipByte, RowParts;
      var f := PartBytes(p);
      ghost var before := oldData[..];
      UndoneStart(f, flippedAddresses, Key(p, row, col, 0), before);
      for i := 0 to Parts(p)
        invariant oldData[..] == Undone(f, flippedAddresses, Key(p, row, col, 0), before, i)
      {
        var curAddr := Key(p, row, col, i);
        ghost var undone := oldData[..];
        if curAddr in flippedAddresses {
          InvertPartition(oldData, i);
        }
        UndoneUntouched(f, flippedAddresses, Key(p, row, col, 0), before, i);
        UndoneNext(f, flippedAddresses, Key(p, row, col, 0), before, i, oldData[..]);
      }
    }

    method InvertPartition(data: array<Byte>, i: nat)
      requires Good(p) && data.Length == p.wordSize && i < Parts(p)
      modifies data
      ensures forall k :: 0 <= k < data.Length ==>
                data[k] == if k / PartBytes(p) == i then FlipByte(old(data[k])) else old(data[k])
    {
      var f := PartBytes(p);
      ghost var before := data[..];
      WordIsParts(p);
      MulStep(i, Parts(p), f);
      assert (i + 1) * f <= p.wordSize && p.fpSize == 8 * f;
      InvertedPartition(before, f, i);
      assert i * p.fpSize == 8 * f * i && (i + 1) * p.fpSize == 8 * f * (i + 1) && 8 * f * (i + 1) == 8 * ((i + 1) * f);
      InvertData(data, i * p.fpSize, (i + 1) * p.fpSize);
    }

    // Count the modified bits of every partition; a byte that is the same in both is skipped.
    method CountModified(cells: array<Byte>, data: array<Byte>) returns (modifyCount: array<nat>)
      requires Good(p) && cells.Length == data.Length == p.wordSize
      ensures fresh(modifyCount) && modifyCount.Length == Parts(p)
      ensures forall i :: 0 <= i < Parts(p) ==>
                modifyCount[i] == Modified(p.fpSize, cells[..], data[..], i, p.wordSize * 8)
    {
      ghost var a, b := cells[..], data[..];
      modifyCount := new nat[Parts(p)](_ => 0);
      WordIsParts(p);
      var currentBit := 0;
      for i := 0 to p.wordSize
        invariant currentBit == i * 8
        invariant forall t :: 0 <= t < Parts(p) ==> modifyCount[t] == Modified(p.fpSize, a, b, t, currentBit)
      {
        if cells[i] == data[i] {
          forall t | 0 <= t < Parts(p)
            ensures Modified(p.fpSize, a, b, t, currentBit + 8) == Modified(p.fpSize, a, b, t, currentBit)
          {
            SameBitsAddNothing(p.fpSize, a, b, t, currentBit, 8);
          }
          currentBit := currentBit + 8;
        } else {
          CountByte(modifyCount, cells[i], data[i], i, a, b);
          currentBit := currentBit + 8;
        }
      }
    }

    method CountByte(modifyCount: array<nat>, oldByte: Byte, newByte: Byte, i: nat, ghost a: Block, ghost b: Block)
      requires Good(p) && p.fpSize >= 1 && modifyCount.Length == Parts(p) && i < p.wordSize == |a| == |b|
      requires oldByte == a[i] && newByte == b[i]
      requires forall t :: 0 <= t < Parts(p) ==> modifyCount[t] == Modified(p.fpSize, a, b, t, i * 8)
      modifies modifyCount
      ensures forall t :: 0 <= t < Parts(p) ==> modifyCount[t] == Modified(p.fpSize, a, b, t, i * 8 + 8)
    {
      hide Good, Parts;
      for j := 0 to 8
        invariant forall t :: 0 <= t < Parts(p) ==> modifyCount[t] == Modified(p.fpSize, a, b, t, i * 8 + j)
      {
        hide Modified, Differs, PartOf;
        var currentBit := i * 8 + j;
        BitDiffers(a, b, i, j);
        var part := PartOf(p.fpSize, currentBit);
        PartInRange(p, currentBit);
        forall t: nat | t < Parts(p)
          ensures Modified(p.fpSize, a, b, t, currentBit + 1) ==
                  Modified(p.fpSize, a, b, t, currentBit) + One(part == t && oldByte[j] != newByte[j])
        {
          ModifiedNext(p.fpSize, a, b, t, currentBit);
        }
        if oldByte[j] != newByte[j] {
          modifyCount[part] := modifyCount[part] + 1;
        }
      }
    }

    // Invert the heavy partitions of the new data, and flag exactly those.
    method FlipPartitions(data: array<Byte>, modifyCount: array<nat>, row: nat, col: nat, ghost cells: Block,
        ghost new_: Block)
      requires Good(p) && data.Length == p.wordSize == |cells| && modifyCount.Length == Parts(p) && new_ == data[..]
      requires forall i :: 0 <= i < Parts(p) ==> modifyCount[i] == Modified(p.fpSize, cells, new_, i, p.wordSize * 8)
      modifies this, data
      ensures data[..] == Encoded(PartBytes(p), Heavy(p, cells, new_), new_, Parts(p))
      ensures flippedAddresses == Flagged(old(flippedAddresses), Key(p, row, col, 0), Heavy(p, cells, new_), Parts(p))
      ensures bitsFlipped == old(bitsFlipped) + Saved(p, cells, new_, Parts(p))
      ensures bitCompareSwapWrites == old(bitCompareSwapWrites) + Plain(p, cells, new_, Parts(p))
    {
      ghost var heavy := Heavy(p, cells, new_);
      ghost var f := PartBytes(p);
      hide Encoded, FlipByte, Good, Parts, PartBytes, RowParts, Modified, Flagged;
      EncodedStart(f, heavy, new_);
      FlaggedStart(flippedAddresses, Key(p, row, col, 0), heavy);
      for i := 0 to Parts(p)
        invariant data[..] == Encoded(f, heavy, new_, i)
        invariant flippedAddresses == Flagged(old(flippedAddresses), Key(p, row, col, 0), heavy, i)
        invariant bitsFlipped == old(bitsFlipped) + Saved(p, cells, new_, i)
        invariant bitCompareSwapWrites == old(bitCompareSwapWrites) + Plain(p, cells, new_, i)
      {
        bitCompareSwapWrites := bitCompareSwapWrites + modifyCount[i];
        var curAddr := Key(p, row, col, i);
        ModifiedBound(p.fpSize, cells, new_, i, p.wordSize * 8);
        FlaggedNext(old(flippedAddresses), Key(p, row, col, 0), heavy, i);
        ghost var encoded := data[..];
        EncodedUntouched(f, heavy, new_, i);
        if modifyCount[i] > p.fpSize / 2 {
          InvertPartition(data, i);
          bitsFlipped := bitsFlipped + (p.fpSize - modifyCount[i]);
          flippedAddresses := flippedAddresses + {curAddr};
        } else {
          flippedAddresses := flippedAddresses - {curAddr};
          bitsFlipped := bitsFlipped + modifyCount[i];
        }
        EncodedNext(f, heavy, new_, i, data[..]);
      }
    }

    method Write(row: nat, col: nat, oldData: array<Byte>, newData: array<Byte>)
      requires Good(p) && oldData.Length == newData.Length == p.wordSize && oldData != newData
      modifies this, oldData, newData
      ensures (Model(), newData[..]) == Written(p, old(Model()), row, col, old(oldData[..]), old(newData[..]))
    {
      ghost var data := newData[..];
      UndoFlips(oldData, row, col);
      ghost var cells := oldData[..];
      var modifyCount := CountModified(oldData, newData);
      FlipPartitions(newData, modifyCount, row, col, cells, data);
    }
  }

  lemma FlaggedStart(flipped: set<nat>, base: nat, heavy: set<nat>)
    ensures Flagged(flipped, base, heavy, 0) == flipped
  {
  }

  lemma FlaggedNext(flipped: set<nat>, base: nat, heavy: set<nat>, n: nat)
    ensures Flagged(flipped, base, heavy, n + 1) ==
            if n in heavy then Flagged(flipped, base, heavy, n) + {base + n}
            else Flagged(flipped, base, heavy, n) - {base + n}
  {
  }
}
