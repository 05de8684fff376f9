/**
  The SM3 hash of the demo software: padding, message expansion, compression and the block loop, each loop
  proved to compute the recursive definitions of the standard.  The padding is whole blocks and injective,
  and agrees with the standard's except for one residue of the length.
*/
module SM3 {
  import opened Arithmetic
  import opened Words

  type Byte = b: nat | b < 256

  // ----- Padding -----

  function Power(n: nat): (p: nat)
    ensures p >= 1
  {
    if n == 0 then 1 else 256 * Power(n - 1)
  }

  // Byte i, counted from the low end.
  function ByteAt(x: nat, i: nat): Byte { (x / Power(i)) % 256 }

  // The low n bytes, the highest first.
  function BigEndian(x: nat, n: nat): (s: seq<Byte>)
    ensures |s| == n
  {
    if n == 0 then [] else [ByteAt(x, n - 1)] + BigEndian(x, n - 1)
  }

  function FromBytes(s: seq<Byte>): nat {
    if s == [] then 0 else s[0] * Power(|s| - 1) + FromBytes(s[1..])
  }

  lemma PowerNext(x: nat, n: nat)
    ensures x % Power(n + 1) == ByteAt(x, n) * Power(n) + x % Power(n)
  {
    assert Power(n + 1) == 256 * Power(n);
    hide Power;
    LowDigits(x, Power(n));
  }

  lemma LowDigits(x: nat, p: nat)
    requires p >= 1
    ensures x % (256 * p) == ((x / p) % 256) * p + x % p
  {
    var q, r := x / p, x % p;
    Euclid(x, p);
    NextDigit(x, p, q, r, q / 256, q % 256);
  }

  // Two digits are taken off x, the low one modulo p and the next one modulo 256.
  lemma NextDigit(x: nat, p: nat, q: nat, r: nat, high: nat, d: nat)
    requires p >= 1 && x == q * p + r && r < p && q == high * 256 + d && d < 256
    ensures x % (256 * p) == d * p + r
  {
    Distribute(high, 256, d, p);
    MulStep(d, 256, p);
    AddMultiples(d, 1, p);
    ModIs(x, 256 * p, high, d * p + r);
  }

  // Reading the bytes back gives the number, up to what does not fit.
  lemma {:induction false} BigEndianReads(x: nat, n: nat)
    ensures FromBytes(BigEndian(x, n)) == x % Power(n)
  {
    if n > 0 {
      BigEndianReads(x, n - 1);
      PowerNext(x, n - 1);
    }
  }

  // The number of blocks the code allocates, and the number the standard asks for.
  function Blocks(len: nat): nat { (len + 1 + 8 + 64) / 64 }
  function StandardBlocks(len: nat): nat { (len + 1 + 8 + 63) / 64 }

  // The bit length is computed in 32 bits.
  function BitLength(len: nat): nat { (len * 8) % 0x1_0000_0000 }

  function Zeros(n: nat): (s: seq<Byte>)
    ensures |s| == n && forall i :: 0 <= i < n ==> s[i] == 0
  {
    seq(n, _ => 0)
  }

  function PaddedTo(message: seq<Byte>, blocks: nat): (s: seq<Byte>)
    requires |message| + 9 <= blocks * 64
    ensures |s| == blocks * 64
  {
    message + [0x80] + Zeros(blocks * 64 - |message| - 9) + BigEndian(BitLength(|message|), 8)
  }

  function Padded(message: seq<Byte>): (s: seq<Byte>)
    ensures |s| == Blocks(|message|) * 64
  {
    PaddedTo(message, Blocks(|message|))
  }

  // Section 5.2 of GB/T 32905-2016: a one, the fewest zeros, and the bit length in 64 bits.
  function StandardPadded(message: seq<Byte>): seq<Byte>
    requires |message| < 0x2000_0000
  {
    PaddedTo(message, StandardBlocks(|message|))
  }

  // The standard's zero count is the least that makes the length come out at 448 bits modulo 512.
  lemma StandardIsLeast(len: nat)
    ensures len + 9 <= StandardBlocks(len) * 64 < len + 9 + 64
    ensures (StandardBlocks(len) * 64 - 8) * 8 % 512 == 448
  {
  }

  // One block too many is added exactly when the length is 55 modulo 64.
  lemma PaddingIsStandardIff(message: seq<Byte>)
    requires |message| < 0x2000_0000
    ensures Padded(message) == StandardPadded(message) <==> |message| % 64 != 55
  {
    var n := |message|;
    assert Blocks(n) == if n % 64 == 55 then StandardBlocks(n) + 1 else StandardBlocks(n) by {
      var q := n / 64;
      assert n == q * 64 + n % 64;
    }
    if n % 64 == 55 {
      assert |Padded(message)| == |StandardPadded(message)| + 64;
    }
  }

  lemma FourParts(a: seq<Byte>, b: seq<Byte>, c: seq<Byte>, d: seq<Byte>)
    requires |b| == 1
    ensures var s := a + b + c + d; s[..|a|] == a && s[|a|] == b[0] && s[|s| - |d|..] == d
  {
  }

  lemma Power8()
    ensures Power(8) == 0x1_0000_0000_0000_0000
  {
    assert Power(2) == 0x1_0000;
    assert Power(4) == 0x1_0000_0000;
    assert Power(6) == 0x1_0000_0000_0000;
  }

  // Whatever the length, the padded message starts with the message and ends in the bit length as computed.
  lemma PaddingEndsInBits(message: seq<Byte>)
    ensures var s := Padded(message);
      && |s| == Blocks(|message|) * 64 && |message| + 9 <= |s| && s[..|message|] == message
      && s[|message|] == 0x80 && FromBytes(s[|s| - 8..]) == BitLength(|message|)
  {
    hide BigEndian, FromBytes, Power, Zeros;
    BigEndianReads(BitLength(|message|), 8);
    BitLengthFits(|message|);
    var tail := BigEndian(BitLength(|message|), 8);
    FourParts(message, [0x80], Zeros(Blocks(|message|) * 64 - |message| - 9), tail);
  }

  lemma BitLengthFits(len: nat)
    ensures BitLength(len) % Power(8) == BitLength(len)
  {
    Power8();
    hide Power;
    Split(BitLength(len), Power(8), 0, BitLength(len));
  }

  // Below 2^29 bytes the last eight bytes of the padded message are its bit length.
  lemma PaddingEndsInLength(message: seq<Byte>)
    requires |message| < 0x2000_0000
    ensures var s := Padded(message);
      && |s| % 64 == 0 && |s| >= |message| + 9 && s[..|message|] == message && s[|message|] == 0x80
      && FromBytes(s[|s| - 8..]) == |message| * 8
  {
    hide Padded, FromBytes;
    PaddingEndsInBits(message);
    Split(|message| * 8, 0x1_0000_0000, 0, |message| * 8);
  }

  // No two messages are padded alike.
  lemma PaddingIsInjective(m: seq<Byte>, m': seq<Byte>)
    ensures Padded(m) == Padded(m') ==> m == m'
  {
    if Padded(m) == Padded(m') {
      hide BigEndian, FromBytes, Power, Zeros;
      PaddingEndsInBits(m);
      PaddingEndsInBits(m');
      assert Blocks(|m|) == Blocks(|m'|);
      LengthsAgree(|m|, |m'|);
      assert m == Padded(m)[..|m|] == Padded(m')[..|m'|] == m';
    }
  }

  // Lengths that pad to as many blocks are within 64 of each other; equal bit lengths make them equal modulo
  // two to the 29.
  lemma LengthsAgree(a: nat, b: nat)
    requires Blocks(a) == Blocks(b) && BitLength(a) == BitLength(b)
    ensures a == b
  {
  }

  // ----- The compression function of section 5.3 -----

  const IV: seq<Word> := [
    0x7380166F, 0x4914B2B9, 0x172442D7, 0xDA8A0600, 0xA96F30BC, 0x163138AA, 0xE38DEE4D, 0xB0FB0E4E
  ]

  function T(j: nat): Word { if j < 16 then 0x79CC4519 else 0x7A879D8A }

  function FF(x: Word, y: Word, z: Word, j: nat): Word {
    if j <= 15 then x ^ y ^ z else if j <= 63 then (x & y) | (x & z) | (y & z) else 0
  }

  function GG(x: Word, y: Word, z: Word, j: nat): Word {
    if j <= 15 then x ^ y ^ z else if j <= 63 then (x & y) | (!x & z) else 0
  }

  function P0(x: Word): Word { x ^ Rotl(x, 9) ^ Rotl(x, 17) }
  function P1(x: Word): Word { x ^ Rotl(x, 15) ^ Rotl(x, 23) }

  function WordOf(a: Byte, b: Byte, c: Byte, d: Byte): Word {
    ((a as Word) << 24) | ((b as Word) << 16) | ((c as Word) << 8) | (d as Word)
  }

  // A word of the expansion from the five it depends on.
  function Expand(w16: Word, w9: Word, w3: Word, w13: Word, w6: Word): Word {
    P1(w16 ^ w9 ^ Rotl(w3, 15)) ^ Rotl(w13, 7) ^ w6
  }

  // Word j of the expanded message: the block's own sixteen words, then the recurrence.
  function W(block: seq<Byte>, j: nat): Word
    requires |block| == 64
  {
    if j < 16 then WordOf(block[j * 4], block[j * 4 + 1], block[j * 4 + 2], block[j * 4 + 3])
    else Expand(W(block, j - 16), W(block, j - 9), W(block, j - 3), W(block, j - 13), W(block, j - 6))
  }

  // Word j of the second expansion.
  function W1(block: seq<Byte>, j: nat): Word
    requires |block| == 64
  {
    Xor(W(block, j), W(block, j + 4))
  }

  datatype Regs = Regs(a: Word, b: Word, c: Word, d: Word, e: Word, f: Word, g: Word, h: Word)

  function SS1(a: Word, e: Word, j: nat): Word { Rotl(Rotl(a, 12) + e + Rotl(T(j), j % 32), 7) }
  function SS2(ss1: Word, a: Word): Word { ss1 ^ Rotl(a, 12) }
  function Sum(a: Word, b: Word, c: Word, d: Word): Word { a + b + c + d }

  function Step(r: Regs, j: nat, w: Word, w1: Word): Regs {
    var ss1 := SS1(r.a, r.e, j);
    var tt1 := Sum(FF(r.a, r.b, r.c, j), r.d, SS2(ss1, r.a), w1);
    var tt2 := Sum(GG(r.e, r.f, r.g, j), r.h, ss1, w);
    Regs(tt1, r.a, Rotl(r.b, 9), r.c, P0(tt2), r.e, Rotl(r.f, 19), r.g)
  }

  function Steps(block: seq<Byte>, r: Regs, j: nat): Regs
    requires |block| == 64
  {
    if j == 0 then r else Step(Steps(block, r, j - 1), j - 1, W(block, j - 1), W1(block, j - 1))
  }

  function XorRegs(x: Regs, y: Regs): Regs {
    Regs(Xor(x.a, y.a), Xor(x.b, y.b), Xor(x.c, y.c), Xor(x.d, y.d), Xor(x.e, y.e), Xor(x.f, y.f), Xor(x.g, y.g),
         Xor(x.h, y.h))
  }

  function Compressed(v: Regs, block: seq<Byte>): Regs
    requires |block| == 64
  {
    XorRegs(Steps(block, v, 64), v)
  }

  function Block(s: seq<Byte>, i: nat): (b: seq<Byte>)
    requires (i + 1) * 64 <= |s|
    ensures |b| == 64
  {
    s[i * 64..(i + 1) * 64]
  }

  function Iterated(s: seq<Byte>, n: nat): Regs
    requires n * 64 <= |s|
  {
    if n == 0 then RegsOf(IV) else Compressed(Iterated(s, n - 1), Block(s, n - 1))
  }

  function RegsOf(s: seq<Word>): Regs
    requires |s| == 8
  {
    Regs(s[0], s[1], s[2], s[3], s[4], s[5], s[6], s[7])
  }

  // The hash: the compression function folded over the blocks of the padded message.
  function Hash(message: seq<Byte>): Regs {
    Iterated(Padded(message), Blocks(|message|))
  }

  // ----- The loops -----

  function Registers(v: array<Word>): Regs
    requires v.Length == 8
    reads v
  {
    Regs(v[0], v[1], v[2], v[3], v[4], v[5], v[6], v[7])
  }

  lemma WLow(block: seq<Byte>, j: nat)
    requires |block| == 64 && j < 16
    ensures W(block, j) == WordOf(block[j * 4], block[j * 4 + 1], block[j * 4 + 2], block[j * 4 + 3])
  {
  }

  lemma WHigh(block: seq<Byte>, j: nat)
    requires |block| == 64 && j >= 16
    ensures W(block, j) ==
            Expand(W(block, j - 16), W(block, j - 9), W(block, j - 3), W(block, j - 13), W(block, j - 6))
  {
  }

  // Both expansions of a block.
  method MessageExt(block: seq<Byte>, w68: array<Word>, w64: array<Word>)
    requires |block| == 64 && w68.Length == 68 && w64.Length == 64 && w68 != w64
    modifies w68, w64
    ensures forall j :: 0 <= j < 68 ==> w68[j] == W(block, j)
    ensures forall j :: 0 <= j < 64 ==> w64[j] == W1(block, j)
  {
    hide W, WordOf, Expand, Xor;
    for j := 0 to 16
      invariant forall k :: 0 <= k < j ==> w68[k] == W(block, k)
    {
      WLow(block, j);
      w68[j] := WordOf(block[j * 4], block[j * 4 + 1], block[j * 4 + 2], block[j * 4 + 3]);
    }
    ExpandRest(w68, block);
    for j := 0 to 64
      invariant forall k :: 0 <= k < 68 ==> w68[k] == W(block, k)
      invariant forall k :: 0 <= k < j ==> w64[k] == W1(block, k)
    {
      w64[j] := Xor(w68[j], w68[j + 4]);
    }
  }

  method ExpandRest(w68: array<Word>, ghost block: seq<Byte>)
    requires w68.Length == 68 && |block| == 64 && forall k :: 0 <= k < 16 ==> w68[k] == W(block, k)
    modifies w68
    ensures forall j :: 0 <= j < 68 ==> w68[j] == W(block, j)
  {
    hide W, Expand;
    for j := 16 to 68
      invariant forall k :: 0 <= k < j ==> w68[k] == W(block, k)
    {
      WHigh(block, j);
      w68[j] := Expand(w68[j - 16], w68[j - 9], w68[j - 3], w68[j - 13], w68[j - 6]);
    }
  }

  // One round on the working registers, assigned one after the other.
  method CFRound(v: array<Word>, j: nat, w: Word, w1: Word)
    requires v.Length == 8 && j < 64
    modifies v
    ensures Registers(v) == Step(old(Registers(v)), j, w, w1)
  {
    hide Rotl, FF, GG, P0, T, SS1, SS2, Sum;
    var ss1 := SS1(v[0], v[4], j);
    var ss2 := SS2(ss1, v[0]);
    var tt1 := Sum(FF(v[0], v[1], v[2], j), v[3], ss2, w1);
    var tt2 := Sum(GG(v[4], v[5], v[6], j), v[7], ss1, w);
    v[3] := v[2];
    v[2] := Rotl(v[1], 9);
    v[1] := v[0];
    v[0] := tt1;
    v[7] := v[6];
    v[6] := Rotl(v[5], 19);
    v[5] := v[4];
    v[4] := P0(tt2);
  }

  method CF(v: array<Word>, w68: array<Word>, w64: array<Word>, ghost block: seq<Byte>)
    requires v.Length == 8 && w68.Length == 68 && w64.Length == 64 && |block| == 64 && v != w68 && v != w64
    requires forall j :: 0 <= j < 68 ==> w68[j] == W(block, j)
    requires forall j :: 0 <= j < 64 ==> w64[j] == W1(block, j)
    modifies v
    ensures Registers(v) == Compressed(old(Registers(v)), block)
  {
    hide W, W1, Step, Xor;
    var buf := new Word[8];
    ghost var r := Registers(v);
    for j := 0 to 8
      invariant Registers(v) == r && forall k :: 0 <= k < j ==> buf[k] == v[k]
    {
      buf[j] := v[j];
    }
    for j := 0 to 64
      invariant Registers(v) == r && Registers(buf) == Steps(block, r, j)
    {
      CFRound(buf, j, w68[j], w64[j]);
    }
    FoldIn(v, buf);
  }

  method FoldIn(v: array<Word>, buf: array<Word>)
    requires v.Length == 8 && buf.Length == 8 && v != buf
    modifies v
    ensures Registers(v) == XorRegs(Registers(buf), old(Registers(v)))
  {
    hide Xor;
    for j := 0 to 8
      invariant forall k :: 0 <= k < 8 ==> buf[k] == old(buf[k])
      invariant forall k :: 0 <= k < 8 ==> v[k] == if k < j then Xor(buf[k], old(v[k])) else old(v[k])
    {
      v[j] := Xor(buf[j], v[j]);
    }
  }

  // Lay out the padded message.
  method Pad(message: array<Byte>) returns (buf: array<Byte>)
    requires message.Length + 73 < 0x1_0000_0000
    ensures fresh(buf) && buf[..] == Padded(message[..])
  {
    hide ByteAt, Zeros;
    var len := message.Length;
    var num := (len + 1 + 8 + 64) / 64;
    buf := new Byte[num * 64](_ => 0);
    for i := 0 to len
      invariant forall k :: 0 <= k < num * 64 ==> buf[k] == if k < i then message[k] else 0
    {
      buf[i] := message[i];
    }
    buf[len] := 0x80;
    WriteLength(buf, len);
    assert buf[..] == Padded(message[..]);
  }

  // The bit length goes into the last eight bytes, from the low end.
  method WriteLength(buf: array<Byte>, len: nat)
    requires buf.Length >= 8
    modifies buf
    ensures forall k :: 0 <= k < buf.Length - 8 ==> buf[k] == old(buf[k])
    ensures buf[buf.Length - 8..] == BigEndian(BitLength(len), 8)
  {
    hide ByteAt;
    var n := buf.Length;
    for i := 0 to 8
      invariant forall k :: 0 <= k < n - i ==> buf[k] == old(buf[k])
      invariant buf[n - i..] == BigEndian(BitLength(len), i)
    {
      buf[n - i - 1] := ByteAt((len * 8) % 0x1_0000_0000, i);
      assert buf[n - i - 1..] == [buf[n - i - 1]] + buf[n - i..];
    }
  }

  method SetIV(v: array<Word>)
    requires v.Length == 8
    modifies v
    ensures Registers(v) == RegsOf(IV)
  {
    for i := 0 to 8
      invariant forall k :: 0 <= k < i ==> v[k] == IV[k]
    {
      v[i] := IV[i];
    }
  }

  method Digest(message: array<Byte>, v: array<Word>)
    requires message.Length + 73 < 0x1_0000_0000 && v.Length == 8
    modifies v
    ensures Registers(v) == Hash(old(message[..]))
  {
    hide W, W1, Compressed, Padded, RegsOf;
    var buf := Pad(message);
    var num := (message.Length + 1 + 8 + 64) / 64;
    var w68 := new Word[68];
    var w64 := new Word[64];
    ghost var s := buf[..];
    assert |s| == num * 64;
    SetIV(v);
    for i := 0 to num
      invariant buf[..] == s && Registers(v) == Iterated(s, i)
    {
      MessageExt(buf[i * 64..(i + 1) * 64], w68, w64);
      CF(v, w68, w64, Block(s, i));
    }
  }
}
