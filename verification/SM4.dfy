/**
  The SM4 block cipher of the demo software: key expansion, encryption and decryption as 32 rounds of a
  generalised Feistel network.  Decryption undoes encryption for every list of round keys and whatever the
  round function is, so neither the S-box nor the key expansion has a part in it.
*/
module SM4 {
  import opened Words

  // ----- Rounds -----

  // Four successive words of the sequence the rounds extend.
  datatype Quad = Quad(a: Word, b: Word, c: Word, d: Word)

  function Mix(b: Word, c: Word, d: Word, key: Word): Word { b ^ c ^ d ^ key }

  function Round(t: Word -> Word, q: Quad, key: Word): Quad {
    Quad(q.b, q.c, q.d, Xor(q.a, t(Mix(q.b, q.c, q.d, key))))
  }

  function Rounds(t: Word -> Word, q: Quad, keys: seq<Word>): Quad
    decreases |keys|
  {
    if keys == [] then q else Round(t, Rounds(t, q, keys[..|keys| - 1]), keys[|keys| - 1])
  }

  function Backwards(q: Quad): Quad { Quad(q.d, q.c, q.b, q.a) }

  function Reversed(keys: seq<Word>): (r: seq<Word>)
    ensures |r| == |keys| && forall i :: 0 <= i < |keys| ==> r[i] == keys[|keys| - 1 - i]
  {
    if keys == [] then [] else [keys[|keys| - 1]] + Reversed(keys[..|keys| - 1])
  }

  // The last four words, the last one first.
  function Crypt(t: Word -> Word, keys: seq<Word>, q: Quad): Quad {
    Backwards(Rounds(t, q, keys))
  }

  // A round on the reversed words, with the same key, takes a round back.
  lemma RoundBack(t: Word -> Word, q: Quad, key: Word)
    ensures Round(t, Backwards(Round(t, q, key)), key) == Backwards(q)
  {
    hide Xor, Mix;
    MixBackwards(q.b, q.c, q.d, key);
    XorTwice(q.a, t(Mix(q.b, q.c, q.d, key)));
  }

  lemma MixBackwards(b: Word, c: Word, d: Word, key: Word)
    ensures Mix(d, c, b, key) == Mix(b, c, d, key)
  {
  }

  lemma XorTwice(a: Word, x: Word)
    ensures Xor(Xor(a, x), x) == a
  {
  }

  lemma {:induction false} RoundsAppend(t: Word -> Word, q: Quad, xs: seq<Word>, ys: seq<Word>)
    ensures Rounds(t, q, xs + ys) == Rounds(t, Rounds(t, q, xs), ys)
    decreases |ys|
  {
    if ys == [] {
      assert xs + ys == xs;
    } else {
      assert (xs + ys)[..|xs + ys| - 1] == xs + ys[..|ys| - 1];
      RoundsAppend(t, q, xs, ys[..|ys| - 1]);
    }
  }

  // Running the rounds on the reversed words with the keys reversed walks the sequence back.
  lemma {:induction false} RoundsBack(t: Word -> Word, q: Quad, keys: seq<Word>)
    ensures Rounds(t, Backwards(Rounds(t, q, keys)), Reversed(keys)) == Backwards(q)
    decreases |keys|
  {
    if keys != [] {
      var front, key := keys[..|keys| - 1], keys[|keys| - 1];
      var end := Backwards(Rounds(t, q, keys));
      RoundsAppend(t, end, [key], Reversed(front));
      assert [key][..0] == [];
      assert Rounds(t, end, [key]) == Round(t, end, key);
      RoundBack(t, Rounds(t, q, front), key);
      RoundsBack(t, q, front);
    }
  }

  // Decrypting what was encrypted gives the block back.
  lemma DecryptInvertsEncrypt(t: Word -> Word, keys: seq<Word>, block: Quad)
    ensures Crypt(t, Reversed(keys), Crypt(t, keys, block)) == block
  {
    RoundsBack(t, block, keys);
  }

  // Word i of the decryption is word n + 3 - i of the encryption.
  lemma WordsMirror(t: Word -> Word, keys: seq<Word>, block: Quad, i: nat)
    requires i <= |keys|
    ensures Rounds(t, Crypt(t, keys, block), Reversed(keys)[..i]) == Backwards(Rounds(t, block, keys[..|keys| - i]))
  {
    var n := |keys|;
    assert Reversed(keys)[..i] == Reversed(keys[n - i..]);
    assert keys == keys[..n - i] + keys[n - i..];
    RoundsAppend(t, block, keys[..n - i], keys[n - i..]);
    RoundsBack(t, Rounds(t, block, keys[..n - i]), keys[n - i..]);
  }

  // ----- The round functions -----

  const FK: seq<Word> := [0xA3B1BAC6, 0x56AA3350, 0x677D9197, 0xB27022DC]

  function CK(): (r: seq<Word>)
    ensures |r| == 32
  {
    [
      0x00070e15, 0x1c232a31, 0x383f464d, 0x545b6269, 0x70777e85, 0x8c939aa1, 0xa8afb6bd, 0xc4cbd2d9,
      0xe0e7eef5, 0xfc030a11, 0x181f262d, 0x343b4249, 0x50575e65, 0x6c737a81, 0x888f969d, 0xa4abb2b9,
      0xc0c7ced5, 0xdce3eaf1, 0xf8ff060d, 0x141b2229, 0x30373e45, 0x4c535a61, 0x686f767d, 0x848b9299,
      0xa0a7aeb5, 0xbcc3cad1, 0xd8dfe6ed, 0xf4fb0209, 0x10171e25, 0x2c333a41, 0x484f565d, 0x646b7279
    ]
  }

  const SBOX: seq<Word> := [
    0xd6, 0x90, 0xe9, 0xfe, 0xcc, 0xe1, 0x3d, 0xb7, 0x16, 0xb6, 0x14, 0xc2, 0x28, 0xfb, 0x2c, 0x05,
    0x2b, 0x67, 0x9a, 0x76, 0x2a, 0xbe, 0x04, 0xc3, 0xaa, 0x44, 0x13, 0x26, 0x49, 0x86, 0x06, 0x99,
    0x9c, 0x42, 0x50, 0xf4, 0x91, 0xef, 0x98, 0x7a, 0x33, 0x54, 0x0b, 0x43, 0xed, 0xcf, 0xac, 0x62,
    0xe4, 0xb3, 0x1c, 0xa9, 0xc9, 0x08, 0xe8, 0x95, 0x80, 0xdf, 0x94, 0xfa, 0x75, 0x8f, 0x3f, 0xa6,
    0x47, 0x07, 0xa7, 0xfc, 0xf3, 0x73, 0x17, 0xba, 0x83, 0x59, 0x3c, 0x19, 0xe6, 0x85, 0x4f, 0xa8,
    0x68, 0x6b, 0x81, 0xb2, 0x71, 0x64, 0xda, 0x8b, 0xf8, 0xeb, 0x0f, 0x4b, 0x70, 0x56, 0x9d, 0x35,
    0x1e, 0x24, 0x0e, 0x5e, 0x63, 0x58, 0xd1, 0xa2, 0x25, 0x22, 0x7c, 0x3b, 0x01, 0x21, 0x78, 0x87,
    0xd4, 0x00, 0x46, 0x57, 0x9f, 0xd3, 0x27, 0x52, 0x4c, 0x36, 0x02, 0xe7, 0xa0, 0xc4, 0xc8, 0x9e,
    0xea, 0xbf, 0x8a, 0xd2, 0x40, 0xc7, 0x38, 0xb5, 0xa3, 0xf7, 0xf2, 0xce, 0xf9, 0x61, 0x15, 0xa1,
    0xe0, 0xae, 0x5d, 0xa4, 0x9b, 0x34, 0x1a, 0x55, 0xad, 0x93, 0x32, 0x30, 0xf5, 0x8c, 0xb1, 0xe3,
    0x1d, 0xf6, 0xe2, 0x2e, 0x82, 0x66, 0xca, 0x60, 0xc0, 0x29, 0x23, 0xab, 0x0d, 0x53, 0x4e, 0x6f,
    0xd5, 0xdb, 0x37, 0x45, 0xde, 0xfd, 0x8e, 0x2f, 0x03, 0xff, 0x6a, 0x72, 0x6d, 0x6c, 0x5b, 0x51,
    0x8d, 0x1b, 0xaf, 0x92, 0xbb, 0xdd, 0xbc, 0x7f, 0x11, 0xd9, 0x5c, 0x41, 0x1f, 0x10, 0x5a, 0xd8,
    0x0a, 0xc1, 0x31, 0x88, 0xa5, 0xcd, 0x7b, 0xbd, 0x2d, 0x74, 0xd0, 0x12, 0xb8, 0xe5, 0xb4, 0xb0,
    0x89, 0x69, 0x97, 0x4a, 0x0c, 0x96, 0x77, 0x7e, 0x65, 0xb9, 0xf1, 0x09, 0xc5, 0x6e, 0xc6, 0x84,
    0x18, 0xf0, 0x7d, 0xec, 0x3a, 0xdc, 0x4d, 0x20, 0x79, 0xee, 0x5f, 0x3e, 0xd7, 0xcb, 0x39, 0x48
  ]

  function Byte(x: Word, n: nat): bv8
    requires n <= 24
  {
    ((x >> n) & 0xFF) as bv8
  }

  function Substitute(b: bv8): Word { SBOX[b as nat] }

  function Nonlinear(x: Word): Word {
    (Substitute(Byte(x, 24)) << 24) | (Substitute(Byte(x, 16)) << 16) | (Substitute(Byte(x, 8)) << 8)
    | Substitute(Byte(x, 0))
  }

  function Linear(x: Word, mode: nat): Word {
    if mode == 0 then x ^ Rotl(x, 13) ^ Rotl(x, 23)
    else if mode == 1 then x ^ Rotl(x, 2) ^ Rotl(x, 10) ^ Rotl(x, 18) ^ Rotl(x, 24)
    else 1
  }

  function KeyT(x: Word): Word { Linear(Nonlinear(x), 0) }
  function DataT(x: Word): Word { Linear(Nonlinear(x), 1) }

  // ----- The methods -----

  function QuadOf(s: seq<Word>, i: nat): Quad
    requires i + 4 <= |s|
  {
    Quad(s[i], s[i + 1], s[i + 2], s[i + 3])
  }

  // The master key is masked, and every round of the schedule gives one key.
  function FirstKeys(mk: Quad): Quad { Quad(Xor(mk.a, FK[0]), Xor(mk.b, FK[1]), Xor(mk.c, FK[2]), Xor(mk.d, FK[3])) }

  function RoundKeys(mk: Quad, n: nat): (r: seq<Word>)
    requires n <= 32
    ensures |r| == n
  {
    if n == 0 then [] else RoundKeys(mk, n - 1) + [Rounds(KeyT, FirstKeys(mk), CK()[..n]).d]
  }

  lemma RoundsNext(t: Word -> Word, q: Quad, keys: seq<Word>, i: nat)
    requires i < |keys|
    ensures Rounds(t, q, keys[..i + 1]) == Round(t, Rounds(t, q, keys[..i]), keys[i])
  {
    assert keys[..i + 1][..i] == keys[..i];
  }

  // Extend the sequence by one word.
  method Extend(x: array<Word>, i: nat, t: Word -> Word, key: Word)
    requires x.Length == 36 && i < 32
    modifies x
    ensures Quad(x[i + 1], x[i + 2], x[i + 3], x[i + 4]) ==
            Round(t, old(Quad(x[i], x[i + 1], x[i + 2], x[i + 3])), key)
  {
    hide Xor, Mix;
    var tmp := Mix(x[i + 1], x[i + 2], x[i + 3], key);
    x[i + 4] := Xor(x[i], t(tmp));
  }

  method KeyExp(mk: array<Word>, rk: array<Word>)
    requires mk.Length == 4 && rk.Length == 32
    modifies rk
    ensures rk[..] == RoundKeys(QuadOf(old(mk[..]), 0), 32)
  {
    hide Xor, Mix, KeyT, CK, Round;
    var k := new Word[36];
    k[0], k[1], k[2], k[3] := Xor(mk[0], FK[0]), Xor(mk[1], FK[1]), Xor(mk[2], FK[2]), Xor(mk[3], FK[3]);
    ghost var q := QuadOf(mk[..], 0);
    for i := 0 to 32
      invariant Quad(k[i], k[i + 1], k[i + 2], k[i + 3]) == Rounds(KeyT, FirstKeys(q), CK()[..i])
      invariant rk[..i] == RoundKeys(q, i)
    {
      hide FirstKeys;
      RoundsNext(KeyT, FirstKeys(q), CK(), i);
      Extend(k, i, KeyT, CK()[i]);
      rk[i] := k[i + 4];
    }
    assert rk[..32] == rk[..];
  }

  // The last four words, the last one first.
  method Output(x: array<Word>, y: array<Word>)
    requires x.Length == 36 && y.Length == 4 && x != y
    modifies y
    ensures QuadOf(y[..], 0) == Backwards(Quad(x[32], x[33], x[34], x[35]))
  {
    for i := 0 to 4
      invariant forall k :: 0 <= k < i ==> y[k] == x[35 - k]
    {
      y[i] := x[35 - i];
    }
  }

  method Encrypt(rk: array<Word>, plaintext: array<Word>, y: array<Word>)
    requires rk.Length == 32 && plaintext.Length == 4 && y.Length == 4 && rk != y
    modifies y
    ensures QuadOf(y[..], 0) == Crypt(DataT, rk[..], QuadOf(old(plaintext[..]), 0))
  {
    hide Xor, Mix, DataT, Round, Reversed;
    var x := new Word[36];
    x[0], x[1], x[2], x[3] := plaintext[0], plaintext[1], plaintext[2], plaintext[3];
    ghost var q := QuadOf(plaintext[..], 0);
    for i := 0 to 32
      invariant Quad(x[i], x[i + 1], x[i + 2], x[i + 3]) == Rounds(DataT, q, rk[..][..i])
    {
      RoundsNext(DataT, q, rk[..], i);
      Extend(x, i, DataT, rk[i]);
    }
    assert rk[..][..32] == rk[..];
    Output(x, y);
  }

  method Decrypt(rk: array<Word>, ciphertext: array<Word>, y: array<Word>)
    requires rk.Length == 32 && ciphertext.Length == 4 && y.Length == 4 && rk != y
    modifies y
    ensures QuadOf(y[..], 0) == Crypt(DataT, Reversed(rk[..]), QuadOf(old(ciphertext[..]), 0))
  {
    hide Xor, Mix, DataT, Round, Reversed;
    var x := new Word[36];
    x[0], x[1], x[2], x[3] := ciphertext[0], ciphertext[1], ciphertext[2], ciphertext[3];
    ghost var q := QuadOf(ciphertext[..], 0);
    ghost var keys := Reversed(rk[..]);
    for i := 0 to 32
      invariant Quad(x[i], x[i + 1], x[i + 2], x[i + 3]) == Rounds(DataT, q, keys[..i])
    {
      RoundsNext(DataT, q, keys, i);
      Extend(x, i, DataT, rk[31 - i]);
    }
    assert keys[..32] == keys;
    Output(x, y);
  }

  // A block that is encrypted and decrypted with the same round keys comes back.
  method RoundTrip(rk: array<Word>, block: array<Word>) returns (back: array<Word>)
    requires rk.Length == 32 && block.Length == 4 && rk != block
    ensures back.Length == 4 && QuadOf(back[..], 0) == QuadOf(block[..], 0)
  {
    var y := new Word[4];
    back := new Word[4];
    Encrypt(rk, block, y);
    Decrypt(rk, y, back);
    DecryptInvertsEncrypt(DataT, rk[..], QuadOf(block[..], 0));
  }
}
