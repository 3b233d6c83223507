/** SHA-256 of bytes, for an SSH key's fingerprint (src/sshFingerprint.ts, sha256Bytes; sections 4.1.2,
    5.1.1 and 6.2.2 of FIPS 180-4). */
module Sha256 {
  import opened Arithmetic

  type Word = bv32

  // ----- The standard's functions -----

  function Rotate(x: Word, n: Word): Word
    requires 0 < n < 32
  {
    (x >> n) | (x << (32 - n))
  }

  function Ch(e: Word, f: Word, g: Word): Word {
    (e & f) ^ ((!e) & g)
  }

  function Maj(a: Word, b: Word, c: Word): Word {
    (a & b) ^ (a & c) ^ (b & c)
  }

  function BigSigma0(a: Word): Word {
    Rotate(a, 2) ^ Rotate(a, 13) ^ Rotate(a, 22)
  }

  function BigSigma1(e: Word): Word {
    Rotate(e, 6) ^ Rotate(e, 11) ^ Rotate(e, 25)
  }

  function SmallSigma0(x: Word): Word {
    Rotate(x, 7) ^ Rotate(x, 18) ^ (x >> 3)
  }

  function SmallSigma1(x: Word): Word {
    Rotate(x, 17) ^ Rotate(x, 19) ^ (x >> 10)
  }

  // The constants, eight at a time.
  const K0: seq<Word> := [0x428a2f98, 0x71374491, 0xb5c0fbcf, 0xe9b5dba5, 0x3956c25b, 0x59f111f1, 0x923f82a4, 0xab1c5ed5]
  const K8: seq<Word> := [0xd807aa98, 0x12835b01, 0x243185be, 0x550c7dc3, 0x72be5d74, 0x80deb1fe, 0x9bdc06a7, 0xc19bf174]
  const K16: seq<Word> := [0xe49b69c1, 0xefbe4786, 0x0fc19dc6, 0x240ca1cc, 0x2de92c6f, 0x4a7484aa, 0x5cb0a9dc, 0x76f988da]
  const K24: seq<Word> := [0x983e5152, 0xa831c66d, 0xb00327c8, 0xbf597fc7, 0xc6e00bf3, 0xd5a79147, 0x06ca6351, 0x14292967]
  const K32: seq<Word> := [0x27b70a85, 0x2e1b2138, 0x4d2c6dfc, 0x53380d13, 0x650a7354, 0x766a0abb, 0x81c2c92e, 0x92722c85]
  const K40: seq<Word> := [0xa2bfe8a1, 0xa81a664b, 0xc24b8b70, 0xc76c51a3, 0xd192e819, 0xd6990624, 0xf40e3585, 0x106aa070]
  const K48: seq<Word> := [0x19a4c116, 0x1e376c08, 0x2748774c, 0x34b0bcb5, 0x391c0cb3, 0x4ed8aa4a, 0x5b9cca4f, 0x682e6ff3]
  const K56: seq<Word> := [0x748f82ee, 0x78a5636f, 0x84c87814, 0x8cc70208, 0x90befffa, 0xa4506ceb, 0xbef9a3f7, 0xc67178f2]
  const K: seq<Word> := K0 + K8 + K16 + K24 + K32 + K40 + K48 + K56

  function Sum(x: Word, y: Word): Word {
    x + y
  }

  function WordOf(n: nat): Word {
    (n % 0x1_0000_0000) as Word
  }

  /** What a hash of this shape is made of: its words, how they are added and mixed, its constants.
      The padding, the blocks, the schedule and the rounds go the same way whatever these are. */
  datatype Parts<!W> = Parts(
    word: nat -> W, sum: (W, W) -> W,
    ch: (W, W, W) -> W, maj: (W, W, W) -> W,
    bigSigma0: W -> W, bigSigma1: W -> W, smallSigma0: W -> W, smallSigma1: W -> W,
    k: seq<W>)

  const STANDARD := Parts(WordOf, Sum, Ch, Maj, BigSigma0, BigSigma1, SmallSigma0, SmallSigma1, K)

  datatype Hash<W> = Hash(a: W, b: W, c: W, d: W, e: W, f: W, g: W, h: W)

  const START := Hash(
    0x6a09e667 as Word, 0xbb67ae85 as Word, 0x3c6ef372 as Word, 0xa54ff53a as Word,
    0x510e527f as Word, 0x9b05688c as Word, 0x1f83d9ab as Word, 0x5be0cd19 as Word)

  /** A block's message schedule, word by word. */
  function Scheduled<W>(p: Parts<W>, block: seq<W>, t: nat): W
    requires |block| == 16
  {
    if t < 16 then block[t]
    else
      p.sum(p.sum(p.sum(Scheduled(p, block, t - 16), p.smallSigma0(Scheduled(p, block, t - 15))), Scheduled(p, block, t - 7)),
        p.smallSigma1(Scheduled(p, block, t - 2)))
  }

  function T1<W>(p: Parts<W>, s: Hash<W>, k: W, w: W): W {
    p.sum(p.sum(p.sum(p.sum(s.h, p.bigSigma1(s.e)), p.ch(s.e, s.f, s.g)), k), w)
  }

  function T2<W>(p: Parts<W>, s: Hash<W>): W {
    p.sum(p.bigSigma0(s.a), p.maj(s.a, s.b, s.c))
  }

  function Round<W>(p: Parts<W>, s: Hash<W>, k: W, w: W): Hash<W> {
    Hash(p.sum(T1(p, s, k, w), T2(p, s)), s.a, s.b, s.c, p.sum(s.d, T1(p, s, k, w)), s.e, s.f, s.g)
  }

  /** The working variables after `t` rounds on a block. */
  function Rounds<W>(p: Parts<W>, s: Hash<W>, block: seq<W>, t: nat): Hash<W>
    requires |block| == 16 && t <= |p.k|
  {
    if t == 0 then s else Round(p, Rounds(p, s, block, t - 1), p.k[t - 1], Scheduled(p, block, t - 1))
  }

  function Plus<W>(p: Parts<W>, x: Hash<W>, y: Hash<W>): Hash<W> {
    Hash(p.sum(x.a, y.a), p.sum(x.b, y.b), p.sum(x.c, y.c), p.sum(x.d, y.d),
      p.sum(x.e, y.e), p.sum(x.f, y.f), p.sum(x.g, y.g), p.sum(x.h, y.h))
  }

  function Compress<W>(p: Parts<W>, s: Hash<W>, block: seq<W>): Hash<W>
    requires |block| == 16 && |p.k| == 64
  {
    Plus(p, s, Rounds(p, s, block, |p.k|))
  }

  /** The standard has the schedule's sum the other way round, which is the same. */
  lemma {:induction false} SumOrder(a: Word, b: Word, c: Word, d: Word)
    ensures a + b + c + d == d + c + b + a
  {
  }

  // ----- Bytes and words -----

  function Number(a: int, b: int, c: int, d: int): int {
    a * 0x1000000 + b * 0x10000 + c * 0x100 + d
  }

  function NumberAt(bytes: Bytes, at: nat): nat
    requires at + 4 <= |bytes|
  {
    Number(bytes[at], bytes[at + 1], bytes[at + 2], bytes[at + 3])
  }

  /** A number's lowest four bytes, the highest first. */
  function FourBytes(n: nat): (bytes: Bytes)
    ensures |bytes| == 4
  {
    [n / 0x1000000 % 256, n / 0x10000 % 256, n / 0x100 % 256, n % 256]
  }

  function Block<W>(p: Parts<W>, bytes: Bytes, at: nat): (block: seq<W>)
    requires at + 64 <= |bytes|
    ensures |block| == 16
  {
    seq(16, i requires 0 <= i < 16 => p.word(NumberAt(bytes, at + i * 4)))
  }

  /** The hash of the first blocks, each compressed into what came before. */
  function HashOf<W>(compress: (Hash<W>, seq<W>) -> Hash<W>, p: Parts<W>, start: Hash<W>, bytes: Bytes, blocks: nat): Hash<W>
    requires blocks * 64 <= |bytes|
  {
    if blocks == 0 then start else compress(HashOf(compress, p, start, bytes, blocks - 1), Block(p, bytes, (blocks - 1) * 64))
  }

  function Standard(s: Hash<Word>, block: seq<Word>): Hash<Word> {
    if |block| == 16 then Compress(STANDARD, s, block) else s
  }

  // ----- Padding -----

  function PaddedLength(n: nat): nat {
    (n + 9 + 63) / 64 * 64
  }

  /** The message, a one bit, zeros, and its length in bits in the last eight bytes. */
  function Padded(data: Bytes): Bytes {
    LengthFits(|data|);
    var zeros := PaddedLength(|data|) - |data| - 9;
    data + [0x80] + seq(zeros, i => 0) + FourBytes(|data| * 8 / 0x1_0000_0000) + FourBytes(|data| * 8)
  }

  /** What a digest is: the words of the padded message's hash. */
  function Digest(data: Bytes): Hash<Word> {
    PaddedFits(data);
    HashOf(Standard, STANDARD, START, Padded(data), |Padded(data)| / 64)
  }

  lemma {:induction false} LengthFits(n: nat)
    ensures n + 9 <= PaddedLength(n) < n + 9 + 64 && PaddedLength(n) % 64 == 0
  {
    var blocks := (n + 9 + 63) / 64;
    Quotient(blocks * 64, blocks, 0, 64);
  }

  lemma {:induction false} PaddedFits(data: Bytes)
    ensures |data| + 9 <= PaddedLength(|data|) < |data| + 9 + 64
    ensures |Padded(data)| == PaddedLength(|data|) && |Padded(data)| % 64 == 0
  {
    LengthFits(|data|);
  }

  lemma {:induction false} FourBytesBack(n: nat)
    ensures NumberAt(FourBytes(n), 0) == n % 0x1_0000_0000
  {
    var (q1, q2, q3) := (n / 0x100, n / 0x10000, n / 0x1000000);
    DivDiv(n, 0x100, 0x100);
    DivDiv(n, 0x10000, 0x100);
    DivDiv(n, 0x1000000, 0x100);
    assert q2 == q1 / 0x100 && q3 == q2 / 0x100;
  }

  /** The padded message is the least whole number of blocks that holds the message, the mark and the
      length, and ends in the length in bits, modulo 2^64. */
  lemma {:induction false} PaddingIsLeast(data: Bytes)
    ensures var padded := Padded(data);
      && |padded| % 64 == 0 && |data| + 9 <= |padded| < |data| + 9 + 64
      && data <= padded && padded[|data|] == 0x80
      && (forall i :: |data| < i < |padded| - 8 ==> padded[i] == 0)
      && NumberAt(padded, |padded| - 8) * 0x1_0000_0000 + NumberAt(padded, |padded| - 4) == (|data| * 8) % 0x1_0000_0000_0000_0000
  {
    var padded, n := Padded(data), |data| * 8;
    PaddedFits(data);
    FourBytesBack(n / 0x1_0000_0000);
    FourBytesBack(n);
    DivDiv(n, 0x1_0000_0000, 0x1_0000_0000);
    assert padded[|padded| - 8..|padded| - 4] == FourBytes(n / 0x1_0000_0000);
    assert padded[|padded| - 4..] == FourBytes(n);
  }

  // ----- The program -----

  method SetUint32(view: array<Byte>, at: nat, n: nat)
    requires at + 4 <= view.Length
    modifies view
    ensures view[..] == old(view[..at]) + FourBytes(n) + old(view[at + 4..])
  {
    view[at], view[at + 1], view[at + 2], view[at + 3] := n / 0x1000000 % 256, n / 0x10000 % 256, n / 0x100 % 256, n % 256;
  }

  method Pad(data: Bytes) returns (padded: array<Byte>)
    ensures fresh(padded) && padded[..] == Padded(data)
  {
    LengthFits(|data|);
    var length := PaddedLength(|data|);
    padded := new Byte[length](i => if 0 <= i < |data| then data[i] else 0);
    padded[|data|] := 0x80;
    ghost var zeros := seq(length - |data| - 9, i => 0);
    assert padded[..] == data + [0x80] + zeros + [0, 0, 0, 0, 0, 0, 0, 0];
    SetUint32(padded, length - 8, |data| * 8 / 0x1_0000_0000);
    SetUint32(padded, length - 4, |data| * 8);
  }

  /** A block's schedule, in an array of its own. */
  method Schedule<W(0)>(p: Parts<W>, bytes: Bytes, block: nat) returns (w: array<W>)
    requires block + 64 <= |bytes|
    ensures fresh(w) && w.Length == 64
    ensures forall t :: 0 <= t < 64 ==> w[t] == Scheduled(p, Block(p, bytes, block), t)
  {
    w := new W[64];
    for i := 0 to 16
      invariant forall t :: 0 <= t < i ==> w[t] == Block(p, bytes, block)[t]
    {
      w[i] := p.word(NumberAt(bytes, block + i * 4));
    }
    Extend(p, Block(p, bytes, block), w);
  }

  method Extend<W>(p: Parts<W>, ghost words: seq<W>, w: array<W>)
    requires |words| == 16 && w.Length == 64 && forall t :: 0 <= t < 16 ==> w[t] == words[t]
    modifies w
    ensures forall t :: 0 <= t < 64 ==> w[t] == Scheduled(p, words, t)
  {
    for i := 16 to 64
      invariant forall t :: 0 <= t < i ==> w[t] == Scheduled(p, words, t)
    {
      var s0 := p.smallSigma0(w[i - 15]);
      var s1 := p.smallSigma1(w[i - 2]);
      NextWord(p, words, i, w[i - 16], w[i - 15], w[i - 7], w[i - 2]);
      w[i] := p.sum(p.sum(p.sum(w[i - 16], s0), w[i - 7]), s1);
    }
  }

  lemma {:induction false} NextWord<W>(p: Parts<W>, block: seq<W>, t: nat, w16: W, w15: W, w7: W, w2: W)
    requires |block| == 16 && t >= 16
    requires w16 == Scheduled(p, block, t - 16) && w15 == Scheduled(p, block, t - 15)
    requires w7 == Scheduled(p, block, t - 7) && w2 == Scheduled(p, block, t - 2)
    ensures Scheduled(p, block, t) == p.sum(p.sum(p.sum(w16, p.smallSigma0(w15)), w7), p.smallSigma1(w2))
  {
  }

  /** A block's rounds, its eight variables shifted along at each. */
  method Run<W(0)>(p: Parts<W>, start: Hash<W>, bytes: Bytes, block: nat) returns (s: Hash<W>)
    requires block + 64 <= |bytes| && |p.k| == 64
    ensures s == Rounds(p, start, Block(p, bytes, block), |p.k|)
  {
    var w := Schedule(p, bytes, block);
    ghost var words := Block(p, bytes, block);
    var (a, b, c, d) := (start.a, start.b, start.c, start.d);
    var (e, f, g, hh) := (start.e, start.f, start.g, start.h);
    for i := 0 to 64
      invariant Hash(a, b, c, d, e, f, g, hh) == Rounds(p, start, words, i)
    {
      var t1 := p.sum(p.sum(p.sum(p.sum(hh, p.bigSigma1(e)), p.ch(e, f, g)), p.k[i]), w[i]);
      var t2 := p.sum(p.bigSigma0(a), p.maj(a, b, c));
      hh, g, f, e, d, c, b, a := g, f, e, p.sum(d, t1), c, b, a, p.sum(t1, t2);
    }
    return Hash(a, b, c, d, e, f, g, hh);
  }

  ghost predicate IsCompression<W(!new)>(compress: (Hash<W>, seq<W>) -> Hash<W>, p: Parts<W>) {
    && |p.k| == 64
    && forall s, block {:trigger Compress(p, s, block)} | |block| == 16 :: compress(s, block) == Compress(p, s, block)
  }

  /** One turn of the block loop. */
  method OneBlock<W(0,!new)>(ghost compress: (Hash<W>, seq<W>) -> Hash<W>, p: Parts<W>, h: Hash<W>, padded: Bytes, block: nat) returns (next: Hash<W>)
    requires block + 64 <= |padded| && IsCompression(compress, p)
    ensures next == compress(h, Block(p, padded, block))
  {
    var s := Run(p, h, padded, block);
    next := Plus(p, h, s);
    assert next == Compress(p, h, Block(p, padded, block));
  }

  /** The block loop. */
  method Blocks<W(0,!new)>(ghost compress: (Hash<W>, seq<W>) -> Hash<W>, p: Parts<W>, start: Hash<W>, padded: Bytes) returns (h: Hash<W>)
    requires |padded| % 64 == 0 && IsCompression(compress, p)
    ensures h == HashOf(compress, p, start, padded, |padded| / 64)
  {
    h := start;
    var block := 0;
    ghost var n := 0;
    while block < |padded|
      invariant block == n * 64 <= |padded|
      invariant h == HashOf(compress, p, start, padded, n)
    {
      h := OneBlock(compress, p, h, padded, block);
      block := block + 64;
      n := n + 1;
    }
  }

  function HashBytes(s: Hash<Word>): Bytes {
    FourBytes(s.a as nat) + FourBytes(s.b as nat) + FourBytes(s.c as nat) + FourBytes(s.d as nat)
    + FourBytes(s.e as nat) + FourBytes(s.f as nat) + FourBytes(s.g as nat) + FourBytes(s.h as nat)
  }

  method Sha256Bytes(data: Bytes) returns (out: Bytes)
    ensures out == HashBytes(Digest(data))
  {
    var view := Pad(data);
    PaddedFits(data);
    var h := Blocks(Standard, STANDARD, START, view[..]);
    return HashBytes(h);
  }
}
