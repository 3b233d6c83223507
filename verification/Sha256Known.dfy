/** SHA-256 against a digest its standard's authors publish: that of "abc", one block. */
module Sha256Known {
  import opened Arithmetic
  import opened Sha256

  // The schedule of its block.
  const W0: seq<Word> := [0x61626380, 0x00000000, 0x00000000, 0x00000000, 0x00000000, 0x00000000, 0x00000000, 0x00000000]
  const W8: seq<Word> := [0x00000000, 0x00000000, 0x00000000, 0x00000000, 0x00000000, 0x00000000, 0x00000000, 0x00000018]
  const W16: seq<Word> := [0x61626380, 0x000f0000, 0x7da86405, 0x600003c6, 0x3e9d7b78, 0x0183fc00, 0x12dcbfdb, 0xe2e2c38e]
  const W24: seq<Word> := [0xc8215c1a, 0xb73679a2, 0xe5bc3909, 0x32663c5b, 0x9d209d67, 0xec8726cb, 0x702138a4, 0xd3b7973b]
  const W32: seq<Word> := [0x93f5997f, 0x3b68ba73, 0xaff4ffc1, 0xf10a5c62, 0x0a8b3996, 0x72af830a, 0x9409e33e, 0x24641522]
  const W40: seq<Word> := [0x9f47bf94, 0xf0a64f5a, 0x3e246a79, 0x27333ba3, 0x0c4763f2, 0x840abf27, 0x7a290d5d, 0x065c43da]
  const W48: seq<Word> := [0xfb3e89cb, 0xcc7617db, 0xb9e66c34, 0xa9993667, 0x84badedd, 0xc21462bc, 0x1487472c, 0xb20f7a99]
  const W56: seq<Word> := [0xef57b9cd, 0xebe6b238, 0x9fe3095e, 0x78bc8d4b, 0xa43fcf15, 0x668b2ff8, 0xeeaba2cc, 0x12b1edeb]

  // Its variables, after every eight rounds.
  const S8: Hash<Word> := Hash(0x85a07b5f, 0xe5030380, 0x2b4209f5, 0x04409a6a, 0x0c657a79, 0x9b27a401, 0x714260ad, 0x43ada245)
  const S16: Hash<Word> := Hash(0xb0fa238e, 0xc0645fde, 0xd932eb16, 0x87912990, 0x07590dcd, 0x0b92f20c, 0x745a48de, 0x1e578218)
  const S24: Hash<Word> := Hash(0xc5d53d8d, 0xa7a3623f, 0xc2606d6d, 0x9dc68b63, 0xaa47c347, 0x49f5114a, 0xe1257970, 0x8ada8930)
  const S32: Hash<Word> := Hash(0x73b33bf5, 0xea992a22, 0xa0060b30, 0x363482c9, 0xba591112, 0x0109ab3a, 0xade79437, 0x6112a3b7)
  const S40: Hash<Word> := Hash(0x79ea687a, 0x6dc57a8a, 0x34df1604, 0x41a65cb1, 0x1efbc0a0, 0xf0781bc8, 0xa507a53d, 0x0772a26b)
  const S48: Hash<Word> := Hash(0x4172328d, 0xa14c14b0, 0x72ab4b91, 0x26628815, 0xfecf0bc6, 0xd57b94a9, 0xb7755da1, 0xa80f11f0)
  const S56: Hash<Word> := Hash(0x38cc9913, 0x3ec45cdb, 0xf5702fdb, 0x101fd28f, 0x54cb266b, 0xe50e1b4f, 0x9f4787c3, 0x529e7d00)
  const S64: Hash<Word> := Hash(0x506e3058, 0xd39a2165, 0x04d24d6c, 0xb85e2ce9, 0x5ef50f24, 0xfb121210, 0x948d25b6, 0x961f4894)

  /** Eight rounds, one after the other. */
  function Eight<W>(p: Parts<W>, s: Hash<W>, k: seq<W>, w: seq<W>): Hash<W>
    requires |k| == 8 && |w| == 8
  {
    var s4 := Round(p, Round(p, Round(p, Round(p, s, k[0], w[0]), k[1], w[1]), k[2], w[2]), k[3], w[3]);
    Round(p, Round(p, Round(p, Round(p, s4, k[4], w[4]), k[5], w[5]), k[6], w[6]), k[7], w[7])
  }

  function Next<W>(p: Parts<W>, w16: W, w15: W, w7: W, w2: W): W {
    p.sum(p.sum(p.sum(w16, p.smallSigma0(w15)), w7), p.smallSigma1(w2))
  }

  /** The eight words of a schedule after these sixteen. */
  function NextEight<W>(p: Parts<W>, a: seq<W>, b: seq<W>): seq<W>
    requires |a| == 8 && |b| == 8
  {
    var (x0, x1) := (Next(p, a[0], a[1], b[1], b[6]), Next(p, a[1], a[2], b[2], b[7]));
    var (x2, x3) := (Next(p, a[2], a[3], b[3], x0), Next(p, a[3], a[4], b[4], x1));
    var (x4, x5) := (Next(p, a[4], a[5], b[5], x2), Next(p, a[5], a[6], b[6], x3));
    [x0, x1, x2, x3, x4, x5, Next(p, a[6], a[7], b[7], x4), Next(p, a[7], b[0], x0, x5)]
  }

  predicate WordsAt<W(==)>(p: Parts<W>, block: seq<W>, t: nat, w: seq<W>)
    requires |block| == 16
  {
    && |w| == 8
    && Scheduled(p, block, t) == w[0] && Scheduled(p, block, t + 1) == w[1]
    && Scheduled(p, block, t + 2) == w[2] && Scheduled(p, block, t + 3) == w[3]
    && Scheduled(p, block, t + 4) == w[4] && Scheduled(p, block, t + 5) == w[5]
    && Scheduled(p, block, t + 6) == w[6] && Scheduled(p, block, t + 7) == w[7]
  }

  lemma {:induction false} FourWords<W>(p: Parts<W>, block: seq<W>, t: nat, a: seq<W>, b: seq<W>)
    requires |block| == 16 && t >= 16 && WordsAt(p, block, t - 16, a) && WordsAt(p, block, t - 8, b)
    ensures var x := NextEight(p, a, b);
      && Scheduled(p, block, t) == x[0] && Scheduled(p, block, t + 1) == x[1]
      && Scheduled(p, block, t + 2) == x[2] && Scheduled(p, block, t + 3) == x[3]
  {
    var x := NextEight(p, a, b);
    NextWord(p, block, t, a[0], a[1], b[1], b[6]);
    NextWord(p, block, t + 1, a[1], a[2], b[2], b[7]);
    NextWord(p, block, t + 2, a[2], a[3], b[3], x[0]);
    NextWord(p, block, t + 3, a[3], a[4], b[4], x[1]);
  }

  lemma {:induction false} EightWords<W>(p: Parts<W>, block: seq<W>, t: nat, a: seq<W>, b: seq<W>)
    requires |block| == 16 && t >= 16 && WordsAt(p, block, t - 16, a) && WordsAt(p, block, t - 8, b)
    ensures WordsAt(p, block, t, NextEight(p, a, b))
  {
    var x := NextEight(p, a, b);
    FourWords(p, block, t, a, b);
    NextWord(p, block, t + 4, a[4], a[5], b[5], x[2]);
    NextWord(p, block, t + 5, a[5], a[6], b[6], x[3]);
    NextWord(p, block, t + 6, a[6], a[7], b[7], x[4]);
    NextWord(p, block, t + 7, a[7], b[0], x[0], x[5]);
  }

  lemma {:induction false} RoundOf<W>(p: Parts<W>, s: Hash<W>, block: seq<W>, t: nat, k: W, w: W)
    requires |block| == 16 && t < |p.k| && p.k[t] == k && Scheduled(p, block, t) == w
    ensures Rounds(p, s, block, t + 1) == Round(p, Rounds(p, s, block, t), k, w)
  {
  }

  lemma {:induction false} EightRounds<W>(p: Parts<W>, s: Hash<W>, block: seq<W>, t: nat, k: seq<W>, w: seq<W>)
    requires |block| == 16 && t + 8 <= |p.k| && |k| == 8 && WordsAt(p, block, t, w)
    requires forall i :: 0 <= i < 8 ==> p.k[t + i] == k[i]
    ensures Rounds(p, s, block, t + 8) == Eight(p, Rounds(p, s, block, t), k, w)
  {
    RoundOf(p, s, block, t, k[0], w[0]);
    RoundOf(p, s, block, t + 1, k[1], w[1]);
    RoundOf(p, s, block, t + 2, k[2], w[2]);
    RoundOf(p, s, block, t + 3, k[3], w[3]);
    RoundOf(p, s, block, t + 4, k[4], w[4]);
    RoundOf(p, s, block, t + 5, k[5], w[5]);
    RoundOf(p, s, block, t + 6, k[6], w[6]);
    RoundOf(p, s, block, t + 7, k[7], w[7]);
  }

  lemma {:induction false} Words16(block: seq<Word>)
    requires |block| == 16 && WordsAt(STANDARD, block, 0, W0) && WordsAt(STANDARD, block, 8, W8)
    ensures WordsAt(STANDARD, block, 16, W16)
  {
    EightWords(STANDARD, block, 16, W0, W8);
    assert NextEight(STANDARD, W0, W8) == W16;
  }

  lemma {:induction false} Words24(block: seq<Word>)
    requires |block| == 16 && WordsAt(STANDARD, block, 8, W8) && WordsAt(STANDARD, block, 16, W16)
    ensures WordsAt(STANDARD, block, 24, W24)
  {
    EightWords(STANDARD, block, 24, W8, W16);
    assert NextEight(STANDARD, W8, W16) == W24;
  }

  lemma {:induction false} Words32(block: seq<Word>)
    requires |block| == 16 && WordsAt(STANDARD, block, 16, W16) && WordsAt(STANDARD, block, 24, W24)
    ensures WordsAt(STANDARD, block, 32, W32)
  {
    EightWords(STANDARD, block, 32, W16, W24);
    assert NextEight(STANDARD, W16, W24) == W32;
  }

  lemma {:induction false} Words40(block: seq<Word>)
    requires |block| == 16 && WordsAt(STANDARD, block, 24, W24) && WordsAt(STANDARD, block, 32, W32)
    ensures WordsAt(STANDARD, block, 40, W40)
  {
    EightWords(STANDARD, block, 40, W24, W32);
    assert NextEight(STANDARD, W24, W32) == W40;
  }

  lemma {:induction false} Words48(block: seq<Word>)
    requires |block| == 16 && WordsAt(STANDARD, block, 32, W32) && WordsAt(STANDARD, block, 40, W40)
    ensures WordsAt(STANDARD, block, 48, W48)
  {
    EightWords(STANDARD, block, 48, W32, W40);
    assert NextEight(STANDARD, W32, W40) == W48;
  }

  lemma {:induction false} Words56(block: seq<Word>)
    requires |block| == 16 && WordsAt(STANDARD, block, 40, W40) && WordsAt(STANDARD, block, 48, W48)
    ensures WordsAt(STANDARD, block, 56, W56)
  {
    EightWords(STANDARD, block, 56, W40, W48);
    assert NextEight(STANDARD, W40, W48) == W56;
  }

  lemma {:induction false} Rounds8(block: seq<Word>, t: nat)
    requires |block| == 16 && t == 0 && WordsAt(STANDARD, block, t, W0)
    requires Rounds(STANDARD, START, block, t) == START
    ensures Rounds(STANDARD, START, block, t + 8) == S8
  {
    EightRounds(STANDARD, START, block, t, K0, W0);
  }

  lemma {:induction false} Rounds16(block: seq<Word>)
    requires |block| == 16 && WordsAt(STANDARD, block, 8, W8)
    requires Rounds(STANDARD, START, block, 8) == S8
    ensures Rounds(STANDARD, START, block, 16) == S16
  {
    EightRounds(STANDARD, START, block, 8, K8, W8);
  }

  lemma {:induction false} Rounds24(block: seq<Word>)
    requires |block| == 16 && WordsAt(STANDARD, block, 16, W16)
    requires Rounds(STANDARD, START, block, 16) == S16
    ensures Rounds(STANDARD, START, block, 24) == S24
  {
    EightRounds(STANDARD, START, block, 16, K16, W16);
  }

  lemma {:induction false} Rounds32(block: seq<Word>)
    requires |block| == 16 && WordsAt(STANDARD, block, 24, W24)
    requires Rounds(STANDARD, START, block, 24) == S24
    ensures Rounds(STANDARD, START, block, 32) == S32
  {
    EightRounds(STANDARD, START, block, 24, K24, W24);
  }

  lemma {:induction false} Rounds40(block: seq<Word>)
    requires |block| == 16 && WordsAt(STANDARD, block, 32, W32)
    requires Rounds(STANDARD, START, block, 32) == S32
    ensures Rounds(STANDARD, START, block, 40) == S40
  {
    EightRounds(STANDARD, START, block, 32, K32, W32);
  }

  lemma {:induction false} Rounds48(block: seq<Word>)
    requires |block| == 16 && WordsAt(STANDARD, block, 40, W40)
    requires Rounds(STANDARD, START, block, 40) == S40
    ensures Rounds(STANDARD, START, block, 48) == S48
  {
    EightRounds(STANDARD, START, block, 40, K40, W40);
  }

  lemma {:induction false} Rounds56(block: seq<Word>)
    requires |block| == 16 && WordsAt(STANDARD, block, 48, W48)
    requires Rounds(STANDARD, START, block, 48) == S48
    ensures Rounds(STANDARD, START, block, 56) == S56
  {
    EightRounds(STANDARD, START, block, 48, K48, W48);
  }

  lemma {:induction false} Rounds64(block: seq<Word>)
    requires |block| == 16 && WordsAt(STANDARD, block, 56, W56)
    requires Rounds(STANDARD, START, block, 56) == S56
    ensures Rounds(STANDARD, START, block, 64) == S64
  {
    EightRounds(STANDARD, START, block, 56, K56, W56);
  }

  const ABC: Bytes := [0x61, 0x62, 0x63]

  lemma {:induction false} AbcPadded()
    ensures |Padded(ABC)| == 64
    ensures NumberAt(Padded(ABC), 0) == 0x61626380 && NumberAt(Padded(ABC), 60) == 24
    ensures forall i :: 1 <= i < 15 ==> NumberAt(Padded(ABC), i * 4) == 0
  {
  }

  lemma {:induction false} MarkedWord(n: nat)
    requires n == 0x61626380
    ensures WordOf(n) == 0x61626380
  {
    assert n % 0x1_0000_0000 == n;
  }

  lemma {:induction false} LengthWord(n: nat)
    requires n == 24
    ensures WordOf(n) == 24
  {
    assert n % 0x1_0000_0000 == n;
  }

  lemma {:induction false} EmptyWord(n: nat)
    requires n == 0
    ensures WordOf(n) == 0
  {
    assert n % 0x1_0000_0000 == n;
  }

  lemma {:induction false} BlockWords(p: Parts<Word>, bytes: Bytes, block: seq<Word>)
    requires p.word(0x61626380) == 0x61626380 && p.word(24) == 24 && p.word(0) == 0
    requires |bytes| == 64 && block == Block(p, bytes, 0)
    requires NumberAt(bytes, 0) == 0x61626380 && NumberAt(bytes, 60) == 24
    requires forall i :: 1 <= i < 15 ==> NumberAt(bytes, i * 4) == 0
    ensures WordsAt(p, block, 0, W0) && WordsAt(p, block, 8, W8)
  {
    assert forall i :: 0 <= i < 16 ==> block[i] == p.word(NumberAt(bytes, i * 4));
    assert block[15] == 24;
  }

  lemma {:induction false} AbcWords(word: nat -> Word)
    requires word == WordOf
    ensures word(0x61626380) == 0x61626380 && word(24) == 24 && word(0) == 0
  {
    MarkedWord(0x61626380);
    LengthWord(24);
    EmptyWord(0);
  }

  lemma {:induction false} AbcRounds(block: seq<Word>)
    requires |block| == 16 && WordsAt(STANDARD, block, 0, W0) && WordsAt(STANDARD, block, 8, W8)
    ensures Rounds(STANDARD, START, block, 64) == S64
  {
    Words16(block);
    Words24(block);
    Words32(block);
    Words40(block);
    Words48(block);
    Words56(block);
    Rounds8(block, 0);
    Rounds16(block);
    Rounds24(block);
    Rounds32(block);
    Rounds40(block);
    Rounds48(block);
    Rounds56(block);
    Rounds64(block);
  }

  const DIGEST: Hash<Word> := Hash(0xba7816bf, 0x8f01cfea, 0x414140de, 0x5dae2223, 0xb00361a3, 0x96177a9c, 0xb410ff61, 0xf20015ad)

  lemma {:induction false} AbcSum()
    ensures Plus(STANDARD, START, S64) == DIGEST
  {
  }

  lemma {:induction false} OneBlockHash<W>(compress: (Hash<W>, seq<W>) -> Hash<W>, p: Parts<W>, start: Hash<W>, bytes: Bytes)
    requires |bytes| == 64
    ensures HashOf(compress, p, start, bytes, 1) == compress(start, Block(p, bytes, 0))
  {
    assert HashOf(compress, p, start, bytes, 0) == start;
  }

  lemma {:induction false} AbcNumbers()
    ensures 0xba7816bf as Word as nat == 0xba7816bf
    ensures 0x8f01cfea as Word as nat == 0x8f01cfea
    ensures 0x414140de as Word as nat == 0x414140de
    ensures 0x5dae2223 as Word as nat == 0x5dae2223
    ensures 0xb00361a3 as Word as nat == 0xb00361a3
    ensures 0x96177a9c as Word as nat == 0x96177a9c
    ensures 0xb410ff61 as Word as nat == 0xb410ff61
    ensures 0xf20015ad as Word as nat == 0xf20015ad
  {
  }

  lemma {:induction false} AbcFourBytes()
    ensures FourBytes(0xba7816bf) == [0xba, 0x78, 0x16, 0xbf]
    ensures FourBytes(0x8f01cfea) == [0x8f, 0x01, 0xcf, 0xea]
    ensures FourBytes(0x414140de) == [0x41, 0x41, 0x40, 0xde]
    ensures FourBytes(0x5dae2223) == [0x5d, 0xae, 0x22, 0x23]
    ensures FourBytes(0xb00361a3) == [0xb0, 0x03, 0x61, 0xa3]
    ensures FourBytes(0x96177a9c) == [0x96, 0x17, 0x7a, 0x9c]
    ensures FourBytes(0xb410ff61) == [0xb4, 0x10, 0xff, 0x61]
    ensures FourBytes(0xf20015ad) == [0xf2, 0x00, 0x15, 0xad]
  {
  }

  lemma {:induction false} AbcBytes()
    ensures HashBytes(DIGEST) == [0xba, 0x78, 0x16, 0xbf, 0x8f, 0x01, 0xcf, 0xea, 0x41, 0x41, 0x40, 0xde, 0x5d, 0xae, 0x22, 0x23,
      0xb0, 0x03, 0x61, 0xa3, 0x96, 0x17, 0x7a, 0x9c, 0xb4, 0x10, 0xff, 0x61, 0xf2, 0x00, 0x15, 0xad]
  {
    AbcNumbers();
    AbcFourBytes();
  }

  /** The digest of "abc" is the one published with the standard. */
  lemma {:induction false} AbcDigest()
    ensures HashBytes(Digest(ABC)) == [
      0xba, 0x78, 0x16, 0xbf, 0x8f, 0x01, 0xcf, 0xea, 0x41, 0x41, 0x40, 0xde, 0x5d, 0xae, 0x22, 0x23,
      0xb0, 0x03, 0x61, 0xa3, 0x96, 0x17, 0x7a, 0x9c, 0xb4, 0x10, 0xff, 0x61, 0xf2, 0x00, 0x15, 0xad]
  {
    AbcPadded();
    AbcWords(STANDARD.word);
    BlockWords(STANDARD, Padded(ABC), Block(STANDARD, Padded(ABC), 0));
    AbcRounds(Block(STANDARD, Padded(ABC), 0));
    AbcSum();
    OneBlockHash(Standard, STANDARD, START, Padded(ABC));
    AbcBytes();
  }
}
