/** The Elephant mode of dm-crypt: the diffusers on 32-bit words, around the sector key.
 */
module Elephant {
  import opened Arithmetic
  import opened Diffuser

  const MODULUS: nat := 0x1_0000_0000

  type Word = x: nat | x < MODULUS

  function Plus(a: Word, b: Word): Word {
    (a + b) % MODULUS
  }

  function Minus(a: Word, b: Word): Word {
    (a + MODULUS - b) % MODULUS
  }

  lemma MinusPlus(a: Word, x: Word)
    ensures Plus(Minus(a, x), x) == a && Minus(Plus(a, x), x) == a
  {
  }

  lemma PowerIs()
    ensures Pow2(32) == MODULUS
  {
    assert Pow2(8) == 256;
    assert Pow2(16) == 65536;
    assert Pow2(24) == 0x100_0000;
  }

  /** Exclusive or of the lowest bits of two numbers. */
  function XorBits(a: nat, b: nat, bits: nat): (r: nat)
    ensures r < Pow2(bits)
  {
    if bits == 0 then 0 else (a % 2 + b % 2) % 2 + 2 * XorBits(a / 2, b / 2, bits - 1)
  }

  lemma LowBit(bit: nat, rest: nat)
    requires bit < 2
    ensures (bit + 2 * rest) % 2 == bit && (bit + 2 * rest) / 2 == rest
  {
  }

  lemma {:induction false} XorTwice(a: nat, b: nat, bits: nat)
    requires a < Pow2(bits)
    ensures XorBits(XorBits(a, b, bits), b, bits) == a
  {
    if bits > 0 {
      XorTwice(a / 2, b / 2, bits - 1);
      var bit, rest := (a % 2 + b % 2) % 2, XorBits(a / 2, b / 2, bits - 1);
      LowBit(bit, rest);
      assert XorBits(a, b, bits) == bit + 2 * rest;
      FlipBack(a % 2, b % 2);
    }
  }

  lemma FlipBack(x: nat, y: nat)
    requires x < 2 && y < 2
    ensures ((x + y) % 2 + y) % 2 == x
  {
  }

  function Xor(a: Word, b: Word): Word {
    PowerIs();
    XorBits(a, b, 32)
  }

  lemma XorUndone(a: Word, b: Word)
    ensures Xor(Xor(a, b), b) == a
  {
    PowerIs();
    XorTwice(a, b, 32);
  }

  /** Rotation to the left; the two parts have no bit in common. */
  function Rotate(x: Word, k: nat): Word {
    if k >= 32 then x else (x * Pow2(k) + x / Pow2(32 - k)) % MODULUS
  }

  // ---------------------------------------------------------------- bit by bit

  /** The bits of a number, lowest first. */
  function BitOf(x: nat, i: nat): nat {
    if i == 0 then x % 2 else BitOf(x / 2, i - 1)
  }

  lemma {:induction false} XorBitsAt(a: nat, b: nat, bits: nat, i: nat)
    requires i < bits
    ensures BitOf(XorBits(a, b, bits), i) == (BitOf(a, i) + BitOf(b, i)) % 2
  {
    LowBit((a % 2 + b % 2) % 2, XorBits(a / 2, b / 2, bits - 1));
    if i > 0 {
      XorBitsAt(a / 2, b / 2, bits - 1, i - 1);
    }
  }

  /** A bit of the exclusive or is set when it is set in one of the two words. */
  lemma XorIsBitwise(a: Word, b: Word, i: nat)
    requires i < 32
    ensures BitOf(Xor(a, b), i) == (BitOf(a, i) + BitOf(b, i)) % 2
  {
    PowerIs();
    XorBitsAt(a, b, 32, i);
  }

  /** The bits of two numbers written one after the other. */
  lemma {:induction false} BitsJoined(h: nat, l: nat, m: nat, i: nat)
    requires l < Pow2(m)
    ensures BitOf(h * Pow2(m) + l, i) == if i < m then BitOf(l, i) else BitOf(h, i - m)
    decreases m
  {
    if m > 0 {
      var rest := h * Pow2(m - 1) + l / 2;
      assert h * Pow2(m) + l == l % 2 + 2 * rest by {
        MulAssoc(2, h, Pow2(m - 1));
        assert h * Pow2(m) == h * (2 * Pow2(m - 1));
      }
      LowBit(l % 2, rest);
      if i > 0 {
        BitsJoined(h, l / 2, m - 1, i - 1);
      }
    }
  }

  lemma PartsMultiply(k: nat)
    requires k < 32
    ensures Pow2(k) * Pow2(32 - k) == MODULUS
  {
    PowerIs();
    Pow2Add(k, 32 - k);
  }

  /** A word in two parts of 32 - k and k bits, and the rotated word with the parts exchanged. */
  lemma RotateSwaps(x: Word, k: nat, high: nat, low: nat) returns (h: nat, l: nat)
    requires k < 32 && high == Pow2(k) && low == Pow2(32 - k)
    ensures h < high && l < low && x == h * low + l && Rotate(x, k) == l * high + h
  {
    PartsMultiply(k);
    h, l := x / low, x % low;
    HighPart(x, high, low);
    Exchanged(x, h, l, high, low);
  }

  lemma HighPart(x: nat, high: nat, low: nat)
    requires low > 0 && x < high * low
    ensures x / low < high && x == x / low * low + x % low
  {
    DivMod(x, low);
    if x / low >= high {
      MulMono(high, x / low, low);
    }
  }

  lemma Exchanged(x: nat, h: nat, l: nat, high: nat, low: nat)
    requires x == h * low + l && h < high && l < low && high * low == MODULUS
    ensures (x * high + h) % MODULUS == l * high + h
  {
    MulAdd(h * low, l, high);
    assert h * low * high == h * MODULUS;
    MulMono(l + 1, low, high);
    MulAdd(l, 1, high);
    DivUnique(h, l * high + h, MODULUS);
  }

  /** Two numbers that have two parts, of m and k bits, in opposite order. */
  lemma BitsExchanged(x: nat, y: nat, h: nat, l: nat, m: nat, k: nat, i: nat)
    requires l < Pow2(m) && h < Pow2(k) && i < m + k && x == h * Pow2(m) + l && y == l * Pow2(k) + h
    ensures BitOf(y, if i < m then i + k else i - m) == BitOf(x, i)
  {
    BitsJoined(h, l, m, i);
    BitsJoined(l, h, k, if i < m then i + k else i - m);
  }

  lemma PlaceTurned(i: nat, k: nat)
    requires k < 32 && i < 32
    ensures (i + k) % 32 == if i < 32 - k then i + k else i - (32 - k)
  {
  }

  /** Rotation takes every bit k places up, going round the word. */
  lemma RotateIsBitwise(x: Word, k: nat, i: nat)
    requires k < 32 && i < 32
    ensures BitOf(Rotate(x, k), (i + k) % 32) == BitOf(x, i)
  {
    PlaceTurned(i, k);
    var h, l := RotateSwaps(x, k, Pow2(k), Pow2(32 - k));
    BitsExchanged(x, Rotate(x, k), h, l, 32 - k, k, i);
  }

  function Words(kind: Kind): Arith<Word> {
    Arith(kind, Ops(Plus, Minus, Xor, Rotate))
  }

  lemma WordsInvert(kind: Kind)
    ensures Inverse(Words(kind))
  {
    forall a, x
      ensures Words(kind).ops.plus(Words(kind).ops.minus(a, x), x) == a
      ensures Words(kind).ops.minus(Words(kind).ops.plus(a, x), x) == a
    {
      MinusPlus(a, x);
    }
  }

  // ---------------------------------------------------------------- how a word spreads

  lemma {:induction false} XorBitsZero(a: nat, bits: nat)
    requires a < Pow2(bits)
    ensures XorBits(a, 0, bits) == a && XorBits(0, a, bits) == a
  {
    if bits > 0 {
      XorBitsZero(a / 2, bits - 1);
    }
  }

  lemma PlusZero(x: Word)
    ensures Plus(x, 0) == x && Plus(0, x) == x
  {
  }

  lemma XorZero(x: Word)
    ensures Xor(x, 0) == x && Xor(0, x) == x
  {
    PowerIs();
    XorBitsZero(x, 32);
  }

  lemma ZeroTurned(k: nat)
    ensures Rotate(0, k) == 0
  {
    if k < 32 {
      ZeroParts(Pow2(k), Pow2(32 - k));
    }
  }

  lemma ZeroParts(high: nat, low: nat)
    requires low > 0
    ensures 0 * high + 0 / low == 0
  {
  }

  /** A sector in which one word is v and all others are zero. */
  ghost predicate Single(d: seq<Word>, j: nat, v: Word) {
    forall i :: 0 <= i < |d| ==> d[i] == if i == j then v else 0
  }

  lemma ZeroAddsNothing(kind: Kind, x: Word)
    ensures var ops := Words(kind).ops;
            ops.plus(x, 0) == x && ops.plus(0, x) == x && ops.xor(x, 0) == x && ops.xor(0, x) == x
  {
    PlusZero(x);
    XorZero(x);
  }

  /** A single word v at place j after a pass of diffuser A, up to five words on. */
  function SpreadA(v: Word, j: nat, i: int): Word {
    if i == j || i == j + 2 || i == j + 4 then v else if i == j + 5 then TurnA(Words(A), v, i) else 0
  }

  lemma ZeroStaysA(i: nat)
    ensures TurnA(Words(A), 0, i) == 0
  {
    ZeroTurned(9);
    ZeroTurned(13);
  }

  lemma ZeroStaysB(i: nat)
    ensures TurnB(Words(B), 0, i) == 0
  {
    ZeroTurned(10);
    ZeroTurned(25);
  }

  /** Of the three terms of a word at most one is not zero. */
  lemma SpreadStep(v: Word, j: nat, i: nat)
    requires i <= j + 5
    ensures var ops := Words(A).ops;
            SpreadA(v, j, i) == ops.plus(if i == j then v else 0,
                                         ops.xor(SpreadA(v, j, i - 2), TurnA(Words(A), SpreadA(v, j, i - 5), i)))
  {
    ZeroStaysA(i);
    ZeroAddsNothing(A, 0);
    ZeroAddsNothing(A, v);
    ZeroAddsNothing(A, TurnA(Words(A), v, i));
  }

  /** One decrypting pass of diffuser A takes a single word two and four words on, and five words on
      with its bits turned; the words before it stay zero. */
  lemma {:induction false} SpreadsA(d: seq<Word>, j: nat, v: Word, i: nat)
    requires |d| >= 8 && j + 5 < |d| && Single(d, j, v) && i <= j + 5
    ensures Up(Words(A), d, |d|)[i] ==
            if i == j || i == j + 2 || i == j + 4 then v else if i == j + 5 then TurnA(Words(A), v, i) else 0
  {
    SpreadStep(v, j, i);
    WordA(Words(A), d, i);
    if i >= 2 {
      SpreadsA(d, j, v, i - 2);
    }
    if i >= 5 {
      SpreadsA(d, j, v, i - 5);
    }
  }

  /** One decrypting pass of diffuser B takes a single word two words back, and five words back with its
      bits turned; the words before that stay zero. */
  lemma SpreadsB(d: seq<Word>, j: nat, v: Word, i: nat)
    requires |d| >= 8 && 5 <= j && j + 5 < |d| && Single(d, j, v) && i <= j
    ensures Up(Words(B), d, |d|)[i] ==
            if i == j || i == j - 2 then v else if i == j - 5 then TurnB(Words(B), v, i) else 0
  {
    WordB(Words(B), d, i);
    ZeroStaysB(i);
    ZeroAddsNothing(B, 0);
    ZeroAddsNothing(B, v);
    ZeroAddsNothing(B, TurnB(Words(B), v, i));
  }

  function Rounds(kind: Kind): nat {
    match kind
    case A => 5
    case B => 3
  }

  /** The sector key is eight words, laid over the sector as often as it fits. */
  function XorKey(d: seq<Word>, key: seq<Word>): (r: seq<Word>)
    requires |key| == 8
    ensures |r| == |d|
    ensures forall i :: 0 <= i < |d| ==> r[i] == if i < |d| / 8 * 8 then Xor(d[i], key[i % 8]) else d[i]
  {
    seq(|d|, i requires 0 <= i < |d| => if i < |d| / 8 * 8 then Xor(d[i], key[i % 8]) else d[i])
  }

  lemma XorKeyUndone(d: seq<Word>, key: seq<Word>)
    requires |key| == 8
    ensures XorKey(XorKey(d, key), key) == d
  {
    forall i | 0 <= i < |d|
      ensures XorKey(XorKey(d, key), key)[i] == d[i]
    {
      XorUndone(d[i], key[i % 8]);
    }
  }

  function Written(d: seq<Word>, key: seq<Word>): (r: seq<Word>)
    requires |key| == 8 && |d| >= 8
    ensures |r| == |d|
  {
    Encrypt(Words(B), Encrypt(Words(A), XorKey(d, key), Rounds(A)), Rounds(B))
  }

  function Read(d: seq<Word>, key: seq<Word>): (r: seq<Word>)
    requires |key| == 8 && |d| >= 8
    ensures |r| == |d|
  {
    XorKey(Decrypt(Words(A), Decrypt(Words(B), d, Rounds(B)), Rounds(A)), key)
  }

  /** A sector is written in five rounds of diffuser A and three of diffuser B, and read in three of B and
      five of A. */
  lemma RoundsAre(d: seq<Word>, key: seq<Word>)
    requires |key| == 8 && |d| >= 8
    ensures Written(d, key) == Encrypt(Words(B), Encrypt(Words(A), XorKey(d, key), 5), 3)
    ensures Read(d, key) == XorKey(Decrypt(Words(A), Decrypt(Words(B), d, 3), 5), key)
  {
  }

  /** And that many rounds are that many passes. */
  lemma FiveAndThree(d: seq<Word>)
    requires |d| >= 8
    ensures
      var (a, n) := (Words(A), |d|);
      && Encrypt(a, d, 5) == Down(a, Down(a, Down(a, Down(a, Down(a, d, n), n), n), n), n)
      && Decrypt(a, d, 5) == Up(a, Up(a, Up(a, Up(a, Up(a, d, n), n), n), n), n)
    ensures
      var (b, n) := (Words(B), |d|);
      && Encrypt(b, d, 3) == Down(b, Down(b, Down(b, d, n), n), n)
      && Decrypt(b, d, 3) == Up(b, Up(b, Up(b, d, n), n), n)
  {
    EncryptIs(Words(A), d, 0);
    EncryptIs(Words(A), d, 1);
    EncryptIs(Words(A), d, 2);
    EncryptIs(Words(A), d, 3);
    EncryptIs(Words(A), d, 4);
    EncryptIs(Words(B), d, 0);
    EncryptIs(Words(B), d, 1);
    EncryptIs(Words(B), d, 2);
  }

  /** One more round is one more pass. */
  lemma EncryptIs(k: Arith<Word>, d: seq<Word>, rounds: nat)
    requires |d| >= 8
    ensures Encrypt(k, d, rounds + 1) == Down(k, Encrypt(k, d, rounds), |d|)
    ensures Decrypt(k, d, rounds + 1) == Up(k, Decrypt(k, d, rounds), |d|)
  {
  }

  /** Reading undoes writing, for every sector and every key. */
  lemma ReadUndoesWrite(d: seq<Word>, key: seq<Word>)
    requires |key| == 8 && |d| >= 8
    ensures Read(Written(d, key), key) == d
  {
    WordsInvert(A);
    WordsInvert(B);
    var x := XorKey(d, key);
    var a := Encrypt(Words(A), x, Rounds(A));
    DecryptEncrypt(Words(B), a, Rounds(B));
    DecryptEncrypt(Words(A), x, Rounds(A));
    XorKeyUndone(d, key);
  }

  /** And writing what was read gives back what was on disk. */
  lemma WriteUndoesRead(d: seq<Word>, key: seq<Word>)
    requires |key| == 8 && |d| >= 8
    ensures Written(Read(d, key), key) == d
  {
    WordsInvert(A);
    WordsInvert(B);
    var b := Decrypt(Words(B), d, Rounds(B));
    var a := Decrypt(Words(A), b, Rounds(A));
    XorKeyUndone(a, key);
    EncryptDecrypt(Words(A), b, Rounds(A));
    EncryptDecrypt(Words(B), d, Rounds(B));
  }

  /** The loop of `crypto_xor` over the sector, 32 bytes at a time. */
  method XorInPlace(d: array<Word>, key: seq<Word>)
    requires |key| == 8
    modifies d
    ensures d[..] == XorKey(old(d[..]), key)
  {
    var i, n := 0, d.Length / 8 * 8;
    while i < n
      invariant 0 <= i <= n <= d.Length
      invariant forall j :: 0 <= j < i ==> d[j] == Xor(old(d[j]), key[j % 8])
      invariant forall j :: i <= j < d.Length ==> d[j] == old(d[j])
    {
      d[i] := Xor(d[i], key[i % 8]);
      i := i + 1;
    }
  }

  /** `crypt_iv_elephant` for a sector being written. */
  method WriteSector(d: array<Word>, key: seq<Word>)
    requires |key| == 8 && d.Length >= 8 && d.Length % 4 == 0
    modifies d
    ensures d[..] == Written(old(d[..]), key)
  {
    XorInPlace(d, key);
    EncryptInPlace(Words(A), d, Rounds(A));
    EncryptInPlace(Words(B), d, Rounds(B));
  }

  /** `crypt_iv_elephant` for a sector being read. */
  method ReadSector(d: array<Word>, key: seq<Word>)
    requires |key| == 8 && d.Length >= 8 && d.Length % 4 == 0
    modifies d
    ensures d[..] == Read(old(d[..]), key)
  {
    DecryptInPlace(Words(B), d, Rounds(B));
    DecryptInPlace(Words(A), d, Rounds(A));
    XorInPlace(d, key);
  }
}
