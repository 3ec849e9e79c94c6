/** Passes that add to each word of a sector, or subtract from it, a mixture of two words some
    way before or after it.  That the passes undo each other depends neither on the mixture nor
    on the words, only on subtraction undoing addition.
 */
module Diffuser {

  /** Diffuser A looks back over the sector, diffuser B looks ahead. */
  datatype Kind = A | B

  /** What the diffusers do with words. */
  datatype Ops<!W(!new)> = Ops(plus: (W, W) -> W, minus: (W, W) -> W, xor: (W, W) -> W, rotate: (W, nat) -> W)

  datatype Arith<!W(!new)> = Arith(kind: Kind, ops: Ops<W>)

  ghost predicate Inverse<W(!new)>(k: Arith<W>) {
    forall a, x :: k.ops.plus(k.ops.minus(a, x), x) == a && k.ops.minus(k.ops.plus(a, x), x) == a
  }

  /** By how much the word in the given place of each group of four turns its second operand. */
  function Rotation(kind: Kind, place: nat): nat {
    match kind
    case A => if place == 0 then 9 else if place == 2 then 13 else 0
    case B => if place == 1 then 10 else if place == 3 then 25 else 0
  }

  function Turn<W(!new)>(k: Arith<W>, rot: nat, x: W): W {
    if rot == 0 then x else k.ops.rotate(x, rot)
  }

  /** The word `off` places before or after index i, going round the sector. */
  function Operand(kind: Kind, n: nat, i: nat, off: nat): nat
    requires i < n && off < n
  {
    match kind
    case A => if i >= off then i - off else i + n - off
    case B => if i + off < n then i + off else i + off - n
  }

  function Mix<W(!new)>(k: Arith<W>, d: seq<W>, i: nat): W
    requires i < |d| && |d| >= 6
  {
    k.ops.xor(d[Operand(k.kind, |d|, i, 2)], Turn(k, Rotation(k.kind, i % 4), d[Operand(k.kind, |d|, i, 5)]))
  }

  function AddAt<W(!new)>(k: Arith<W>, d: seq<W>, i: nat): seq<W>
    requires i < |d| && |d| >= 6
  {
    d[i := k.ops.plus(d[i], Mix(k, d, i))]
  }

  function SubAt<W(!new)>(k: Arith<W>, d: seq<W>, i: nat): seq<W>
    requires i < |d| && |d| >= 6
  {
    d[i := k.ops.minus(d[i], Mix(k, d, i))]
  }

  /** A step changes neither of its operands, so the opposite step undoes it. */
  lemma StepUndone<W(!new)>(k: Arith<W>, d: seq<W>, i: nat)
    requires Inverse(k) && i < |d| && |d| >= 6
    ensures AddAt(k, SubAt(k, d, i), i) == d
    ensures SubAt(k, AddAt(k, d, i), i) == d
  {
    var m := Mix(k, d, i);
    assert Mix(k, SubAt(k, d, i), i) == m && Mix(k, AddAt(k, d, i), i) == m;
  }

  /** A decrypting pass over the words below i, upwards. */
  function Up<W(!new)>(k: Arith<W>, d: seq<W>, i: nat): (r: seq<W>)
    requires i <= |d| && |d| >= 6
    ensures |r| == |d|
    decreases i
  {
    if i == 0 then d else AddAt(k, Up(k, d, i - 1), i - 1)
  }

  /** An encrypting pass over the words below i, downwards. */
  function Down<W(!new)>(k: Arith<W>, d: seq<W>, i: nat): (r: seq<W>)
    requires i <= |d| && |d| >= 6
    ensures |r| == |d|
    decreases i
  {
    if i == 0 then d else Down(k, SubAt(k, d, i - 1), i - 1)
  }

  lemma {:induction false} PassUndone<W(!new)>(k: Arith<W>, d: seq<W>, i: nat)
    requires Inverse(k) && i <= |d| && |d| >= 6
    ensures Up(k, Down(k, d, i), i) == d
    ensures Down(k, Up(k, d, i), i) == d
    decreases i
  {
    if i > 0 {
      PassUndone(k, SubAt(k, d, i - 1), i - 1);
      StepUndone(k, d, i - 1);
      PassUndone(k, d, i - 1);
      StepUndone(k, Up(k, d, i - 1), i - 1);
    }
  }

  function Decrypt<W(!new)>(k: Arith<W>, d: seq<W>, rounds: nat): (r: seq<W>)
    requires |d| >= 6
    ensures |r| == |d|
  {
    if rounds == 0 then d else Up(k, Decrypt(k, d, rounds - 1), |d|)
  }

  function Encrypt<W(!new)>(k: Arith<W>, d: seq<W>, rounds: nat): (r: seq<W>)
    requires |d| >= 6
    ensures |r| == |d|
  {
    if rounds == 0 then d else Down(k, Encrypt(k, d, rounds - 1), |d|)
  }

  /** Rounds may be counted from either end. */
  lemma {:induction false} EncryptFirst<W(!new)>(k: Arith<W>, d: seq<W>, rounds: nat)
    requires |d| >= 6 && rounds > 0
    ensures Encrypt(k, d, rounds) == Encrypt(k, Down(k, d, |d|), rounds - 1)
  {
    if rounds > 1 {
      EncryptFirst(k, d, rounds - 1);
    }
  }

  /** Decryption undoes encryption, whatever the number of rounds. */
  lemma {:induction false} DecryptEncrypt<W(!new)>(k: Arith<W>, d: seq<W>, rounds: nat)
    requires Inverse(k) && |d| >= 6
    ensures Decrypt(k, Encrypt(k, d, rounds), rounds) == d
    decreases rounds
  {
    if rounds > 0 {
      EncryptFirst(k, d, rounds);
      DecryptEncrypt(k, Down(k, d, |d|), rounds - 1);
      PassUndone(k, d, |d|);
    }
  }

  /** And encryption decryption. */
  lemma {:induction false} EncryptDecrypt<W(!new)>(k: Arith<W>, d: seq<W>, rounds: nat)
    requires Inverse(k) && |d| >= 6
    ensures Encrypt(k, Decrypt(k, d, rounds), rounds) == d
    decreases rounds
  {
    if rounds > 0 {
      EncryptFirst(k, Decrypt(k, d, rounds), rounds);
      PassUndone(k, Decrypt(k, d, rounds - 1), |d|);
      EncryptDecrypt(k, d, rounds - 1);
    }
  }

  // ---------------------------------------------------------------- what a pass computes

  /** A pass has settled the words below i and has not touched the others. */
  lemma {:induction false} UpSettles<W(!new)>(k: Arith<W>, d: seq<W>, i: nat, j: nat, w: nat)
    requires i <= j <= |d| && |d| >= 6 && w < |d|
    ensures w < i ==> Up(k, d, j)[w] == Up(k, d, i)[w]
    ensures w >= j ==> Up(k, d, j)[w] == d[w]
    decreases j
  {
    if j > 0 {
      if i < j {
        UpSettles(k, d, i, j - 1, w);
      } else {
        UpSettles(k, d, i - 1, j - 1, w);
      }
    }
  }

  /** Every word gains the mixture of two others, those before it as the pass has left them and those
      behind it as they were. */
  ghost predicate Gains<W(!new)>(k: Arith<W>, d: seq<W>, r: seq<W>, i: nat)
    requires i < |d| == |r| && |d| >= 6
  {
    var o, p := Operand(k.kind, |d|, i, 2), Operand(k.kind, |d|, i, 5);
    r[i] == k.ops.plus(d[i], k.ops.xor(if o < i then r[o] else d[o],
                                       Turn(k, Rotation(k.kind, i % 4), if p < i then r[p] else d[p])))
  }

  lemma PassWord<W(!new)>(k: Arith<W>, d: seq<W>, i: nat)
    requires i < |d| && |d| >= 6
    ensures Gains(k, d, Up(k, d, |d|), i)
  {
    var o, p := Operand(k.kind, |d|, i, 2), Operand(k.kind, |d|, i, 5);
    UpSettles(k, d, i + 1, |d|, i);
    UpSettles(k, d, i, i, i);
    UpSettles(k, d, i, |d|, o);
    UpSettles(k, d, i, i, o);
    UpSettles(k, d, i, |d|, p);
    UpSettles(k, d, i, i, p);
  }

  /** The second operand as diffuser A and as diffuser B turn it for the word at i. */
  function TurnA<W(!new)>(k: Arith<W>, x: W, i: nat): W {
    if i % 4 == 0 then k.ops.rotate(x, 9) else if i % 4 == 2 then k.ops.rotate(x, 13) else x
  }

  function TurnB<W(!new)>(k: Arith<W>, x: W, i: nat): W {
    if i % 4 == 1 then k.ops.rotate(x, 10) else if i % 4 == 3 then k.ops.rotate(x, 25) else x
  }

  /** A word gains the mixture of the words two and five places before it. */
  ghost predicate GainsA<W(!new)>(k: Arith<W>, d: seq<W>, r: seq<W>, i: nat)
    requires i < |d| == |r| && |d| >= 6
  {
    r[i] == k.ops.plus(d[i], k.ops.xor(if i >= 2 then r[i - 2] else d[i + |d| - 2],
                                       TurnA(k, if i >= 5 then r[i - 5] else d[i + |d| - 5], i)))
  }

  /** Or of the words two and five places behind it. */
  ghost predicate GainsB<W(!new)>(k: Arith<W>, d: seq<W>, r: seq<W>, i: nat)
    requires i < |d| == |r| && |d| >= 6
  {
    r[i] == k.ops.plus(d[i], k.ops.xor(if i + 2 < |d| then d[i + 2] else r[i + 2 - |d|],
                                       TurnB(k, if i + 5 < |d| then d[i + 5] else r[i + 5 - |d|], i)))
  }

  lemma GainsAs<W(!new)>(k: Arith<W>, d: seq<W>, r: seq<W>, i: nat)
    requires i < |d| == |r| && |d| >= 6 && Gains(k, d, r, i)
    ensures k.kind == A ==> GainsA(k, d, r, i)
    ensures k.kind == B ==> GainsB(k, d, r, i)
  {
  }

  /** A decrypting pass of diffuser A looks two and five words back. */
  lemma WordA<W(!new)>(k: Arith<W>, d: seq<W>, i: nat)
    requires i < |d| && |d| >= 6 && k.kind == A
    ensures GainsA(k, d, Up(k, d, |d|), i)
  {
    PassWord(k, d, i);
    GainsAs(k, d, Up(k, d, |d|), i);
  }

  /** And one of diffuser B two and five words ahead. */
  lemma WordB<W(!new)>(k: Arith<W>, d: seq<W>, i: nat)
    requires i < |d| && |d| >= 6 && k.kind == B
    ensures GainsB(k, d, Up(k, d, |d|), i)
  {
    PassWord(k, d, i);
    GainsAs(k, d, Up(k, d, |d|), i);
  }

  // ---------------------------------------------------------------- in place

  /** The sectors a decrypting pass goes through: t[i] has the words below i done. */
  ghost predicate Rises<W(!new)>(k: Arith<W>, t: seq<seq<W>>, i: nat) {
    i + 1 < |t| && i < |t[i]| && |t[i]| >= 6 && t[i + 1] == AddAt(k, t[i], i)
  }

  ghost predicate RisesThroughout<W(!new)>(k: Arith<W>, t: seq<seq<W>>) {
    forall j {:trigger Rises(k, t, j)} :: 0 <= j < |t| - 1 ==> Rises(k, t, j)
  }

  lemma {:induction false} UpTrace<W(!new)>(k: Arith<W>, d: seq<W>, i: nat) returns (t: seq<seq<W>>)
    requires i <= |d| && |d| >= 6
    ensures |t| == i + 1 && t[0] == d && t[i] == Up(k, d, i) && RisesThroughout(k, t)
    decreases i
  {
    if i == 0 {
      t := [d];
    } else {
      var s := UpTrace(k, d, i - 1);
      t := s + [Up(k, d, i)];
      forall j {:trigger Rises(k, t, j)} | 0 <= j < i
        ensures Rises(k, t, j)
      {
        if j < i - 1 { assert Rises(k, s, j); }
      }
    }
  }

  /** The sectors an encrypting pass goes through: t[i] has the words from i on done. */
  ghost predicate Falls<W(!new)>(k: Arith<W>, t: seq<seq<W>>, i: nat) {
    i + 1 < |t| && i < |t[i + 1]| && |t[i + 1]| >= 6 && t[i] == SubAt(k, t[i + 1], i)
  }

  ghost predicate FallsThroughout<W(!new)>(k: Arith<W>, t: seq<seq<W>>) {
    forall j {:trigger Falls(k, t, j)} :: 0 <= j < |t| - 1 ==> Falls(k, t, j)
  }

  lemma {:induction false} DownTrace<W(!new)>(k: Arith<W>, d: seq<W>, i: nat) returns (t: seq<seq<W>>)
    requires i <= |d| && |d| >= 6
    ensures |t| == i + 1 && t[i] == d && t[0] == Down(k, d, i) && FallsThroughout(k, t)
    decreases i
  {
    if i == 0 {
      t := [d];
    } else {
      var s := DownTrace(k, SubAt(k, d, i - 1), i - 1);
      t := s + [d];
      forall j {:trigger Falls(k, t, j)} | 0 <= j < i
        ensures Falls(k, t, j)
      {
        if j < i - 1 { assert Falls(k, s, j); }
      }
    }
  }

  /** `d[i1] += d[i2] ^ (d[i3] << rot | d[i3] >> (32 - rot))`, turned as its place wants. */
  method AddWord<W(!new)>(k: Arith<W>, d: array<W>, i1: nat, i2: nat, i3: nat, rot: nat, ghost g: nat,
                          ghost t: seq<seq<W>>)
    requires 4 * g <= i1 < 4 * g + 4 && i1 < d.Length && d.Length >= 6
    requires i2 == Operand(k.kind, d.Length, i1, 2) && i3 == Operand(k.kind, d.Length, i1, 5)
    requires rot == Rotation(k.kind, i1 - 4 * g)
    requires RisesThroughout(k, t) && i1 + 1 < |t| && d[..] == t[i1]
    modifies d
    ensures d[..] == t[i1 + 1]
  {
    ghost var was := d[..];
    d[i1] := k.ops.plus(d[i1], k.ops.xor(d[i2], Turn(k, rot, d[i3])));
    assert Rises(k, t, i1) && d[..] == AddAt(k, was, i1);
  }

  /** The same with `-=`. */
  method SubWord<W(!new)>(k: Arith<W>, d: array<W>, i1: nat, i2: nat, i3: nat, rot: nat, ghost g: nat,
                          ghost t: seq<seq<W>>)
    requires 4 * g <= i1 < 4 * g + 4 && i1 < d.Length && d.Length >= 6
    requires i2 == Operand(k.kind, d.Length, i1, 2) && i3 == Operand(k.kind, d.Length, i1, 5)
    requires rot == Rotation(k.kind, i1 - 4 * g)
    requires FallsThroughout(k, t) && i1 + 1 < |t| && d[..] == t[i1 + 1]
    modifies d
    ensures d[..] == t[i1]
  {
    ghost var was := d[..];
    d[i1] := k.ops.minus(d[i1], k.ops.xor(d[i2], Turn(k, rot, d[i3])));
    assert Falls(k, t, i1) && d[..] == SubAt(k, was, i1);
  }

  /** Four words of `diffuser_a_decrypt`, with the indices for the next four. */
  method ADecryptFour<W(!new)>(k: Arith<W>, d: array<W>, n: nat, i: nat, j: nat, l: nat, ghost g: nat,
                               ghost t: seq<seq<W>>)
    returns (i1: nat, i2: nat, i3: nat)
    requires k.kind == A && n == d.Length >= 8 && i == 4 * g <= n - 4 && n % 4 == 0
    requires j == Operand(A, n, i, 2) && l == Operand(A, n, i, 5)
    requires RisesThroughout(k, t) && i + 4 < |t| && d[..] == t[i]
    modifies d
    ensures i1 == i + 4 && d[..] == t[i1]
    ensures i1 < n ==> i2 == Operand(A, n, i1, 2) && i3 == Operand(A, n, i1, 5)
  {
    AddWord(k, d, i, j, l, 9, g, t);
    i1, i2, i3 := i + 1, j + 1, l + 1;
    if i3 >= n {
      i3 := i3 - n;
    }
    AddWord(k, d, i1, i2, i3, 0, g, t);
    i1, i2, i3 := i1 + 1, i2 + 1, i3 + 1;
    if i2 >= n {
      i2 := i2 - n;
    }
    AddWord(k, d, i1, i2, i3, 13, g, t);
    i1, i2, i3 := i1 + 1, i2 + 1, i3 + 1;
    AddWord(k, d, i1, i2, i3, 0, g, t);
    i1, i2, i3 := i1 + 1, i2 + 1, i3 + 1;
  }

  /** One round of `diffuser_a_decrypt` */
  method ADecryptPass<W(!new)>(k: Arith<W>, d: array<W>)
    requires k.kind == A && d.Length >= 8 && d.Length % 4 == 0
    modifies d
    ensures d[..] == Up(k, old(d[..]), d.Length)
  {
    var n := d.Length;
    ghost var t := UpTrace(k, d[..], n);
    var i1: nat, i2: nat, i3: nat := 0, n - 2, n - 5;
    ghost var g := 0;
    while i1 < n - 1
      invariant i1 == 4 * g <= n
      invariant i1 < n ==> i2 == Operand(A, n, i1, 2) && i3 == Operand(A, n, i1, 5)
      invariant d[..] == t[i1]
    {
      i1, i2, i3 := ADecryptFour(k, d, n, i1, i2, i3, g, t);
      g := g + 1;
    }
  }

  /** Four words of `diffuser_a_encrypt`, going down. */
  method AEncryptFour<W(!new)>(k: Arith<W>, d: array<W>, n: nat, i: nat, j: nat, l: nat, ghost g: nat,
                               ghost t: seq<seq<W>>)
    returns (i1: int, i2: int, i3: int)
    requires k.kind == A && n == d.Length >= 8 && i == 4 * g + 3 < n
    requires j == Operand(A, n, i, 2) && l == Operand(A, n, i, 5)
    requires FallsThroughout(k, t) && i + 1 < |t| && d[..] == t[i + 1]
    modifies d
    ensures i1 == i - 4 && d[..] == t[i1 + 1]
    ensures i1 >= 0 ==> i2 == Operand(A, n, i1, 2) && i3 == Operand(A, n, i1, 5)
  {
    SubWord(k, d, i, j, l, 0, g, t);
    i1, i2, i3 := i - 1, j - 1, l - 1;
    SubWord(k, d, i1, i2, i3, 13, g, t);
    i1, i2, i3 := i1 - 1, i2 - 1, i3 - 1;
    if i2 < 0 {
      i2 := i2 + n;
    }
    SubWord(k, d, i1, i2, i3, 0, g, t);
    i1, i2, i3 := i1 - 1, i2 - 1, i3 - 1;
    if i3 < 0 {
      i3 := i3 + n;
    }
    SubWord(k, d, i1, i2, i3, 9, g, t);
    i1, i2, i3 := i1 - 1, i2 - 1, i3 - 1;
  }

  /** One round of `diffuser_a_encrypt` */
  method AEncryptPass<W(!new)>(k: Arith<W>, d: array<W>)
    requires k.kind == A && d.Length >= 8 && d.Length % 4 == 0
    modifies d
    ensures d[..] == Down(k, old(d[..]), d.Length)
  {
    var n := d.Length;
    ghost var t := DownTrace(k, d[..], n);
    var i1, i2, i3 := n - 1, n - 2 - 1, n - 5 - 1;
    ghost var g := n / 4;
    while i1 > 0
      invariant -1 <= i1 == 4 * g - 1 < n
      invariant i1 >= 0 ==> i2 == Operand(A, n, i1, 2) && i3 == Operand(A, n, i1, 5)
      invariant d[..] == t[i1 + 1]
    {
      g := g - 1;
      i1, i2, i3 := AEncryptFour(k, d, n, i1, i2, i3, g, t);
    }
  }

  /** Four words of `diffuser_b_decrypt`, with the indices for the next four. */
  method BDecryptFour<W(!new)>(k: Arith<W>, d: array<W>, n: nat, i: nat, j: nat, l: nat, ghost g: nat,
                               ghost t: seq<seq<W>>)
    returns (i1: nat, i2: nat, i3: nat)
    requires k.kind == B && n == d.Length >= 8 && i == 4 * g <= n - 4 && n % 4 == 0
    requires j == Operand(B, n, i, 2) && l == Operand(B, n, i, 5)
    requires RisesThroughout(k, t) && i + 4 < |t| && d[..] == t[i]
    modifies d
    ensures i1 == i + 4 && d[..] == t[i1]
    ensures i1 < n ==> i2 == Operand(B, n, i1, 2) && i3 == Operand(B, n, i1, 5)
  {
    assert i == n - 4 || i <= n - 8;
    AddWord(k, d, i, j, l, 0, g, t);
    i1, i2, i3 := i + 1, j + 1, l + 1;
    AddWord(k, d, i1, i2, i3, 10, g, t);
    i1, i2, i3 := i1 + 1, i2 + 1, i3 + 1;
    if i2 >= n {
      i2 := i2 - n;
    }
    AddWord(k, d, i1, i2, i3, 0, g, t);
    i1, i2, i3 := i1 + 1, i2 + 1, i3 + 1;
    if i3 >= n {
      i3 := i3 - n;
    }
    AddWord(k, d, i1, i2, i3, 25, g, t);
    i1, i2, i3 := i1 + 1, i2 + 1, i3 + 1;
  }

  /** One round of `diffuser_b_decrypt` */
  method BDecryptPass<W(!new)>(k: Arith<W>, d: array<W>)
    requires k.kind == B && d.Length >= 8 && d.Length % 4 == 0
    modifies d
    ensures d[..] == Up(k, old(d[..]), d.Length)
  {
    var n := d.Length;
    ghost var t := UpTrace(k, d[..], n);
    var i1: nat, i2: nat, i3: nat := 0, 2, 5;
    ghost var g := 0;
    while i1 < n - 1
      invariant i1 == 4 * g <= n
      invariant i1 < n ==> i2 == Operand(B, n, i1, 2) && i3 == Operand(B, n, i1, 5)
      invariant d[..] == t[i1]
    {
      i1, i2, i3 := BDecryptFour(k, d, n, i1, i2, i3, g, t);
      g := g + 1;
    }
  }

  /** Four words of `diffuser_b_encrypt`, going down. */
  method BEncryptFour<W(!new)>(k: Arith<W>, d: array<W>, n: nat, i: nat, j: nat, l: nat, ghost g: nat,
                               ghost t: seq<seq<W>>)
    returns (i1: int, i2: int, i3: int)
    requires k.kind == B && n == d.Length >= 8 && i == 4 * g + 3 < n && n % 4 == 0
    requires j == Operand(B, n, i, 2) && l == Operand(B, n, i, 5)
    requires FallsThroughout(k, t) && i + 1 < |t| && d[..] == t[i + 1]
    modifies d
    ensures i1 == i - 4 && d[..] == t[i1 + 1]
    ensures i1 >= 0 ==> i2 == Operand(B, n, i1, 2) && i3 == Operand(B, n, i1, 5)
  {
    assert i == n - 1 || i <= n - 5;
    SubWord(k, d, i, j, l, 25, g, t);
    i1, i2, i3 := i - 1, j - 1, l - 1;
    if i3 < 0 {
      i3 := i3 + n;
    }
    SubWord(k, d, i1, i2, i3, 0, g, t);
    i1, i2, i3 := i1 - 1, i2 - 1, i3 - 1;
    if i2 < 0 {
      i2 := i2 + n;
    }
    SubWord(k, d, i1, i2, i3, 10, g, t);
    i1, i2, i3 := i1 - 1, i2 - 1, i3 - 1;
    SubWord(k, d, i1, i2, i3, 0, g, t);
    i1, i2, i3 := i1 - 1, i2 - 1, i3 - 1;
  }

  /** One round of `diffuser_b_encrypt` */
  method BEncryptPass<W(!new)>(k: Arith<W>, d: array<W>)
    requires k.kind == B && d.Length >= 8 && d.Length % 4 == 0
    modifies d
    ensures d[..] == Down(k, old(d[..]), d.Length)
  {
    var n := d.Length;
    ghost var t := DownTrace(k, d[..], n);
    var i1, i2, i3 := n - 1, 2 - 1, 5 - 1;
    ghost var g := n / 4;
    while i1 > 0
      invariant -1 <= i1 == 4 * g - 1 < n
      invariant i1 >= 0 ==> i2 == Operand(B, n, i1, 2) && i3 == Operand(B, n, i1, 5)
      invariant d[..] == t[i1 + 1]
    {
      g := g - 1;
      i1, i2, i3 := BEncryptFour(k, d, n, i1, i2, i3, g, t);
    }
  }

  /** `diffuser_a_decrypt` in five rounds and `diffuser_b_decrypt` in three. */
  method DecryptInPlace<W(!new)>(k: Arith<W>, d: array<W>, rounds: nat)
    requires d.Length >= 8 && d.Length % 4 == 0
    modifies d
    ensures d[..] == Decrypt(k, old(d[..]), rounds)
  {
    var i := 0;
    while i < rounds
      invariant 0 <= i <= rounds
      invariant d[..] == Decrypt(k, old(d[..]), i)
    {
      if k.kind == A {
        ADecryptPass(k, d);
      } else {
        BDecryptPass(k, d);
      }
      i := i + 1;
    }
  }

  /** `diffuser_a_encrypt` and `diffuser_b_encrypt` */
  method EncryptInPlace<W(!new)>(k: Arith<W>, d: array<W>, rounds: nat)
    requires d.Length >= 8 && d.Length % 4 == 0
    modifies d
    ensures d[..] == Encrypt(k, old(d[..]), rounds)
  {
    var i := 0;
    while i < rounds
      invariant 0 <= i <= rounds
      invariant d[..] == Encrypt(k, old(d[..]), i)
    {
      if k.kind == A {
        AEncryptPass(k, d);
      } else {
        BEncryptPass(k, d);
      }
      i := i + 1;
    }
  }
}
