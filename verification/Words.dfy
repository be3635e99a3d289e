/** Fixed-width integers and the bit operations of Go, over Dafny's unbounded integers. */
module Words {
  const TWO64: int := 0x1_0000_0000_0000_0000
  const TWO63: int := 0x8000_0000_0000_0000

  type byte = x: int | 0 <= x < 256
  type uint64 = x: int | 0 <= x < TWO64
  type int64 = x: int | -TWO63 <= x < TWO63

  /** A Go string: an arbitrary sequence of bytes. */
  type Text = seq<byte>

  function Pow2(n: nat): (p: nat)
    ensures p > 0
  {
    if n == 0 then 1 else 2 * Pow2(n - 1)
  }

  /** `x | y`, bit by bit. */
  function Or(x: nat, y: nat): nat {
    if x == 0 && y == 0 then 0
    else 2 * Or(x / 2, y / 2) + if x % 2 == 1 || y % 2 == 1 then 1 else 0
  }

  /** `x & y`, bit by bit. */
  function And(x: nat, y: nat): nat {
    if x == 0 || y == 0 then 0
    else 2 * And(x / 2, y / 2) + if x % 2 == 1 && y % 2 == 1 then 1 else 0
  }

  /** What is left of a number in a 64-bit word. */
  function Low64(n: nat): uint64 {
    n % TWO64
  }

  /** `v` moved up by `s` bits, without losing any. */
  function Shifted(v: nat, s: nat): nat {
    v * Pow2(s)
  }

  /** `x << s` on a 64-bit word: bits pushed out are lost, and a count of 64 or more gives 0. */
  function Shl64(x: uint64, s: nat): uint64 {
    if s >= 64 then 0 else Low64(Shifted(x, s))
  }

  /** `^x + 1` on a 64-bit word. */
  function Negate64(x: uint64): (r: uint64)
    ensures r == if x == 0 then 0 else TWO64 - x
  {
    ((TWO64 - 1 - x) + 1) % TWO64
  }

  /** `int64(x)`. */
  function ToInt64(x: uint64): int64 {
    if x < TWO63 then x else x - TWO64
  }

  function Abs(v: int64): uint64 {
    var a: int := v;
    if a < 0 then -a else a
  }

  /** `uint64(v)`. */
  function ToUint64(v: int64): uint64 {
    if v >= 0 then v else v + TWO64
  }

  // ---- The bit expressions of the codec, with what they compute

  /** `byte(x | 0x80)` */
  method Continuation(x: nat) returns (b: byte)
    ensures b == 128 + x % 128
  {
    OrContinuation(x);
    b := Or(x, 0x80) % 256;
  }

  /** `b & 0x7f` */
  method LowBits(b: byte) returns (r: byte)
    ensures r == b % 128
  {
    AndLow(b);
    r := And(b, 0x7f);
  }

  /** `x | b << s`, where `x` is what is left in 64 bits of `sum`, the value of all groups before. */
  method JoinGroup(x: uint64, b: byte, s: nat, ghost sum: nat) returns (r: uint64)
    requires sum < Pow2(s) && x == Low64(sum)
    ensures r == Low64(sum + Shifted(b, s))
  {
    AddGroup(x, b, s, sum);
    r := Or(x, Shl64(b, s));
  }

  /** The same while nothing can be lost. */
  method JoinSmallGroup(x: uint64, b: byte, s: nat) returns (r: uint64)
    requires s <= 56 && x < Pow2(s)
    ensures r == x + Shifted(b, s)
  {
    SmallGroup(x, b, s);
    r := JoinGroup(x, b, s, x);
  }

  /** `x := uint64(v); if v < 0 { x = ^x + 1 }` */
  method AbsWord(v: int64) returns (x: uint64)
    ensures x == Abs(v)
  {
    x := ToUint64(v);
    if v < 0 { x := Negate64(x); }
  }

  lemma {:induction false} OrZero(x: nat)
    ensures Or(x, 0) == x && Or(0, x) == x
  {
    if x != 0 { OrZero(x / 2); }
  }

  /** Words whose bits do not overlap are joined by `|` as by `+`. */
  lemma {:induction false} OrDisjoint(x: nat, q: nat, k: nat)
    requires x < Pow2(k)
    ensures Or(x, Shifted(q, k)) == x + Shifted(q, k)
  {
    if k == 0 {
      OrZero(q);
      assert Shifted(q, k) == q;
    } else {
      var h := Shifted(q, k - 1);
      assert Shifted(q, k) == 2 * h;
      OrDisjoint(x / 2, q, k - 1);
      assert (2 * h) / 2 == h && (2 * h) % 2 == 0;
    }
  }

  /** `byte(x | 0x80)` keeps the low seven bits and sets the eighth. */
  lemma OrContinuation(x: nat)
    ensures Or(x, 0x80) % 256 == 128 + x % 128
  {
    Pow2Seven(0);
    OrBit(x, 7, 128);
    SetEighth(x);
  }

  lemma SetEighth(x: nat)
    ensures (x + if (x / 128) % 2 == 0 then 128 else 0) % 256 == 128 + x % 128
  {
  }

  lemma {:induction false} OrBit(x: nat, k: nat, p: nat)
    requires p == Pow2(k)
    ensures Or(x, p) == x + if (x / p) % 2 == 0 then p else 0
  {
    if k == 0 {
      OrZero(x / 2);
    } else {
      var q := Pow2(k - 1);
      OrBit(x / 2, k - 1, q);
      OrUnfold(x, q);
      DivDiv(x, q);
    }
  }

  lemma OrUnfold(x: nat, q: nat)
    requires q > 0
    ensures Or(x, 2 * q) == 2 * Or(x / 2, q) + x % 2
  {
    assert (2 * q) / 2 == q && (2 * q) % 2 == 0;
  }

  lemma DivDiv(x: nat, p: nat)
    requires p > 0
    ensures (x / 2) / p == x / (2 * p)
  {
    var q := x / (2 * p);
    var r := x % (2 * p);
    assert x == q * (2 * p) + r;
    assert x / 2 == q * p + r / 2;
    assert r / 2 < p;
    assert (q * p + r / 2) / p == q by { DivUnique(q * p + r / 2, p, q, r / 2); }
  }

  lemma SmallMultiple(d: int, b: int)
    requires b > 0
    ensures d >= 1 ==> d * b >= b
    ensures d <= -1 ==> d * b <= -b
  {
  }

  /** Euclidean division is the only way to write `a` as a multiple of `b` plus a small remainder. */
  lemma DivUnique(a: int, b: int, q: int, r: int)
    requires b > 0 && a == q * b + r && 0 <= r < b
    ensures a / b == q && a % b == r
  {
    var q', r' := a / b, a % b;
    assert a == q' * b + r';
    assert (q - q') * b == q * b - q' * b;
    SmallMultiple(q - q', b);
  }

  /** `x & 0x7f` is the remainder by 128. */
  lemma AndLow(x: nat)
    ensures And(x, 0x7f) == x % 128
  {
    var a := x / 2;
    var b := a / 2;
    var c := b / 2;
    AndLow8(c / 2);
    AndLowStep(c, 8);
    AndLowStep(b, 16);
    AndLowStep(a, 32);
    AndLowStep(x, 64);
  }

  lemma AndLow8(x: nat)
    ensures And(x, 7) == x % 8
  {
    var a := x / 2;
    AndLowStep(a / 2, 1);
    AndLowStep(a, 2);
    AndLowStep(x, 4);
  }

  lemma AndLowStep(x: nat, p: nat)
    requires p > 0 && And(x / 2, p - 1) == (x / 2) % p
    ensures And(x, 2 * p - 1) == x % (2 * p)
  {
    AndUnfold(x, p);
    HalveMod(x, p);
  }

  lemma AndUnfold(x: nat, p: nat)
    requires p > 0
    ensures And(x, 2 * p - 1) == 2 * And(x / 2, p - 1) + x % 2
  {
    assert (2 * p - 1) / 2 == p - 1 && (2 * p - 1) % 2 == 1;
  }

  lemma HalveMod(x: nat, p: nat)
    requires p > 0
    ensures x % (2 * p) == 2 * ((x / 2) % p) + x % 2
  {
    var q, r := (x / 2) / p, (x / 2) % p;
    assert x / 2 == q * p + r;
    assert q * (2 * p) == 2 * (q * p);
    DivUnique(x, 2 * p, q, 2 * r + x % 2);
  }

  /** Accumulating a group with `x |= b << s`: as long as `x` stays below `2^s`, it is addition modulo `2^64`. */
  lemma OrShl(x: uint64, b: byte, s: nat)
    requires s < 64 ==> x < Pow2(s)
    ensures Or(x, Shl64(b, s)) == Low64(x + Shifted(b, s))
  {
    if s >= 64 {
      OrZero(x);
      ShiftedOut(x, b, s);
    } else {
      var q := ShiftedIn(x, b, s);
      OrDisjoint(x, q, s);
    }
  }

  lemma ShiftedOut(x: uint64, b: byte, s: nat)
    requires s >= 64
    ensures Low64(x + Shifted(b, s)) == x
  {
    var m := b * Pow2(s - 64);
    assert Shifted(b, s) == m * TWO64 by {
      Pow2From64(s, s - (s - 64));
      MulSwap(b, TWO64, Pow2(s - 64));
    }
    DivUnique(x + m * TWO64, TWO64, m, x);
  }

  /** `q` are the bits of `b` that stay in the word. */
  lemma ShiftedIn(x: uint64, b: byte, s: nat) returns (q: nat)
    requires s < 64 && x < Pow2(s)
    ensures Low64(Shifted(b, s)) == Shifted(q, s)
    ensures Low64(x + Shifted(b, s)) == x + Shifted(q, s)
  {
    var lost;
    lost, q := SplitGroup(b, s);
    SmallRemainder(Shifted(b, s), lost, Shifted(q, s), x, Pow2(s));
  }

  lemma SmallRemainder(y: nat, lost: nat, r: nat, x: nat, p: nat)
    requires y == lost * TWO64 + r && x < p && r + p <= TWO64
    ensures Low64(y) == r && Low64(x + y) == x + r
  {
    DivUnique(y, TWO64, lost, r);
    DivUnique(x + y, TWO64, lost, x + r);
  }

  lemma Pow2From64(s: nat, n: nat)
    requires n == 64 && s >= n
    ensures Pow2(s) == TWO64 * Pow2(s - 64)
  {
    Pow2Split(n, s - n);
    Pow2Sixty4(n);
  }

  /** The bits of `b << s` that stay in the word, and those that are lost. */
  lemma SplitGroup(b: byte, s: nat) returns (lost: nat, q: nat)
    requires s < 64
    ensures Shifted(b, s) == lost * TWO64 + Shifted(q, s)
    ensures Shifted(q, s) + Pow2(s) <= TWO64
  {
    Pow2Split(64 - s, s);
    Pow2Sixty4(64 - s + s);
    lost, q := SplitFactor(b, Pow2(64 - s), Pow2(s));
  }

  lemma SplitFactor(b: nat, hi: nat, p: nat) returns (lost: nat, q: nat)
    requires hi > 0
    ensures b * p == lost * (hi * p) + q * p
    ensures q * p + p <= hi * p
  {
    lost, q := b / hi, b % hi;
    SplitProduct(lost, hi, q, p);
    MulRoom(q, hi, p);
  }

  /** The value of the first groups of a varint, kept modulo `2^64`, takes in one more group. */
  lemma AddGroup(x: uint64, b: byte, s: nat, sum: nat)
    requires sum < Pow2(s) && x == Low64(sum)
    ensures Or(x, Shl64(b, s)) == Low64(sum + Shifted(b, s))
  {
    var y := Shifted(b, s);
    LowBelow(x, sum, Pow2(s));
    OrShl(x, b, s);
    ModAbsorb(x, sum, y);
  }

  lemma LowBelow(x: uint64, sum: nat, p: nat)
    requires sum < p && x == Low64(sum)
    ensures x < p
  {
  }

  /** Up to shift 56 nothing is lost. */
  lemma SmallGroup(sum: nat, b: byte, s: nat)
    requires s <= 56 && sum < Pow2(s)
    ensures Low64(sum) == sum && Low64(sum + Shifted(b, s)) == sum + Shifted(b, s)
  {
    Pow2UpTo56(s);
    MulRoom(b, 256, Pow2(s));
    SmallSum(sum, Shifted(b, s), Pow2(s));
  }

  lemma SmallSum(sum: nat, y: nat, p: nat)
    requires sum < p && y + p <= TWO64
    ensures Low64(sum) == sum && Low64(sum + y) == sum + y
  {
  }

  lemma Pow2UpTo56(s: nat)
    requires s <= 56
    ensures 256 * Pow2(s) <= TWO64
  {
    Pow2Eight(s);
    var q := 56 - s;
    Pow2Split(q, s + 8);
    Pow2Sixty4(q + (s + 8));
    MulRoom(0, Pow2(q), Pow2(s + 8));
  }

  lemma Pow2Eight(s: nat)
    ensures Pow2(s + 8) == 256 * Pow2(s)
  {
    Pow2Seven(s);
    Pow2Next(s + 7);
  }

  lemma Pow2Next(s: nat)
    ensures Pow2(s + 1) == 2 * Pow2(s)
  {
  }

  lemma Pow2Seven(s: nat)
    ensures Pow2(7) == 128 && Pow2(s + 7) == 128 * Pow2(s)
  {
    Pow2Four(3);
    Pow2Four(s + 3);
    Pow2Next(s);
    Pow2Next(s + 1);
    Pow2Next(s + 2);
  }

  lemma Pow2Four(s: nat)
    ensures Pow2(s + 4) == 16 * Pow2(s)
  {
    Pow2Next(s);
    Pow2Next(s + 1);
    Pow2Next(s + 2);
    Pow2Next(s + 3);
  }

  lemma ModAbsorb(x: uint64, sum: nat, y: nat)
    requires x == Low64(sum)
    ensures Low64(x + y) == Low64(sum + y)
  {
    var z := x + y;
    DivUnique(sum + y, TWO64, sum / TWO64 + z / TWO64, z % TWO64);
  }

  lemma MulSwap(a: int, b: int, c: int)
    ensures a * (b * c) == (a * c) * b
  {
  }

  lemma SplitProduct(l: int, h: int, q: int, p: int)
    ensures (l * h + q) * p == l * (h * p) + q * p
  {
  }

  lemma OneMore(h: nat, p: nat)
    ensures (h + 1) * p == h * p + p
  {
  }

  lemma {:induction false} MulRoom(q: nat, h: nat, p: nat)
    requires q < h
    ensures q * p + p <= h * p
    decreases h
  {
    OneMore(h - 1, p);
    if q < h - 1 { MulRoom(q, h - 1, p); }
  }

  lemma {:induction false} Pow2Split(a: nat, b: nat)
    ensures Pow2(a + b) == Pow2(a) * Pow2(b)
  {
    if a != 0 {
      Pow2Split(a - 1, b);
      assert 2 * (Pow2(a - 1) * Pow2(b)) == (2 * Pow2(a - 1)) * Pow2(b);
    }
  }

  lemma Pow2Sixty4(n: nat)
    requires n == 64
    ensures Pow2(n) == TWO64
  {
    Pow2Eight(n - 64);
    Pow2Eight(n - 56);
    Pow2Eight(n - 48);
    Pow2Eight(n - 40);
    Pow2Eight(n - 32);
    Pow2Eight(n - 24);
    Pow2Eight(n - 16);
    Pow2Eight(n - 8);
  }
}
