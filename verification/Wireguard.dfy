/** X25519 as WireGuard keys need it (src/wireguard.ts; section 5 of RFC 7748): the ladder with its
    swaps put off, over whole numbers. */
module Wireguard {
  import opened Arithmetic

  const P: int := 0x7fff_ffff_ffff_ffff_ffff_ffff_ffff_ffff_ffff_ffff_ffff_ffff_ffff_ffff_ffff_ffed
  const A24 := 121665

  // ----- Whole numbers -----

  /** A remainder with the sign of what is divided. */
  function Rem(a: int, p: int): int
    requires p > 0
  {
    if a >= 0 then a % p else -((-a) % p)
  }

  /** Reduced: written as the remainder of the remainder made positive, below. */
  function Mod(p: int, a: int): int
    requires p > 0
  {
    a % p
  }

  /** The remainder made positive is the least one, whatever the sign. */
  lemma {:induction false} RemIsMod(a: int, p: int)
    requires p > 0
    ensures Rem(Rem(a, p) + p, p) == a % p
  {
    var r := (if a >= 0 then a else -a) % p;
    if a >= 0 {
      Quotient(r + p, 1, r, p);
    } else {
      NegatedMod(a, p);
      assert Rem(a, p) == -r;
      if r == 0 { Quotient(p, 1, 0, p); } else { Quotient(p - r, 0, p - r, p); }
    }
  }

  // ----- Powers -----

  function Power(base: int, exponent: nat): int {
    if exponent == 0 then 1 else base * Power(base, exponent - 1)
  }

  /** Square and multiply: a power from that of the square. */
  lemma {:induction false} PowerHalves(base: int, exponent: nat)
    ensures Power(base, exponent) == Power(base * base, exponent / 2) * if exponent % 2 == 1 then base else 1
    decreases exponent
  {
    if exponent >= 2 {
      PowerHalves(base, exponent - 2);
      var half := Power(base * base, (exponent - 2) / 2);
      var odd := if exponent % 2 == 1 then base else 1;
      assert exponent / 2 == (exponent - 2) / 2 + 1 && exponent % 2 == (exponent - 2) % 2;
      assert Power(base, exponent) == base * (base * (half * odd));
      Regroup(base, half, odd);
    }
  }

  lemma {:induction false} Regroup(a: int, b: int, c: int)
    ensures a * (a * (b * c)) == ((a * a) * b) * c
  {
    assert a * (b * c) == (a * b) * c;
    assert a * ((a * b) * c) == (a * (a * b)) * c;
    assert a * (a * b) == (a * a) * b;
  }

  /** A power does not mind its base reduced. */
  lemma {:induction false} PowerMod(base: int, exponent: nat, p: int)
    requires p > 0
    ensures Power(base % p, exponent) % p == Power(base, exponent) % p
    decreases exponent
  {
    if exponent > 0 {
      var a, b := Power(base % p, exponent - 1), Power(base, exponent - 1);
      PowerMod(base, exponent - 1, p);
      calc {
        (base % p * a) % p;
        { MulMod(base, a, p); }
        (base * a) % p;
        { MulMod(base, a, p); }
        (base * (a % p)) % p;
        (base * (b % p)) % p;
        { MulMod(base, b, p); }
        (base * b) % p;
      }
    }
  }

  /** One turn of square and multiply keeps what is still to come. */
  lemma {:induction false} PowTurn(result: int, b: int, e: nat, p: int)
    requires p > 0 && e > 0
    ensures var next := if e % 2 == 1 then (result * b) % p else result;
      (next * Power((b * b) % p, e / 2)) % p == (result * Power(b, e)) % p
  {
    var half, odd := Power(b * b, e / 2), if e % 2 == 1 then b else 1;
    var next := if e % 2 == 1 then (result * b) % p else result;
    calc {
      (result * Power(b, e)) % p;
      { PowerHalves(b, e); }
      (result * (half * odd)) % p;
      { assert result * (half * odd) == (result * odd) * half; }
      ((result * odd) * half) % p;
      { if e % 2 == 1 { MulMod(result * odd, half, p); } }
      (next * half) % p;
      { MulMod(next, half, p); }
      (next * (half % p)) % p;
      { PowerMod(b * b, e / 2, p); }
      (next * (Power((b * b) % p, e / 2) % p)) % p;
      { MulMod(next, Power((b * b) % p, e / 2), p); }
      (next * Power((b * b) % p, e / 2)) % p;
    }
  }

  /** base to the exponent, modulo P, for every base and exponent. */
  method Pow(base: int, exponent: int) returns (result: int)
    ensures exponent >= 0 ==> result == Power(base, exponent) % P
    ensures exponent < 0 ==> result == 1
    ensures 0 <= result < P
  {
    result := 1;
    var b, e := Mod(P, base), exponent;
    if exponent >= 0 { PowerMod(base, exponent, P); }
    while e > 0
      invariant exponent < 0 ==> e == exponent && result == 1
      invariant exponent >= 0 ==> e >= 0 && (result * Power(b, e)) % P == Power(base, exponent) % P
      invariant 0 <= result < P
    {
      PowTurn(result, b, e, P);
      if e % 2 == 1 { result := Mod(P, result * b); }
      b := Mod(P, b * b);
      e := e / 2;
    }
  }

  // ----- Bytes -----

  function FromLE(bytes: Bytes): nat {
    if bytes == [] then 0 else bytes[0] + 256 * FromLE(bytes[1..])
  }

  function Pow256(i: nat): (n: nat)
    ensures n > 0
  {
    if i == 0 then 1 else 256 * Pow256(i - 1)
  }

  function Digit(n: nat, i: nat): Byte {
    (n / Pow256(i)) % 256
  }

  function Digits(n: nat, count: nat): Bytes {
    seq(count, i requires 0 <= i < count => Digit(n, i))
  }

  function ToLE(n: nat): Bytes {
    Digits(n, 32)
  }

  lemma {:induction false} DigitsRest(n: nat, count: nat)
    requires count > 0
    ensures Digits(n, count)[0] == n % 256
    ensures Digits(n, count)[1..] == Digits(n / 256, count - 1)
  {
    forall i | 0 <= i < count - 1 ensures Digit(n, i + 1) == Digit(n / 256, i) { DigitLater(n, i); }
    FirstDigit(n);
  }

  lemma {:induction false} FirstDigit(n: nat)
    ensures Digit(n, 0) == n % 256
  {
    Quotient(n, n, 0, 1);
  }

  lemma {:induction false} DigitLater(n: nat, i: nat)
    ensures Digit(n, i + 1) == Digit(n / 256, i)
  {
    DivDiv(n, 256, Pow256(i));
    assert Pow256(i + 1) == 256 * Pow256(i);
  }

  /** Digits read back, as far as they go. */
  lemma {:induction false} DigitsBack(n: nat, count: nat)
    ensures FromLE(Digits(n, count)) == n % Pow256(count)
    decreases count
  {
    if count > 0 {
      DigitsRest(n, count);
      DigitsBack(n / 256, count - 1);
      DivDiv(n, 256, Pow256(count - 1));
    }
  }

  lemma {:induction false} BytesBound(bytes: Bytes)
    ensures FromLE(bytes) < Pow256(|bytes|)
    decreases |bytes|
  {
    if bytes != [] { BytesBound(bytes[1..]); }
  }

  lemma {:induction false} BytesBack(bytes: Bytes)
    ensures Digits(FromLE(bytes), |bytes|) == bytes
    decreases |bytes|
  {
    if bytes != [] {
      var n := FromLE(bytes);
      Quotient(n, FromLE(bytes[1..]), bytes[0], 256);
      DigitsRest(n, |bytes|);
      BytesBack(bytes[1..]);
      assert Digits(n, |bytes|) == [Digits(n, |bytes|)[0]] + Digits(n, |bytes|)[1..];
      assert bytes == [bytes[0]] + bytes[1..];
    }
  }

  const TWO_256: int := 0x1_0000_0000_0000_0000_0000_0000_0000_0000_0000_0000_0000_0000_0000_0000_0000_0000
  const TWO_255: int := 0x8000_0000_0000_0000_0000_0000_0000_0000_0000_0000_0000_0000_0000_0000_0000_0000
  const TWO_254: int := 0x4000_0000_0000_0000_0000_0000_0000_0000_0000_0000_0000_0000_0000_0000_0000_0000
  const TWO_251: int := 0x800_0000_0000_0000_0000_0000_0000_0000_0000_0000_0000_0000_0000_0000_0000_0000
  const TWO_248: int := 0x100_0000_0000_0000_0000_0000_0000_0000_0000_0000_0000_0000_0000_0000_0000_0000

  lemma {:induction false} Powers()
    ensures Pow256(31) == TWO_248 && Pow256(32) == TWO_256
  {
    assert Pow256(8) == 0x1_0000_0000_0000_0000;
    assert Pow256(16) == 0x1_0000_0000_0000_0000_0000_0000_0000_0000;
    assert Pow256(24) == 0x1_0000_0000_0000_0000_0000_0000_0000_0000_0000_0000_0000_0000;
    assert Pow256(31) == TWO_248;
  }

  /** A number of at most 32 bytes, and 32 bytes, are told from each other without loss. */
  lemma {:induction false} LittleEndianBack(n: nat, bytes: Bytes)
    requires n < TWO_256 && |bytes| == 32
    ensures |ToLE(n)| == 32 && FromLE(ToLE(n)) == n && ToLE(FromLE(bytes)) == bytes && FromLE(bytes) < TWO_256
  {
    Powers();
    DigitsBack(n, 32);
    Quotient(n, 0, n, TWO_256);
    BytesBack(bytes);
    BytesBound(bytes);
  }

  // ----- Clamping -----

  /** Clamped, byte by byte. */
  function ClampedBytes(key: Bytes): (clamped: Bytes)
    requires |key| == 32
    ensures |clamped| == 32
  {
    LowBits(key[0]); LowBits(key[31]);
    key[0 := And(key[0], 248)][31 := Or(And(key[31], 127), 64)]
  }

  /** A private key as WireGuard keeps it. */
  method Clamp(key: Bytes) returns (clamped: Bytes)
    requires |key| == 32
    ensures clamped == ClampedBytes(key)
  {
    var k := new Byte[32](i requires 0 <= i < 32 => key[i]);
    LowBits(k[0]);
    LowBits(k[31]);
    k[0] := And(k[0], 248);
    k[31] := And(k[31], 127);
    k[31] := Or(k[31], 64);
    clamped := k[..];
  }

  /** A key's scalar: its lowest three bits off, its top bit off, the next one on. */
  function Scalar(key: nat): nat {
    TWO_254 + 8 * ((key / 8) % TWO_251)
  }

  lemma {:induction false} Ends(bytes: Bytes)
    requires |bytes| == 32
    ensures FromLE(bytes) == bytes[0] + 256 * FromLE(bytes[1..31]) + TWO_248 * bytes[31]
  {
    FromJoined(bytes[..31], bytes[31..]);
    assert bytes == bytes[..31] + bytes[31..];
    Powers();
    assert bytes[31..] == [bytes[31]] && FromLE([bytes[31]]) == bytes[31] + 256 * FromLE([]);
    assert bytes[..31][1..] == bytes[1..31];
  }

  lemma {:induction false} FromJoined(a: Bytes, b: Bytes)
    ensures FromLE(a + b) == FromLE(a) + Pow256(|a|) * FromLE(b)
    decreases |a|
  {
    if a == [] {
      assert a + b == b;
    } else {
      var less, power, rest := FromLE(a[1..]), Pow256(|a| - 1), FromLE(b);
      FromJoined(a[1..], b);
      assert (a + b)[1..] == a[1..] + b;
      Associate(a[0], less, power, rest);
    }
  }

  lemma {:induction false} Associate(first: int, less: int, power: int, rest: int)
    ensures first + 256 * (less + power * rest) == first + 256 * less + (256 * power) * rest
  {
  }

  // Bit by bit, as a number's are combined.

  function And(a: nat, b: nat): nat {
    if a == 0 || b == 0 then 0 else 2 * And(a / 2, b / 2) + (if a % 2 == 1 && b % 2 == 1 then 1 else 0)
  }

  function Or(a: nat, b: nat): nat
    decreases a + b
  {
    if a == 0 && b == 0 then 0 else 2 * Or(a / 2, b / 2) + (if a % 2 == 1 || b % 2 == 1 then 1 else 0)
  }

  lemma {:induction false} AndOnes(a: nat, k: nat)
    ensures And(a, Pow2(k) - 1) == a % Pow2(k)
    decreases k
  {
    if k > 0 {
      AndOnes(a / 2, k - 1);
      assert (Pow2(k) - 1) / 2 == Pow2(k - 1) - 1;
      DivDiv(a, 2, Pow2(k - 1));
      if a == 0 { Quotient(0, 0, 0, Pow2(k)); }
    }
  }

  lemma {:induction false} OrOne(a: nat, k: nat)
    requires a < 2 * Pow2(k)
    ensures Or(a, Pow2(k)) == Pow2(k) + a % Pow2(k)
    decreases k
  {
    if k > 0 {
      OrOne(a / 2, k - 1);
      DivDiv(a, 2, Pow2(k - 1));
    } else {
      assert a / 2 == 0 && Or(0, 0) == 0;
    }
  }

  lemma {:induction false} AndDouble(a: nat, b: nat)
    ensures And(a, 2 * b) == 2 * And(a / 2, b)
  {
    if a > 0 && b > 0 { Quotient(2 * b, b, 0, 2); }
  }

  lemma {:induction false} AndLow(b: Byte)
    ensures And(b, 248) == 8 * (b / 8)
  {
    AndDouble(b, 124);
    AndDouble(b / 2, 62);
    AndDouble(b / 2 / 2, 31);
    assert b / 2 / 2 / 2 == b / 8;
    Powers2();
    AndOnes(b / 8, 5);
    Quotient(b / 8, 0, b / 8, 32);
  }

  lemma {:induction false} Powers2()
    ensures Pow2(5) == 32 && Pow2(6) == 64 && Pow2(7) == 128
  {
    assert Pow2(3) == 8;
    assert Pow2(5) == 32;
  }

  lemma {:induction false} LowBits(b: Byte)
    ensures And(b, 248) == 8 * (b / 8)
    ensures And(b, 127) == b % 128
    ensures Or(And(b, 127), 64) == 64 + b % 64
  {
    AndLow(b);
    AndRest(b);
    OrRest(b, And(b, 127));
  }

  lemma {:induction false} OrRest(b: Byte, rest: int)
    requires rest == b % 128
    ensures Or(rest, 64) == 64 + b % 64
  {
    OrTop(rest);
    Rest64(b);
  }

  lemma {:induction false} Rest64(b: Byte)
    ensures (b % 128) % 64 == b % 64
  {
  }

  lemma {:induction false} AndRest(b: Byte)
    ensures And(b, 127) == b % 128
  {
    var ones := Pow2(7) - 1;
    Powers2();
    AndOnes(b, 7);
    assert ones == 127;
  }

  lemma {:induction false} OrTop(b: Byte)
    requires b < 128
    ensures Or(b, 64) == 64 + b % 64
  {
    var bit := Pow2(6);
    Powers2();
    OrOne(b, 6);
    assert bit == 64;
  }

  lemma {:induction false} ClampedEnds(key: Bytes) returns (mid: nat)
    requires |key| == 32
    ensures mid < TWO_240 && FromLE(key) == key[0] + 256 * mid + TWO_248 * key[31]
    ensures FromLE(ClampedBytes(key)) == 8 * (key[0] / 8) + 256 * mid + TWO_248 * (64 + key[31] % 64)
  {
    var clamped := ClampedBytes(key);
    mid := FromLE(key[1..31]);
    LowBits(key[0]);
    LowBits(key[31]);
    Ends(key);
    Ends(clamped);
    assert clamped[1..31] == key[1..31];
    BytesBound(key[1..31]);
    Power30();
  }

  /** Clamping a key leaves the number it is with its lowest three bits off, its top bit off and the
      next one on, and no other bit changed. */
  lemma {:induction false} ClampedIs(key: Bytes)
    requires |key| == 32
    ensures FromLE(ClampedBytes(key)) == Scalar(FromLE(key))
  {
    var mid := ClampedEnds(key);
    ClampedNumber(key[0], mid, key[31]);
  }

  const TWO_245: int := 0x20_0000_0000_0000_0000_0000_0000_0000_0000_0000_0000_0000_0000_0000_0000_0000
  const TWO_240: int := 0x1_0000_0000_0000_0000_0000_0000_0000_0000_0000_0000_0000_0000_0000_0000_0000

  lemma {:induction false} Power30()
    ensures Pow256(30) == TWO_240
  {
    Powers();
    assert Pow256(31) == 256 * Pow256(30);
  }

  lemma {:induction false} ClampedNumber(low: nat, mid: nat, high: nat)
    requires low < 256 && high < 256 && mid < TWO_240
    ensures 8 * (low / 8) + 256 * mid + TWO_248 * (64 + high % 64) == Scalar(low + 256 * mid + TWO_248 * high)
  {
    var n := low + 256 * mid + TWO_248 * high;
    var eighth := low / 8 + 32 * mid + TWO_245 * high;
    Quotient(n, eighth, low % 8, 8);
    var rest := low / 8 + 32 * mid + TWO_245 * (high % 64);
    assert high == 64 * (high / 64) + high % 64;
    Quotient(eighth, high / 64, rest, TWO_251);
  }

  function UnmaskedBytes(u: Bytes): (point: Bytes)
    requires |u| == 32
    ensures |point| == 32
  {
    LowBits(u[31]);
    u[31 := And(u[31], 127)]
  }

  lemma {:induction false} UnmaskedEnds(u: Bytes) returns (rest: nat)
    requires |u| == 32
    ensures rest < TWO_248 && FromLE(u) == rest + TWO_248 * u[31]
    ensures FromLE(UnmaskedBytes(u)) == rest + TWO_248 * (u[31] % 128)
  {
    var point := UnmaskedBytes(u);
    LowBits(u[31]);
    Ends(u);
    Ends(point);
    assert point[1..31] == u[1..31];
    BytesBound(u[1..31]);
    Power30();
    rest := u[0] + 256 * FromLE(u[1..31]);
  }

  /** The u-coordinate's top bit is not looked at. */
  lemma {:induction false} UnmaskedIs(u: Bytes)
    requires |u| == 32
    ensures FromLE(UnmaskedBytes(u)) == FromLE(u) % TWO_255
  {
    var rest := UnmaskedEnds(u);
    UnmaskedNumber(rest, u[31]);
  }

  lemma {:induction false} UnmaskedNumber(rest: nat, high: nat)
    requires rest < TWO_248 && high < 256
    ensures rest + TWO_248 * (high % 128) == (rest + TWO_248 * high) % TWO_255
  {
    assert high == 128 * (high / 128) + high % 128;
    Quotient(rest + TWO_248 * high, high / 128, rest + TWO_248 * (high % 128), TWO_255);
  }

  // ----- The ladder -----

  datatype Ladder = Ladder(x2: int, z2: int, x3: int, z3: int)

  function Swapped(l: Ladder): Ladder {
    Ladder(l.x3, l.z3, l.x2, l.z2)
  }

  function SwappedIf(swap: bool, l: Ladder): Ladder {
    if swap then Swapped(l) else l
  }

  /** One step of the ladder, as section 5 of RFC 7748 has it. */
  function Step(x1: int, l: Ladder): Ladder {
    StepOver(P, x1, l)
  }

  /** A step over any modulus. */
  function StepOver(p: int, x1: int, l: Ladder): Ladder
    requires p > 0
  {
    var a := Mod(p, l.x2 + l.z2);
    var aa := Mod(p, a * a);
    var b := Mod(p, l.x2 - l.z2);
    var bb := Mod(p, b * b);
    var e := Mod(p, aa - bb);
    var c := Mod(p, l.x3 + l.z3);
    var d := Mod(p, l.x3 - l.z3);
    var da := Mod(p, d * a);
    var cb := Mod(p, c * b);
    var sum := Mod(p, da + cb);
    var difference := Mod(p, da - cb);
    Ladder(Mod(p, aa * bb), Mod(p, e * Mod(p, aa + A24 * e)), Mod(p, sum * sum), Mod(p, x1 * Mod(p, difference * difference)))
  }

  // What a step is, on the curve y^2 = x^3 + 486662 x^2 + x: the first point doubled, and the sum of
  // the two points, whose difference is x1.

  const A := 486662

  function DoubledX(x: int, z: int): int {
    (x * x - z * z) * (x * x - z * z)
  }

  function DoubledZ(x: int, z: int): int {
    4 * (x * z) * (x * x + A * (x * z) + z * z)
  }

  function SumX(l: Ladder): int {
    4 * ((l.x2 * l.x3 - l.z2 * l.z3) * (l.x2 * l.x3 - l.z2 * l.z3))
  }

  function SumZ(x1: int, l: Ladder): int {
    4 * (x1 * ((l.x3 * l.z2 - l.x2 * l.z3) * (l.x3 * l.z2 - l.x2 * l.z3)))
  }

  lemma {:induction false} Reduced(a: int, p: int)
    requires p > 0
    ensures Same(Mod(p, a), a, p)
  {
    Quotient(Mod(p, a), 0, Mod(p, a), p);
  }

  /** The squares of a sum and of a difference: their product and their difference. */
  lemma {:induction false} Squares(x: int, z: int)
    ensures (x + z) * (x + z) == x * x + 2 * (x * z) + z * z
    ensures (x - z) * (x - z) == x * x - 2 * (x * z) + z * z
  {
    assert (x + z) * (x + z) == x * (x + z) + z * (x + z);
    assert (x - z) * (x - z) == x * (x - z) - z * (x - z);
    assert x * z == z * x;
  }

  lemma {:induction false} SquareOfProduct(a: int, b: int)
    ensures (a * a) * (b * b) == (a * b) * (a * b)
  {
  }

  lemma {:induction false} DifferenceOfSquares(x: int, z: int)
    ensures (x + z) * (x - z) == x * x - z * z
  {
    assert (x + z) * (x - z) == x * (x - z) + z * (x - z);
  }

  /** The two cross products: their sum and their difference. */
  lemma {:induction false} Cross(x2: int, z2: int, x3: int, z3: int)
    ensures (x3 - z3) * (x2 + z2) + (x3 + z3) * (x2 - z2) == 2 * (x2 * x3 - z2 * z3)
    ensures (x3 - z3) * (x2 + z2) - (x3 + z3) * (x2 - z2) == 2 * (x3 * z2 - x2 * z3)
  {
    assert (x3 - z3) * (x2 + z2) == x3 * x2 + x3 * z2 - z3 * x2 - z3 * z2;
    assert (x3 + z3) * (x2 - z2) == x3 * x2 - x3 * z2 + z3 * x2 - z3 * z2;
  }

  /** What is the same as a product of what are the same as two others. */
  lemma {:induction false} Product(n: int, a: int, b: int, x: int, y: int, p: int)
    requires p > 0 && Same(n, a * b, p) && Same(a, x, p) && Same(b, y, p)
    ensures Same(n, x * y, p)
  {
    SameMul(a, b, x, y, p);
  }

  lemma {:induction false} Doubled(x: int, z: int, a: int, b: int, aa: int, bb: int, e: int, f: int, p: int)
    requires p > 0 && Same(a, x + z, p) && Same(b, x - z, p) && Same(aa, a * a, p) && Same(bb, b * b, p)
    requires Same(e, aa - bb, p) && Same(f, aa + A24 * e, p)
    ensures Same(aa * bb, DoubledX(x, z), p) && Same(e * f, DoubledZ(x, z), p)
  {
    var (sum, difference) := ((x + z) * (x + z), (x - z) * (x - z));
    Squares(x, z);
    SquareOfProduct(x + z, x - z);
    DifferenceOfSquares(x, z);
    Product(aa, a, a, x + z, x + z, p);
    Product(bb, b, b, x - z, x - z, p);
    SameMul(aa, bb, sum, difference, p);
    SameAdd(aa, bb, sum, difference, p);
    SameMul(A24, e, A24, 4 * (x * z), p);
    SameAdd(aa, A24 * e, sum, A24 * (4 * (x * z)), p);
    SameMul(e, f, 4 * (x * z), x * x + A * (x * z) + z * z, p);
  }

  /** The first point of a step is the first doubled. */
  lemma {:induction false} StepDoubles(p: int, x1: int, l: Ladder)
    requires p > 0
    ensures Same(StepOver(p, x1, l).x2, DoubledX(l.x2, l.z2), p)
    ensures Same(StepOver(p, x1, l).z2, DoubledZ(l.x2, l.z2), p)
  {
    var (a, b) := (Mod(p, l.x2 + l.z2), Mod(p, l.x2 - l.z2));
    var (aa, bb) := (Mod(p, a * a), Mod(p, b * b));
    var e := Mod(p, aa - bb);
    var f := Mod(p, aa + A24 * e);
    Reduced(l.x2 + l.z2, p);
    Reduced(l.x2 - l.z2, p);
    Reduced(a * a, p);
    Reduced(b * b, p);
    Reduced(aa - bb, p);
    Reduced(aa + A24 * e, p);
    Reduced(aa * bb, p);
    Reduced(e * f, p);
    Doubled(l.x2, l.z2, a, b, aa, bb, e, f, p);
  }

  lemma {:induction false} Summed(l: Ladder, a: int, b: int, c: int, d: int, da: int, cb: int, sum: int, difference: int, p: int)
    requires p > 0 && Same(a, l.x2 + l.z2, p) && Same(b, l.x2 - l.z2, p) && Same(c, l.x3 + l.z3, p) && Same(d, l.x3 - l.z3, p)
    requires Same(da, d * a, p) && Same(cb, c * b, p) && Same(sum, da + cb, p) && Same(difference, da - cb, p)
    ensures Same(sum, 2 * (l.x2 * l.x3 - l.z2 * l.z3), p) && Same(difference, 2 * (l.x3 * l.z2 - l.x2 * l.z3), p)
  {
    var (x, y) := ((l.x3 - l.z3) * (l.x2 + l.z2), (l.x3 + l.z3) * (l.x2 - l.z2));
    Product(da, d, a, l.x3 - l.z3, l.x2 + l.z2, p);
    Product(cb, c, b, l.x3 + l.z3, l.x2 - l.z2, p);
    SameAdd(da, cb, x, y, p);
    Cross(l.x2, l.z2, l.x3, l.z3);
  }

  lemma {:induction false} Squared(n: int, a: int, s: int, p: int)
    requires p > 0 && Same(n, a * a, p) && Same(a, 2 * s, p)
    ensures Same(n, 4 * (s * s), p)
  {
    Product(n, a, a, 2 * s, 2 * s, p);
    assert (2 * s) * (2 * s) == 4 * (s * s);
  }

  /** The second point of a step is the two added, their difference x1. */
  lemma {:induction false} StepAdds(p: int, x1: int, l: Ladder)
    requires p > 0
    ensures Same(StepOver(p, x1, l).x3, SumX(l), p)
    ensures Same(StepOver(p, x1, l).z3, SumZ(x1, l), p)
  {
    var (a, b, c, d) := (Mod(p, l.x2 + l.z2), Mod(p, l.x2 - l.z2), Mod(p, l.x3 + l.z3), Mod(p, l.x3 - l.z3));
    var (da, cb) := (Mod(p, d * a), Mod(p, c * b));
    var (sum, difference) := (Mod(p, da + cb), Mod(p, da - cb));
    Reduced(l.x2 + l.z2, p);
    Reduced(l.x2 - l.z2, p);
    Reduced(l.x3 + l.z3, p);
    Reduced(l.x3 - l.z3, p);
    Reduced(d * a, p);
    Reduced(c * b, p);
    Reduced(da + cb, p);
    Reduced(da - cb, p);
    Summed(l, a, b, c, d, da, cb, sum, difference, p);
    AddsEnd(p, x1, l, sum, difference);
  }

  lemma {:induction false} AddsEnd(p: int, x1: int, l: Ladder, sum: int, difference: int)
    requires p > 0 && Same(sum, 2 * (l.x2 * l.x3 - l.z2 * l.z3), p) && Same(difference, 2 * (l.x3 * l.z2 - l.x2 * l.z3), p)
    ensures Same(Mod(p, sum * sum), SumX(l), p) && Same(Mod(p, x1 * Mod(p, difference * difference)), SumZ(x1, l), p)
  {
    var (s, f) := (l.x2 * l.x3 - l.z2 * l.z3, l.x3 * l.z2 - l.x2 * l.z3);
    var square := Mod(p, difference * difference);
    Reduced(sum * sum, p);
    Squared(Mod(p, sum * sum), sum, s, p);
    Reduced(difference * difference, p);
    Squared(square, difference, f, p);
    Reduced(x1 * square, p);
    Product(Mod(p, x1 * square), x1, square, x1, 4 * (f * f), p);
    assert x1 * (4 * (f * f)) == 4 * (x1 * (f * f));
  }

  function Pow2(t: nat): (n: nat)
    ensures n > 0
  {
    if t == 0 then 1 else 2 * Pow2(t - 1)
  }

  predicate Bit(k: nat, t: nat) {
    (k / Pow2(t)) % 2 == 1
  }

  /** The ladder down to bit `t` of a scalar, swapping at each bit that is on and back again after. */
  function Climb(step: (int, Ladder) -> Ladder, x1: int, k: nat, t: nat): Ladder
    requires t <= 255
    decreases 255 - t
  {
    if t == 255 then Ladder(1, 0, x1, 1)
    else SwappedIf(Bit(k, t), step(x1, SwappedIf(Bit(k, t), Climb(step, x1, k, t + 1))))
  }

  /** The loop of x25519, with the swap back put off to the next bit, where the two may cancel:
      whatever a step does, it makes the same ladder. */
  method ClimbDeferred(step: (int, Ladder) -> Ladder, x1: int, k: nat) returns (l: Ladder)
    ensures l == Climb(step, x1, k, 0)
  {
    var x2, z2, x3, z3 := 1, 0, x1, 1;
    var swap := false;
    var t := 254;
    while t >= 0
      invariant -1 <= t <= 254
      invariant SwappedIf(swap, Ladder(x2, z2, x3, z3)) == Climb(step, x1, k, t + 1)
    {
      var bit := Bit(k, t);
      if swap != bit { x2, x3, z2, z3 := x3, x2, z3, z2; }
      swap := bit;
      var next := step(x1, Ladder(x2, z2, x3, z3));
      x2, z2, x3, z3 := next.x2, next.z2, next.x3, next.z3;
      t := t - 1;
    }
    if swap { x2, x3, z2, z3 := x3, x2, z3, z2; }
    return Ladder(x2, z2, x3, z3);
  }

  // ----- The ladder multiplies -----

  /** A multiple of a point and the next one. */
  function PairAt(multiple: nat -> (int, int), n: nat): Ladder {
    Ladder(multiple(n).0, multiple(n).1, multiple(n + 1).0, multiple(n + 1).1)
  }

  predicate StepsAt(step: (int, Ladder) -> Ladder, multiple: nat -> (int, int), x1: int, n: nat) {
    && step(x1, PairAt(multiple, n)) == PairAt(multiple, 2 * n)
    && step(x1, Swapped(PairAt(multiple, n))) == Swapped(PairAt(multiple, 2 * n + 1))
  }

  /** A step that doubles its first point and adds the two, the multiples of a point being these: none
      of it, and it, to start with. */
  ghost predicate Multiplies(step: (int, Ladder) -> Ladder, multiple: nat -> (int, int), x1: int) {
    multiple(0) == (1, 0) && multiple(1) == (x1, 1) && forall n: nat :: StepsAt(step, multiple, x1, n)
  }

  /** The scalar above bit `t`. */
  function Above(k: nat, t: nat): nat {
    NotNegative(k, Pow2(t));
    k / Pow2(t)
  }

  lemma {:induction false} NotNegative(k: nat, n: int)
    requires n > 0
    ensures 0 <= k / n
  {
    var q, r := k / n, k % n;
    assert k == q * n + r && r < n;
    AtLeast(q, n);
  }

  lemma {:induction false} NextBit(k: nat, t: nat)
    ensures Above(k, t) == 2 * Above(k, t + 1) + (if Bit(k, t) then 1 else 0)
  {
    var low := k / Pow2(t);
    DivDiv(k, Pow2(t), 2);
    assert Pow2(t + 1) == Pow2(t) * 2;
    assert low == 2 * (low / 2) + low % 2;
  }

  lemma {:induction false} TopPower(t: nat)
    requires t == 255
    ensures Pow2(t) == TWO_255
  {
    Powers();
    BytePowers(31);
    var n := t - 7;
    assert Pow2(n) == TWO_248;
    assert Pow2(n + 1) == 2 * TWO_248 && Pow2(n + 2) == 4 * TWO_248 && Pow2(n + 3) == 8 * TWO_248;
    assert Pow2(n + 4) == 16 * TWO_248 && Pow2(n + 5) == 32 * TWO_248 && Pow2(n + 6) == 64 * TWO_248;
  }

  lemma {:induction false} BytePowers(i: nat)
    ensures Pow2(8 * i) == Pow256(i)
    decreases i
  {
    if i > 0 {
      BytePowers(i - 1);
      var n := 8 * (i - 1);
      assert Pow2(n + 1) == 2 * Pow2(n) && Pow2(n + 2) == 4 * Pow2(n) && Pow2(n + 3) == 8 * Pow2(n) && Pow2(n + 4) == 16 * Pow2(n);
      assert Pow2(n + 5) == 32 * Pow2(n) && Pow2(n + 6) == 64 * Pow2(n) && Pow2(n + 7) == 128 * Pow2(n) && Pow2(n + 8) == 256 * Pow2(n);
    }
  }

  lemma {:induction false} NoneAbove(k: nat, t: nat)
    requires k < TWO_255 && t == 255
    ensures Above(k, t) == 0
  {
    TopPower(t);
    Quotient(k, 0, k, Pow2(t));
  }

  /** Down to bit `t` the ladder has the multiple the scalar's higher bits say, and the next: whatever
      the multiples are, if a step doubles and adds them. */
  lemma {:induction false} ClimbMultiplies(step: (int, Ladder) -> Ladder, multiple: nat -> (int, int), x1: int, k: nat, t: nat)
    requires Multiplies(step, multiple, x1) && k < TWO_255 && t <= 255
    ensures Climb(step, x1, k, t) == PairAt(multiple, Above(k, t))
    decreases 255 - t
  {
    if t < 255 {
      ClimbMultiplies(step, multiple, x1, k, t + 1);
      NextBit(k, t);
      assert StepsAt(step, multiple, x1, Above(k, t + 1));
      ClimbSteps(step, multiple, x1, k, t, Above(k, t + 1));
    } else {
      NoneAbove(k, t);
    }
  }

  lemma {:induction false} ClimbSteps(step: (int, Ladder) -> Ladder, multiple: nat -> (int, int), x1: int, k: nat, t: nat, n: nat)
    requires t < 255 && Climb(step, x1, k, t + 1) == PairAt(multiple, n) && StepsAt(step, multiple, x1, n)
    ensures Climb(step, x1, k, t) == PairAt(multiple, 2 * n + (if Bit(k, t) then 1 else 0))
  {
  }

  /** A step on the multiples of a number counted from one, and how many they are. */
  function Counting(x1: int, l: Ladder): Ladder {
    Ladder(2 * l.x2 - 1, 2 * l.z2, l.x2 + l.x3 - 1, l.z2 + l.z3)
  }

  lemma {:induction false} CountingMultiplies(x1: int)
    ensures Multiplies(Counting, (n: nat) => (1 + n * (x1 - 1), n), x1)
  {
    var multiple := (n: nat) => (1 + n * (x1 - 1), n);
    forall n: nat ensures StepsAt(Counting, multiple, x1, n) { Distribute(n, x1 - 1); }
  }

  lemma {:induction false} Distribute(n: nat, d: int)
    ensures (n + 1) * d == n * d + d && (2 * n) * d == 2 * (n * d)
    ensures (2 * n + 1) * d == 2 * (n * d) + d && (2 * n + 2) * d == 2 * (n * d) + 2 * d && (2 * n + 1 + 1) * d == 2 * (n * d) + 2 * d
  {
  }

  /** So the ladder makes the multiple the scalar says, not one more or another. */
  lemma {:induction false} LadderCounts(x1: int, k: nat)
    requires k < TWO_255
    ensures var l := Climb(Counting, x1, k, 0);
      l.z2 == k && l.z3 == k + 1 && l.x2 == 1 + k * (x1 - 1) && l.x3 == 1 + (k + 1) * (x1 - 1)
  {
    CountingMultiplies(x1);
    ClimbMultiplies(Counting, (n: nat) => (1 + n * (x1 - 1), n), x1, k, 0);
    assert Above(k, 0) == k;
  }

  /** The prime, by the powers of two it is told by, and the powers by their definition. */
  lemma {:induction false} PrimeIs()
    ensures P == TWO_255 - 19 && 2 * TWO_255 == Pow256(32) && 2 * TWO_254 == TWO_255 && 8 * TWO_251 == TWO_254
  {
    Powers();
  }

  /** The u-coordinate a ladder ends at: x over z, modulo P (z to the P - 2 its inverse). */
  function Coordinate(l: Ladder, exponent: nat): int {
    (l.x2 * (Power(l.z2, exponent) % P)) % P
  }

  /** X25519 of a scalar and a u-coordinate. */
  method X25519(scalar: Bytes, u: Bytes) returns (out: Bytes)
    requires |scalar| == 32 && |u| == 32
    ensures |out| == 32 && FromLE(out) < P
    ensures FromLE(out) == Coordinate(Climb(Step, FromLE(u) % TWO_255, Scalar(FromLE(scalar)), 0), P - 2)
  {
    var clamped := Clamp(scalar);
    var point := UnmaskedBytes(u);
    ClampedIs(scalar);
    UnmaskedIs(u);
    var l := ClimbDeferred(Step, FromLE(point), FromLE(clamped));
    var inverse := Pow(l.z2, P - 2);
    var value := Mod(P, l.x2 * inverse);
    LittleEndianBack(value, clamped);
    return ToLE(value);
  }

  /** Keys that differ only in the bits clamping sets make the same X25519: the scalar is all that
      counts, and it is always one of 2^251. */
  lemma {:induction false} ScalarRange(key: nat)
    ensures TWO_254 <= Scalar(key) < TWO_255 && Scalar(key) % 8 == 0
    ensures Scalar(Scalar(key)) == Scalar(key)
  {
    var low := (key / 8) % TWO_251;
    Quotient(Scalar(key), TWO_251 + low, 0, 8);
    Quotient(TWO_251 + low, 1, low, TWO_251);
  }
}
