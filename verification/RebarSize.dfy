// BAR sizes: the 64-bit arithmetic of `ParseRebarSize`, `SizeBytes` and `parseMemoryBytes`.
module RebarSize {
  import opened Wrappers
  import opened Text

  const U64: nat := 0x1_0000_0000_0000_0000
  const MIB: nat := 0x10_0000

  datatype SizeError = NotANumber | NotAMultiple | NotAPower

  function Pow2(k: nat): (p: nat)
    ensures p > 0
  {
    if k == 0 then 1 else 2 * Pow2(k - 1)
  }

  // ----- bits of a number

  // a & b
  function And(a: nat, b: nat): nat {
    if a == 0 || b == 0 then 0 else 2 * And(a / 2, b / 2) + (if a % 2 == 1 && b % 2 == 1 then 1 else 0)
  }

  // bits.TrailingZeros64 of a nonzero word
  function TrailingZeros(b: nat): nat
    requires b > 0
  {
    if b % 2 == 1 then 0 else 1 + TrailingZeros(b / 2)
  }

  lemma {:induction false} AndSelf(a: nat)
    ensures And(a, a) == a
  {
    if a > 0 {
      AndSelf(a / 2);
    }
  }

  /** b & (b-1) == 0 says that b is the power of two its trailing zeros count. */
  lemma {:induction false} PowerOfTwoTest(b: nat)
    requires b > 0
    ensures And(b, b - 1) == 0 <==> b == Pow2(TrailingZeros(b))
  {
    var c := b / 2;
    if b % 2 == 1 {
      assert (b - 1) / 2 == c && (b - 1) % 2 == 0;
      AndSelf(c);
      assert b > 1 ==> And(b, b - 1) == 2 * And(c, c);
    } else {
      PowerOfTwoTest(c);
      assert (b - 1) / 2 == c - 1 && (b - 1) % 2 == 1;
      assert And(b, b - 1) == 2 * And(c, c - 1);
    }
  }

  lemma {:induction false} TrailingZerosOfPower(k: nat)
    ensures TrailingZeros(Pow2(k)) == k
  {
    if k > 0 {
      TrailingZerosOfPower(k - 1);
      assert Pow2(k) / 2 == Pow2(k - 1);
    }
  }

  lemma {:induction false} Pow2Monotone(a: nat, b: nat)
    requires a <= b
    ensures Pow2(a) <= Pow2(b) && (a < b ==> Pow2(a) < Pow2(b))
    decreases b
  {
    if a < b {
      Pow2Monotone(a, b - 1);
    }
  }

  lemma {:induction false} Pow2Values()
    ensures Pow2(20) == MIB && Pow2(64) == U64
  {
    assert Pow2(4) == 16;
    Doubled(4, 16);
    Doubled(8, 256);
    Doubled(16, 0x1_0000);
    Doubled(32, 0x1_0000_0000);
    Pow2Sum(16, 4);
  }

  lemma {:induction false} Doubled(k: nat, v: nat)
    requires Pow2(k) == v
    ensures Pow2(2 * k) == v * v
  {
    Pow2Sum(k, k);
  }

  lemma {:induction false} Pow2Sum(a: nat, b: nat)
    ensures Pow2(a + b) == Pow2(a) * Pow2(b)
    decreases b
  {
    if b > 0 {
      Pow2Sum(a, b - 1);
      assert Pow2(a + b) == 2 * Pow2(a + (b - 1));
    }
  }

  lemma {:induction false} PowerIsMultiple(k: nat)
    requires 20 <= k
    ensures Pow2(k) % MIB == 0
  {
    Pow2Sum(20, k - 20);
    Pow2Values();
  }

  // ----- sizes

  // strconv.ParseUint(s, 10, 64)
  function ParseUint(s: string): Option<nat> {
    if s == "" || !AllDigits(s) || Value(s) >= U64 then None else Some(Value(s))
  }

  function Unit(suffix: char): nat {
    if suffix == 'G' || suffix == 'g' then 1024 * 1024 * 1024
    else if suffix == 'M' || suffix == 'm' then 1024 * 1024
    else if suffix == 'K' || suffix == 'k' then 1024
    else 1
  }

  // parseMemoryBytes: the product wraps around at 64 bits.
  function ParseMemoryBytes(s: string): (r: Option<nat>)
    ensures r.Some? ==> r.value < U64
  {
    var t := TrimSpace(s);
    if t == "" then None else
      var u := Unit(t[|t| - 1]);
      var n := ParseUint(if u == 1 then t else t[..|t| - 1]);
      if n.None? then None else Some(n.value * u % U64)
  }

  // What may follow the numeral: nothing, or one unit letter, each 1024 times the one before.
  predicate IsSuffix(suffix: string) {
    suffix == "" || suffix == "K" || suffix == "k" || suffix == "M" || suffix == "m" || suffix == "G" || suffix == "g"
  }

  function Factor(suffix: string): nat {
    if suffix == "K" || suffix == "k" then Pow2(10)
    else if suffix == "M" || suffix == "m" then Pow2(20)
    else if suffix == "G" || suffix == "g" then Pow2(30)
    else 1
  }

  lemma {:induction false} UnitPowers()
    ensures Pow2(10) == 0x400 && Pow2(20) == MIB && Pow2(30) == 0x4000_0000
  {
    assert Pow2(5) == 32;
    Pow2Sum(5, 5);
    Pow2Sum(10, 10);
    Pow2Sum(20, 10);
  }

  lemma {:induction false} FactorIsUnit(suffix: string)
    requires IsSuffix(suffix) && suffix != ""
    ensures |suffix| == 1 && Factor(suffix) == Unit(suffix[0]) > 1
  {
    UnitPowers();
  }

  lemma {:induction false} CountRead(d: string, suffix: string)
    requires d != "" && AllDigits(d) && IsSuffix(suffix)
    ensures ParseMemoryBytes(d + suffix) == if Value(d) < U64 then Some(Value(d) * Factor(suffix) % U64) else None
  {
    var s := d + suffix;
    assert IsDigit(d[0]) && IsDigit(d[|d| - 1]) && s[0] == d[0];
    if suffix == "" {
      assert s == d;
    } else {
      FactorIsUnit(suffix);
      assert s[|s| - 1] == suffix[0] && s[..|s| - 1] == d;
    }
  }

  lemma {:induction false} WrapsUnlessSmall(p: nat)
    ensures p % U64 == p <==> p < U64
  {
  }

  lemma {:induction false} ProductIsLarger(n: nat, u: nat)
    requires u > 0
    ensures n <= n * u
  {
    assert n * (u - 1) >= 0;
  }

  /** A count written as a numeral and a unit, or none, is read as their product if and only if that fits
      64 bits; a larger one wraps around silently, unless the numeral alone is too large. */
  lemma {:induction false} CountReadWhenItFits(n: nat, suffix: string)
    requires IsSuffix(suffix)
    ensures ParseMemoryBytes(Digits(n) + suffix) == Some(n * Factor(suffix)) <==> n * Factor(suffix) < U64
  {
    ValueOfDigits(n);
    ProductIsLarger(n, Factor(suffix));
    CountRead(Digits(n), suffix);
    WrapsUnlessSmall(n * Factor(suffix));
  }

  function ParseRebarSize(s: string): Result<int, SizeError> {
    var r := ParseMemoryBytes(s);
    if r.None? then Err(NotANumber) else
      var b := r.value;
      if b < MIB || b % MIB != 0 then Err(NotAMultiple)
      else if And(b, b - 1) != 0 then Err(NotAPower)
      else Ok(TrailingZeros(b) - 20)
  }

  function SizeBytes(exp: int): nat {
    if exp < 0 || exp > 43 then 0 else Pow2(exp + 20)
  }

  /** A size is accepted exactly when its byte count is a power of two of at least 1 MiB; the
      exponent then lies in 0..43 and SizeBytes gives the byte count back. */
  lemma {:induction false} SizeRoundTrip(s: string)
    requires ParseMemoryBytes(s).Some?
    ensures var b, r := ParseMemoryBytes(s).value, ParseRebarSize(s);
            && (r.Ok? <==> exists k :: 20 <= k && b == Pow2(k))
            && (r.Ok? ==> 0 <= r.value <= 43 && SizeBytes(r.value) == b)
  {
    var b, r := ParseMemoryBytes(s).value, ParseRebarSize(s);
    if r.Ok? {
      PowerOfTwoTest(b);
      ExponentBounded(TrailingZeros(b));
    }
    if k :| 20 <= k && b == Pow2(k) {
      AcceptsPower(b, k);
    }
  }

  /** A size written as a numeral and a unit, or none, is accepted as what it says if and only if it is a
      power of two of at least 1 MiB that fits 64 bits. */
  lemma {:induction false} SizeTakenAsWritten(n: nat, suffix: string)
    requires IsSuffix(suffix)
    ensures var r, b := ParseRebarSize(Digits(n) + suffix), n * Factor(suffix);
            r.Ok? && SizeBytes(r.value) == b <==> b < U64 && exists k :: 20 <= k && b == Pow2(k)
  {
    var s, b := Digits(n) + suffix, n * Factor(suffix);
    CountReadWhenItFits(n, suffix);
    if ParseMemoryBytes(s).Some? {
      SizeRoundTrip(s);
    }
  }

  lemma {:induction false} ExponentRead(s: string, k: nat)
    requires 20 <= k && ParseMemoryBytes(s) == Some(Pow2(k))
    ensures ParseRebarSize(s) == Ok(k - 20)
  {
    AcceptsPower(Pow2(k), k);
    TrailingZerosOfPower(k);
  }

  lemma {:induction false} WrappedProduct(n: nat, u: nat)
    requires n == 17179869185 && u == 0x4000_0000
    ensures n * u == U64 + u && n * u % U64 == u
  {
  }

  lemma {:induction false} ThatNumeral()
    ensures Digits(17179869185) == "17179869185"
  {
    assert Digits(1) == "1" && Digits(17) == "17";
    assert Digits(171) == "171" && Digits(1717) == "1717";
    assert Digits(17179) == "17179" && Digits(171798) == "171798";
    assert Digits(1717986) == "1717986" && Digits(17179869) == "17179869";
    assert Digits(171798691) == "171798691" && Digits(1717986918) == "1717986918";
  }

  lemma {:induction false} ThatText()
    ensures Digits(17179869185) + "G" == "17179869185G"
  {
    ThatNumeral();
    assert "17179869185" + "G" == "17179869185G";
  }

  lemma {:induction false} WrappedAmount()
    ensures SizeBytes(10) == 0x4000_0000 && 17179869185 * Factor("G") == U64 + SizeBytes(10)
  {
    UnitPowers();
  }

  lemma {:induction false} WrappedRead(n: nat)
    requires n == 17179869185
    ensures ParseRebarSize(Digits(n) + "G") == Ok(10)
  {
    UnitPowers();
    WrappedProduct(n, Factor("G"));
    ValueOfDigits(n);
    CountRead(Digits(n), "G");
    ExponentRead(Digits(n) + "G", 30);
  }

  /** It is not the only way to be accepted: 17179869185 GiB is (2^34 + 1) * 2^30 bytes, which wraps around
      to 2^30, and is taken for 1 GiB. */
  lemma {:induction false} WrappedSizeIsAccepted()
    ensures ParseRebarSize("17179869185G") == Ok(10) && SizeBytes(10) == 0x4000_0000
    ensures 17179869185 * Factor("G") == U64 + SizeBytes(10)
  {
    ThatText();
    WrappedRead(17179869185);
    WrappedAmount();
  }

  lemma {:induction false} ExponentBounded(k: nat)
    requires MIB <= Pow2(k) < U64
    ensures 20 <= k <= 63
  {
    Pow2Values();
    if k < 20 {
      Pow2Monotone(k, 20);
    } else if k > 63 {
      Pow2Monotone(64, k);
    }
  }

  lemma {:induction false} AcceptsPower(b: nat, k: nat)
    requires 20 <= k && b == Pow2(k)
    ensures b >= MIB && b % MIB == 0 && And(b, b - 1) == 0
  {
    Pow2Values();
    Pow2Monotone(20, k);
    PowerIsMultiple(k);
    TrailingZerosOfPower(k);
    PowerOfTwoTest(b);
  }

  // And no other number does.
  lemma {:induction false} SizeOutside(exp: int)
    ensures SizeBytes(exp) == 0 <==> exp < 0 || exp > 43
  {
  }

  /** Every exponent of the file format names a size, and sizes are distinct. */
  lemma {:induction false} SizesDistinct(a: int, b: int)
    requires 0 <= a < b <= 43
    ensures MIB <= SizeBytes(a) < SizeBytes(b) < U64
  {
    Pow2Values();
    Pow2Monotone(20, a + 20);
    Pow2Monotone(a + 20, b + 20);
    Pow2Monotone(b + 20, 64);
  }
}
