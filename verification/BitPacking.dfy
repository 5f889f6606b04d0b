/** Little-endian bytes and the bitwise packing of one boundary point into 88 bits. */
module BitPacking {
  import opened Arithmetic

  function Pow2(k: nat): (r: nat)
    ensures r > 0
  {
    if k == 0 then 1 else 2 * Pow2(k - 1)
  }

  /** Bitwise or of natural numbers. */
  function Or(a: nat, b: nat): nat
  {
    if a == 0 then b
    else if b == 0 then a
    else 2 * Or(a / 2, b / 2) + (if a % 2 == 1 || b % 2 == 1 then 1 else 0)
  }

  function Shl(x: nat, k: nat): nat
  {
    if k == 0 then x else 2 * Shl(x, k - 1)
  }

  lemma {:induction false} ShlIsProduct(x: nat, k: nat)
    ensures Shl(x, k) == x * Pow2(k)
  {
    if k > 0 {
      ShlIsProduct(x, k - 1);
      assert x * Pow2(k) == 2 * (x * Pow2(k - 1));
    }
  }

  /** Fields that do not overlap may be added instead of or-ed. */
  lemma {:induction false} OrDisjoint(a: nat, b: nat, k: nat)
    requires a < Pow2(k)
    ensures Or(a, Shl(b, k)) == a + Shl(b, k)
  {
    if k > 0 {
      OrDisjoint(a / 2, b, k - 1);
      assert Shl(b, k) % 2 == 0 && Shl(b, k) / 2 == Shl(b, k - 1);
    }
  }

  /** Or-ing in a shifted field leaves the bits below it alone, whatever it meets above. */
  lemma {:induction false} OrKeepsLow(a: nat, b: nat, k: nat)
    ensures Or(a, Shl(b, k)) % Pow2(k) == a % Pow2(k)
  {
    if k > 0 {
      OrKeepsLow(a / 2, b, k - 1);
      assert Shl(b, k) % 2 == 0 && Shl(b, k) / 2 == Shl(b, k - 1);
      OrHalves(a, Shl(b, k));
      LowHalves(Or(a, Shl(b, k)), Pow2(k - 1));
      LowHalves(a, Pow2(k - 1));
    }
  }

  lemma OrHalves(a: nat, b: nat)
    requires b % 2 == 0
    ensures Or(a, b) / 2 == Or(a / 2, b / 2) && Or(a, b) % 2 == a % 2
  {
  }

  lemma LowHalves(x: nat, m: nat)
    requires m > 0
    ensures x % (2 * m) == 2 * (x / 2 % m) + x % 2
  {
    var q, r := x / 2 / m, x / 2 % m;
    assert x / 2 == q * m + r;
    assert x == q * (2 * m) + (2 * r + x % 2);
    SplitAt(x, 2 * r + x % 2, 2 * m, q);
  }

  const W19: nat := 0x8_0000
  const W31: nat := 0x8000_0000
  const W43: nat := 0x800_0000_0000
  const W55: nat := 0x80_0000_0000_0000
  const W67: nat := 0x8_0000_0000_0000_0000
  const W75: nat := 0x800_0000_0000_0000_0000
  const W83: nat := 0x8_0000_0000_0000_0000_0000
  const W88: nat := 0x100_0000_0000_0000_0000_0000

  lemma Pow2Values()
    ensures Pow2(19) == W19 && Pow2(31) == W31 && Pow2(43) == W43 && Pow2(55) == W55
    ensures Pow2(67) == W67 && Pow2(75) == W75 && Pow2(83) == W83
  {
    assert Pow2(8) == 256;
    assert Pow2(12) == 4_096;
    assert Pow2(19) == 0x8_0000;
    Pow2Sum(19, 12);
    Pow2Sum(31, 12);
    Pow2Sum(43, 12);
    Pow2Sum(55, 12);
    Pow2Sum(67, 8);
    Pow2Sum(75, 8);
  }

  lemma {:induction false} Pow2Sum(a: nat, b: nat)
    ensures Pow2(a + b) == Pow2(a) * Pow2(b)
  {
    if b > 0 {
      Pow2Sum(a, b - 1);
      assert Pow2(a + b) == 2 * Pow2(a + b - 1);
      assert Pow2(a) * Pow2(b) == 2 * (Pow2(a) * Pow2(b - 1));
    }
  }

  /** `x` shifted by one of the field offsets, as a product with the offset's weight. */
  lemma ShlWeight(x: nat, k: nat, weight: nat)
    requires Pow2(k) == weight
    ensures Shl(x, k) == x * weight
  {
    ShlIsProduct(x, k);
  }

  /** The eight wire fields of a point, 19/12/12/12/12/8/8/5 bits from the low end. */
  datatype Fields = Fields(
    elapsed: nat, rtdCode: nat, rtdMv: nat, vinCode: nat, vinMv: nat, tracking: nat, flat: nat, current: nat)

  /** Every field but the topmost stays below its neighbour. */
  predicate Fit(f: Fields)
  {
    && f.elapsed < W19 && f.rtdCode < 4_096 && f.rtdMv < 4_096 && f.vinCode < 4_096 && f.vinMv < 4_096
    && f.tracking < 256 && f.flat < 256
  }

  function Pack(f: Fields): nat
  {
    Or(Or(Or(Or(Or(Or(Or(f.elapsed, Shl(f.rtdCode, 19)), Shl(f.rtdMv, 31)), Shl(f.vinCode, 43)), Shl(f.vinMv, 55)),
             Shl(f.tracking, 67)), Shl(f.flat, 75)), Shl(f.current, 83))
  }

  function Sum(f: Fields): nat
  {
    f.elapsed + f.rtdCode * W19 + f.rtdMv * W31 + f.vinCode * W43 + f.vinMv * W55 + f.tracking * W67 +
    f.flat * W75 + f.current * W83
  }

  /** Shift and mask of each field. */
  function Unpack(x: nat): (f: Fields)
    ensures Fit(f) && f.current < 32
  {
    Fields(x % W19, x / W19 % 4_096, x / W31 % 4_096, x / W43 % 4_096, x / W55 % 4_096, x / W67 % 256, x / W75 % 256,
           x / W83 % 32)
  }

  lemma PackIsSum(f: Fields)
    requires Fit(f)
    ensures Pack(f) == Sum(f)
  {
    hide Or, Shl;
    LowIsSum(f);
    Pow2Values();
    ShlWeight(f.tracking, 67, W67);
    ShlWeight(f.flat, 75, W75);
    ShlWeight(f.current, 83, W83);
    var low := LowSum(f);
    OrDisjoint(low, f.tracking, 67);
    var more := low + f.tracking * W67;
    OrDisjoint(more, f.flat, 75);
    OrDisjoint(more + f.flat * W75, f.current, 83);
  }

  /** Unpacking recovers every field that fits: the packing is disjoint. */
  lemma UnpackPack(f: Fields)
    requires Fit(f) && f.current < 32
    ensures Unpack(Pack(f)) == f && Pack(f) < W88
  {
    PackIsSum(f);
    UnpackSum(f);
  }

  lemma UnpackSum(f: Fields)
    requires Fit(f) && f.current < 32
    ensures Unpack(Sum(f)) == f && Sum(f) < W88
  {
    var x := Sum(f);
    var h7 := f.current;
    var h6 := f.flat + 256 * h7;
    var h5 := f.tracking + 256 * h6;
    var h4 := f.vinMv + 4_096 * h5;
    var h3 := f.vinCode + 4_096 * h4;
    var h2 := f.rtdMv + 4_096 * h3;
    var h1 := f.rtdCode + 4_096 * h2;
    var l1 := f.elapsed;
    var l2 := l1 + f.rtdCode * W19;
    var l3 := l2 + f.rtdMv * W31;
    var l4 := l3 + f.vinCode * W43;
    var l5 := l4 + f.vinMv * W55;
    var l6 := l5 + f.tracking * W67;
    SplitAt(x, l1, W19, h1);
    SplitAt(x, l2, W31, h2);
    SplitAt(x, l3, W43, h3);
    SplitAt(x, l4, W55, h4);
    SplitAt(x, l5, W67, h5);
    SplitAt(x, l6, W75, h6);
    SplitAt(x, l6 + f.flat * W75, W83, h7);
    SplitAt(h1, f.rtdCode, 4_096, h2);
    SplitAt(h2, f.rtdMv, 4_096, h3);
    SplitAt(h3, f.vinCode, 4_096, h4);
    SplitAt(h4, f.vinMv, 4_096, h5);
    SplitAt(h5, f.tracking, 256, h6);
    SplitAt(h6, f.flat, 256, h7);
  }

  lemma SplitAt(x: nat, lo: nat, weight: nat, hi: nat)
    requires x == lo + hi * weight && lo < weight
    ensures x / weight == hi && x % weight == lo
  {
    var q, r := x / weight, x % weight;
    assert x == q * weight + r;
    if q < hi {
      MulMonotone(weight, q + 1, hi);
    } else if q > hi {
      MulMonotone(weight, hi + 1, q);
    }
  }

  /** The five fields below bit 67. */
  function LowSum(f: Fields): nat
  {
    f.elapsed + f.rtdCode * W19 + f.rtdMv * W31 + f.vinCode * W43 + f.vinMv * W55
  }

  predicate LowFit(f: Fields)
  {
    f.elapsed < W19 && f.rtdCode < 4_096 && f.rtdMv < 4_096 && f.vinCode < 4_096 && f.vinMv < 4_096
  }

  /** Fields above bit 67 never disturb those below, even if they are too wide for their own place. */
  lemma LowOfPack(f: Fields)
    requires LowFit(f)
    ensures Pack(f) % W67 == LowSum(f)
  {
    var g := f.(tracking := 0, flat := 0, current := 0);
    var low := Or(Or(Or(Or(f.elapsed, Shl(f.rtdCode, 19)), Shl(f.rtdMv, 31)), Shl(f.vinCode, 43)), Shl(f.vinMv, 55));
    LowIsSum(f);
    hide Or, Shl;
    Pow2Values();
    var a := Or(low, Shl(f.tracking, 67));
    var b := Or(a, Shl(f.flat, 75));
    OrKeepsLow(low, f.tracking, 67);
    OrKeepsLow(a, f.flat, 75);
    OrKeepsLow(b, f.current, 83);
    Coarser(Pack(f), b, W67, 0x1_0000);
    Coarser(b, a, W67, 0x100);
    ModSmall(low, W67);
  }

  lemma LowIsSum(f: Fields)
    requires LowFit(f)
    ensures Or(Or(Or(Or(f.elapsed, Shl(f.rtdCode, 19)), Shl(f.rtdMv, 31)), Shl(f.vinCode, 43)), Shl(f.vinMv, 55))
         == LowSum(f) < W67
  {
    hide Or, Shl;
    Pow2Values();
    ShlWeight(f.rtdCode, 19, W19);
    ShlWeight(f.rtdMv, 31, W31);
    ShlWeight(f.vinCode, 43, W43);
    ShlWeight(f.vinMv, 55, W55);
    OrDisjoint(f.elapsed, f.rtdCode, 19);
    var a1 := f.elapsed + f.rtdCode * W19;
    OrDisjoint(a1, f.rtdMv, 31);
    var a2 := a1 + f.rtdMv * W31;
    OrDisjoint(a2, f.vinCode, 43);
    OrDisjoint(a2 + f.vinCode * W43, f.vinMv, 55);
  }

  /** Numbers that agree below a multiple of `m` agree below `m`. */
  lemma Coarser(x: nat, y: nat, m: nat, k: nat)
    requires m > 0 && k > 0 && x % (m * k) == y % (m * k)
    ensures x % m == y % m
  {
    ModOfMod(x, m, k);
    ModOfMod(y, m, k);
  }

  lemma ModOfMod(x: nat, m: nat, k: nat)
    requires m > 0 && k > 0
    ensures x % (m * k) % m == x % m
  {
    var mk := m * k;
    var q, r := x / mk, x % mk;
    DivMod(x, mk);
    DivMod(r, m);
    Regroup(q, m, k, r / m, r % m);
    SplitAt(x, r % m, m, q * k + r / m);
  }

  lemma DivMod(a: nat, b: nat)
    requires b > 0
    ensures a == a / b * b + a % b && a % b < b
  {
  }

  lemma Regroup(q: nat, m: nat, k: nat, u: nat, v: nat)
    ensures q * (m * k) + (u * m + v) == v + (q * k + u) * m
  {
    assert q * (m * k) == q * k * m;
  }

  /** The low fields of a number, whatever stands above bit 67. */
  lemma LowUnpack(x: nat, f: Fields)
    requires LowFit(f) && x % W67 == LowSum(f)
    ensures var u := Unpack(x);
            && u.elapsed == f.elapsed && u.rtdCode == f.rtdCode && u.rtdMv == f.rtdMv
            && u.vinCode == f.vinCode && u.vinMv == f.vinMv
  {
    var h5 := x / W67;
    var h4 := f.vinMv + 4_096 * h5;
    var h3 := f.vinCode + 4_096 * h4;
    var h2 := f.rtdMv + 4_096 * h3;
    var h1 := f.rtdCode + 4_096 * h2;
    var l2 := f.elapsed + f.rtdCode * W19;
    var l3 := l2 + f.rtdMv * W31;
    SplitAt(x, f.elapsed, W19, h1);
    SplitAt(x, l2, W31, h2);
    SplitAt(x, l3, W43, h3);
    SplitAt(x, l3 + f.vinCode * W43, W55, h4);
    SplitAt(h1, f.rtdCode, 4_096, h2);
    SplitAt(h2, f.rtdMv, 4_096, h3);
    SplitAt(h3, f.vinCode, 4_096, h4);
    SplitAt(h4, f.vinMv, 4_096, h5);
  }

  /** Every 88-bit number is the packing of its fields. */
  lemma PackUnpack(x: nat)
    requires x < W88
    ensures Pack(Unpack(x)) == x
  {
    PackIsSum(Unpack(x));
    SumUnpack(x);
  }

  lemma SumUnpack(x: nat)
    requires x < W88
    ensures Sum(Unpack(x)) == x
  {
    var h1 := x / W19;
    var h2 := h1 / 4_096;
    var h3 := h2 / 4_096;
    var h4 := h3 / 4_096;
    var h5 := h4 / 4_096;
    var h6 := h5 / 256;
    var h7 := h6 / 256;
    assert x / W31 == h2;
    assert x / W43 == h3;
    assert x / W55 == h4;
    assert x / W67 == h5;
    assert x / W75 == h6;
    assert x / W83 == h7;
    assert h7 < 32;
  }

  // ---------------------------------------------------------------------------------------------
  // Little-endian bytes.

  function Pow256(n: nat): (r: nat)
    ensures r > 0
  {
    if n == 0 then 1 else 256 * Pow256(n - 1)
  }

  function LeBytes(x: nat, n: nat): (s: seq<u8>)
    ensures |s| == n
  {
    if n == 0 then [] else [x % 256] + LeBytes(x / 256, n - 1)
  }

  function FromLe(s: seq<u8>): nat
  {
    if s == [] then 0 else s[0] + 256 * FromLe(s[1..])
  }

  lemma {:induction false} FromLeBytes(x: nat, n: nat)
    requires x < Pow256(n)
    ensures FromLe(LeBytes(x, n)) == x
  {
    if n > 0 {
      FromLeBytes(x / 256, n - 1);
      assert LeBytes(x, n)[1..] == LeBytes(x / 256, n - 1);
    }
  }

  /** Reading back `n` bytes keeps the number below 256 to the `n`. */
  lemma {:induction false} FromLeLow(x: nat, n: nat)
    ensures FromLe(LeBytes(x, n)) == x % Pow256(n)
  {
    if n > 0 {
      FromLeLow(x / 256, n - 1);
      assert LeBytes(x, n)[1..] == LeBytes(x / 256, n - 1);
      LowBytes(x, Pow256(n - 1));
    }
  }

  lemma LowBytes(x: nat, m: nat)
    requires m > 0
    ensures x % (256 * m) == 256 * (x / 256 % m) + x % 256
  {
    var q, r := x / 256 / m, x / 256 % m;
    DivMod(x / 256, m);
    assert x == q * (256 * m) + (256 * r + x % 256);
    SplitAt(x, 256 * r + x % 256, 256 * m, q);
  }

  lemma {:induction false} LeBytesFrom(s: seq<u8>)
    ensures LeBytes(FromLe(s), |s|) == s && FromLe(s) < Pow256(|s|)
  {
    if s != [] {
      LeBytesFrom(s[1..]);
      assert s == [s[0]] + s[1..];
    }
  }

  lemma Pow256Values()
    ensures Pow256(2) == 0x1_0000 && Pow256(11) == W88
  {
  }
}
