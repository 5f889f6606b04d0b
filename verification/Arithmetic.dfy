/** Machine-word types, saturating arithmetic and a few integer facts shared by the models. */
module Arithmetic {

  datatype Option<+T> = None | Some(value: T)

  type u8 = x: int | 0 <= x < 0x100
  type u16 = x: int | 0 <= x < 0x1_0000
  type u32 = x: int | 0 <= x < 0x1_0000_0000
  type u64 = x: int | 0 <= x < 0x1_0000_0000_0000_0000
  type i16 = x: int | -0x8000 <= x < 0x8000

  function Min(a: int, b: int): int { if a <= b then a else b }

  function Max(a: int, b: int): int { if a >= b then a else b }

  /** Unsigned `saturating_sub`. */
  function SatSub(a: int, b: int): int { if a >= b then a - b else 0 }

  /** `saturating_add` on 8- and 16-bit words. */
  function SatAdd8(a: u8, b: u8): u8 { Min(a + b, 0xff) }

  function SatAdd16(a: u16, b: u16): u16 { Min(a + b, 0xffff) }

  function SatAdd64(a: u64, b: u64): u64 { Min(a + b, 0xffff_ffff_ffff_ffff) }

  /** `saturating_mul` on 32-bit words. */
  function SatMul32(a: u32, b: u32): u32
  {
    assert a * b >= 0;
    Min(a * b, 0xffff_ffff)
  }

  /** Signed `saturating_sub` on 16-bit words. */
  function SatSubI16(a: i16, b: i16): i16 { Max(-0x8000, Min(0x7fff, a - b)) }

  /** Rounded-up quotient of natural numbers. */
  function DivCeil(a: nat, b: nat): nat
    requires b > 0
  {
    (a + b - 1) / b
  }

  /** Division by four that truncates toward zero, as machine division does. */
  function Quarter(x: int): int { if x >= 0 then x / 4 else -((-x) / 4) }

  lemma DivLower(a: nat, b: nat)
    requires b > 0
    ensures (a / b) * b <= a
  {
  }

  lemma ModSmall(a: nat, b: nat)
    requires a < b
    ensures a % b == a
  {
  }

  /** A quotient rounded down to a multiple of 50 and multiplied back does not exceed the dividend. */
  lemma RoundedQuotient(a: nat, b: nat)
    requires b > 0
    ensures b * (a / b / 50 * 50) <= a
  {
    DivLower(a, b);
    MulMonotone(b, a / b / 50 * 50, a / b);
  }

  lemma MulMonotone(a: nat, b: nat, c: nat)
    requires b <= c
    ensures a * b <= a * c
  {
  }

  lemma DivBelow(a: nat, b: nat, bound: nat)
    requires b > 0 && a < bound * b
    ensures a / b < bound
  {
    DivLower(a, b);
    if a / b >= bound {
      MulMonotone(b, bound, a / b);
    }
  }

  /** A sequence of pairwise distinct numbers below `n` has at most `n` elements. */
  lemma DistinctBelow(s: seq<int>, n: nat)
    requires forall i :: 0 <= i < |s| ==> 0 <= s[i] < n
    requires forall i, j :: 0 <= i < j < |s| ==> s[i] != s[j]
    ensures |s| <= n
  {
    if |s| == 0 {
      return;
    }
    assert 0 <= s[0] < n;
    // Drop the occurrence of n - 1, if there is one.
    if k :| 0 <= k < |s| && s[k] == n - 1 {
      var t := s[..k] + s[k + 1..];
      assert forall i :: 0 <= i < |t| ==> t[i] == if i < k then s[i] else s[i + 1];
      DistinctBelow(t, n - 1);
    } else {
      DistinctBelow(s, n - 1);
    }
  }
}
