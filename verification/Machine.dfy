/** Fixed-width integers of the service: ranges, saturation and truncation. */
module Machine {

  const U32_MAX: int := 0xFFFF_FFFF
  const U64_MAX: int := 0xFFFF_FFFF_FFFF_FFFF
  const I64_MAX: int := 0x7FFF_FFFF_FFFF_FFFF
  const I64_MIN: int := -0x8000_0000_0000_0000
  const I128_MAX: int := 0x7FFF_FFFF_FFFF_FFFF_FFFF_FFFF_FFFF_FFFF
  const U128_MAX: int := 0xFFFF_FFFF_FFFF_FFFF_FFFF_FFFF_FFFF_FFFF

  type u32 = x: int | 0 <= x <= U32_MAX
  type u64 = x: int | 0 <= x <= U64_MAX
  type i64 = x: int | I64_MIN <= x <= I64_MAX
  type u128 = x: int | 0 <= x <= U128_MAX

  datatype Option<+T> = None | Some(value: T)

  function Min(a: int, b: int): int { if a <= b then a else b }

  function Max(a: int, b: int): int { if a <= b then b else a }

  function Abs(a: int): nat { if a < 0 then -a else a }

  function ClampI64(x: int): (r: i64)
    ensures I64_MIN <= x <= I64_MAX <==> r == x
    ensures (x > I64_MAX ==> r == I64_MAX) && (x < I64_MIN ==> r == I64_MIN)
  {
    Max(I64_MIN, Min(x, I64_MAX))
  }

  /** `saturating_add` on u64. */
  function SatAddU64(a: u64, b: u64): (r: u64)
    ensures a + b <= U64_MAX <==> r == a + b
    ensures a + b > U64_MAX ==> r == U64_MAX
  {
    Min(a + b, U64_MAX)
  }

  /** The `as i64` cast of a u64: two's-complement reinterpretation. */
  function AsI64(x: u64): (r: i64)
    ensures x <= I64_MAX <==> r == x
    ensures r == x || r == x - 0x1_0000_0000_0000_0000
  {
    if x <= I64_MAX then x else x - U64_MAX - 1
  }

  /** Wrapping negation on i64. */
  function NegI64(x: i64): (r: i64)
    ensures var negated: int := r; negated + x == 0 || (x == r == I64_MIN)
  {
    if x == I64_MIN then x else -x
  }

  lemma MulMono(a: int, b: int, y: nat)
    requires a <= b
    ensures a * y <= b * y
  {
  }

  lemma Division(x: nat, y: nat)
    requires y > 0
    ensures x == (x / y) * y + x % y
    ensures 0 <= x % y < y
  {
  }

  /** Quotient and remainder are unique. */
  lemma SameQuotient(y: nat, q: int, r: int, p: int, s: int)
    requires 0 < y && q * y + r == p * y + s && 0 <= r < y && 0 <= s < y
    ensures q == p && r == s
  {
    if q < p { MulMono(q + 1, p, y); }
    if p < q { MulMono(p + 1, q, y); }
  }

  lemma QuotientBetween(x: int, y: nat, q: int, r: int, low: int, high: int)
    requires 0 < y && x == q * y + r && 0 <= r < y && low * y <= x <= high * y
    ensures low <= q <= high
  {
    if q < low { MulMono(q + 1, low, y); }
    if high < q { MulMono(high + 1, q, y); }
  }

  /** A floored quotient of a value between `low * y` and `high * y` is between `low` and `high`. */
  lemma FloorBetween(x: nat, y: nat, low: int, high: int)
    requires y > 0 && low * y <= x <= high * y
    ensures low <= x / y <= high
  {
    Division(x, y);
    QuotientBetween(x, y, x / y, x % y, low, high);
  }

  lemma QuotientBound(x: nat, y: nat)
    requires y > 0
    ensures 0 <= x / y <= x
  {
    MulMono(1, y, x);
    FloorBetween(x, y, 0, x);
  }

  lemma MulNonNegative(x: nat, y: nat)
    ensures 0 <= x * y
  {
  }
}
