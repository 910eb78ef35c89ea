/** The free share of the root filesystem, in unsigned 64-bit arithmetic with a 128-bit
    intermediate product. */
module HostDisk {
  const TWO64: nat := 0x1_0000_0000_0000_0000

  newtype uint64 = x: int | 0 <= x < 0x1_0000_0000_0000_0000

  datatype Pair = Pair(fst: uint64, snd: uint64)

  /** `bits.Mul64`: the 128-bit product as high and low words. */
  function Mul64(x: uint64, y: uint64): (r: Pair)
    ensures r.fst as nat * TWO64 + r.snd as nat == x as nat * y as nat
  {
    var product := x as nat * y as nat;
    ProductFits(x as nat, y as nat);
    Pair((product / TWO64) as uint64, (product % TWO64) as uint64)
  }

  lemma ProductFits(x: nat, y: nat)
    requires x < TWO64 && y < TWO64
    ensures 0 <= x * y / TWO64 < TWO64
  {
    ProductLess(x, y, TWO64);
    DivLess(x * y, TWO64, TWO64);
  }

  lemma ProductLess(x: nat, y: nat, n: nat)
    requires x < n && y < n
    ensures x * y < n * n
  {
    assert x * y <= x * n < n * n;
  }

  lemma DivLess(a: nat, n: nat, k: nat)
    requires n > 0 && a < n * k
    ensures a / n < k
  {
    var q := a / n;
    assert q >= k ==> n * q >= n * k;
  }

  /** `bits.Div64` panics unless `hi` is below the divisor; then the quotient fits. */
  function Div64(hi: uint64, lo: uint64, y: uint64): (r: Pair)
    requires hi < y
    ensures r.fst as nat * y as nat + r.snd as nat == hi as nat * TWO64 + lo as nat
    ensures r.snd < y
  {
    var dividend := hi as nat * TWO64 + lo as nat;
    QuotientFits(hi as nat, lo as nat, y as nat);
    Pair((dividend / y as nat) as uint64, (dividend % y as nat) as uint64)
  }

  lemma QuotientFits(hi: nat, lo: nat, y: nat)
    requires hi < y < TWO64 && lo < TWO64
    ensures 0 <= (hi * TWO64 + lo) / y < TWO64
  {
    assert hi * TWO64 + lo < (hi + 1) * TWO64 <= y * TWO64;
    DivLess(hi * TWO64 + lo, y, TWO64);
  }

  // ---------------------------------------------------------------- percent

  /** `r` is the least whole percentage that is not below part/total. */
  ghost predicate IsCeiling(r: int, part: nat, total: nat) {
    (r - 1) * total < 100 * part <= r * total
  }

  lemma LessByFactor(a: int, b: int, n: nat)
    requires a * n < b * n
    ensures a < b
  {
    var d := b - a;
    assert d * n > 0;
  }

  lemma TimesMore(s: nat, n: nat, m: nat)
    requires n <= m
    ensures s * n <= s * m
  {
  }

  lemma CeilingIsUnique(r: int, s: int, part: nat, total: nat)
    requires total > 0 && IsCeiling(r, part, total) && IsCeiling(s, part, total)
    ensures r == s
  {
    LessByFactor(r - 1, s, total);
    LessByFactor(s - 1, r, total);
  }

  lemma CeilingIsNatural(r: int, part: nat, total: nat)
    requires total > 0 && IsCeiling(r, part, total)
    ensures 0 <= r
  {
    LessByFactor(-1, r, total);
  }

  /** A larger part, or a smaller total, has no smaller ceiling. */
  lemma CeilingIsMonotone(r: int, part: nat, total: nat, s: int, more: nat, less: nat)
    requires 0 < less <= total && part <= more && IsCeiling(r, part, total) && IsCeiling(s, more, less)
    ensures r <= s
  {
    CeilingIsNatural(s, more, less);
    TimesMore(s, less, total);
    LessByFactor(r - 1, s, total);
  }

  /** The sum wraps in 64 bits, and `int` reads it as signed. */
  function ToInt(n: nat): int {
    var word := n % TWO64;
    if word < TWO64 / 2 then word else word - TWO64
  }

  /** The divisor is above the high word of the product, so the division cannot panic. */
  lemma HighIsSmall(remainder: nat, total: nat, high: nat, low: nat)
    requires remainder < total < TWO64 && high * TWO64 + low == remainder * 100
    ensures high < total
  {
    assert high >= total ==> high * TWO64 >= total * TWO64 > remainder * 100;
  }

  function Percent(part: uint64, total: uint64): int {
    if total == 0 then 0
    else
      var whole, remainder := part / total, part % total;
      var product := Mul64(remainder, 100);
      HighIsSmall(remainder as nat, total as nat, product.fst as nat, product.snd as nat);
      var quotient := Div64(product.fst, product.snd, total);
      ToInt(whole as nat * 100 + quotient.fst as nat + if quotient.snd > 0 then 1 else 0)
  }

  /** Long division by hand: the sum before wrapping is the ceiling. */
  lemma SumIsCeiling(part: nat, total: nat, whole: nat, remainder: nat, fraction: nat, leftover: nat)
    requires part == whole * total + remainder && remainder * 100 == fraction * total + leftover && leftover < total
    ensures IsCeiling(whole * 100 + fraction + if leftover > 0 then 1 else 0, part, total)
  {
    assert 100 * part == (whole * 100 + fraction) * total + leftover;
    var r := whole * 100 + fraction;
    assert (r + 1) * total == r * total + total && (r - 1) * total == r * total - total;
  }

  /** A number is read back from its word exactly when it fits a signed one. */
  lemma ToIntIff(n: nat)
    ensures ToInt(n) == n <==> n < TWO64 / 2
  {
  }

  /** Exactly when the percentage fits a signed word is it computed: no earlier step loses
      anything, for any part and total. */
  lemma {:induction false} PercentIsCeilingIff(part: uint64, total: uint64, r: nat)
    requires total > 0 && IsCeiling(r, part as nat, total as nat)
    ensures Percent(part, total) == r <==> r < TWO64 / 2
  {
    var sum := UnwrappedPercent(part, total);
    CeilingIsUnique(r, sum, part as nat, total as nat);
    ToIntIff(sum);
  }

  lemma UnwrappedPercent(part: uint64, total: uint64) returns (sum: nat)
    requires total > 0
    ensures IsCeiling(sum, part as nat, total as nat) && Percent(part, total) == ToInt(sum)
  {
    var whole, remainder := part / total, part % total;
    var product := Mul64(remainder, 100);
    HighIsSmall(remainder as nat, total as nat, product.fst as nat, product.snd as nat);
    var quotient := Div64(product.fst, product.snd, total);
    DivMod(part as nat, total as nat);
    SumIsCeiling(part as nat, total as nat, whole as nat, remainder as nat, quotient.fst as nat, quotient.snd as nat);
    sum := whole as nat * 100 + quotient.fst as nat + if quotient.snd > 0 then 1 else 0;
  }

  lemma DivMod(a: nat, b: nat)
    requires b > 0
    ensures a == (a / b) * b + a % b
  {
  }

  lemma CeilingExists(part: nat, total: nat) returns (r: nat)
    requires total > 0
    ensures IsCeiling(r, part, total) && (part <= total ==> r <= 100)
  {
    var q, m := 100 * part / total, 100 * part % total;
    DivMod(100 * part, total);
    r := if m > 0 then q + 1 else q;
    assert (q + 1) * total == q * total + total && (q - 1) * total == q * total - total;
    if part <= total {
      CeilingIsMonotone(r, part, total, 100, total, total);
    }
  }

  /** A share of the whole: the exact ceiling, between 0 and 100. */
  lemma {:induction false} PercentOfShare(part: uint64, total: uint64)
    requires part <= total && total > 0
    ensures IsCeiling(Percent(part, total), part as nat, total as nat) && 0 <= Percent(part, total) <= 100
  {
    var r := CeilingExists(part as nat, total as nat);
    PercentIsCeilingIff(part, total, r);
  }

  // ---------------------------------------------------------------- usable share

  function UsableFreePercent(total: uint64, available: uint64, loop: uint64): int {
    if loop == 0 || loop >= total then Percent(available, total)
    else
      var usable := total - loop;
      if available >= usable then 100 else Percent(available, usable)
  }

  /** Between 0 and 100, and never below the raw share. */
  lemma {:induction false} UsableIsAboveRaw(total: uint64, available: uint64, loop: uint64)
    requires available <= total
    ensures Percent(available, total) <= UsableFreePercent(total, available, loop) <= 100
    ensures 0 <= Percent(available, total)
  {
    if total > 0 {
      PercentOfShare(available, total);
      if 0 < loop < total && available < total - loop {
        PercentOfShare(available, total - loop);
        CeilingIsMonotone(Percent(available, total), available as nat, total as nat,
                          Percent(available, total - loop), available as nat, (total - loop) as nat);
      }
    }
  }

  /** The share grows with the loop file, up to the size where the fallback sets in. */
  lemma {:induction false} UsableGrowsWithLoop(total: uint64, available: uint64, loop: uint64, larger: uint64)
    requires available <= total && loop <= larger < total
    ensures UsableFreePercent(total, available, loop) <= UsableFreePercent(total, available, larger)
  {
    UsableIsAboveRaw(total, available, loop);
    UsableIsAboveRaw(total, available, larger);
    if 0 < loop && available < total - larger {
      PercentOfShare(available, total - loop);
      PercentOfShare(available, total - larger);
      CeilingIsMonotone(Percent(available, total - loop), available as nat, (total - loop) as nat,
                        Percent(available, total - larger), available as nat, (total - larger) as nat);
    }
  }

  /** The share grows with what is available. */
  lemma {:induction false} UsableGrowsWithAvailable(total: uint64, available: uint64, more: uint64, loop: uint64)
    requires available <= more <= total
    ensures UsableFreePercent(total, available, loop) <= UsableFreePercent(total, more, loop)
  {
    UsableIsAboveRaw(total, available, loop);
    UsableIsAboveRaw(total, more, loop);
    var base := if loop == 0 || loop >= total then total else total - loop;
    if base > 0 && more <= base {
      PercentOfShare(available, base);
      PercentOfShare(more, base);
      CeilingIsMonotone(Percent(available, base), available as nat, base as nat, Percent(more, base), more as nat, base as nat);
    }
  }

  /** Exactly: the ceiling of what is available, at most all of it, in what is left of the
      total without the loop file; of the raw total where there is no such file. */
  lemma {:induction false} UsableIsCeiling(total: uint64, available: uint64, loop: uint64)
    requires available <= total && total > 0
    ensures var usable := if 0 < loop < total then total - loop else total;
            IsCeiling(UsableFreePercent(total, available, loop), (if available < usable then available else usable) as nat, usable as nat)
  {
    if 0 < loop < total {
      if available < total - loop { PercentOfShare(available, total - loop); }
    } else {
      PercentOfShare(available, total);
    }
  }
}
