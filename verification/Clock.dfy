/** Instants are nanoseconds since the Unix epoch.  Time.Truncate, however,
    rounds down to a multiple of a duration counted from the year 1. */
module Clock {

  const NANO := 1_000_000_000
  const MINUTE := 60 * NANO
  const HOUR := 3600 * NANO
  const DAY := 86400 * NANO

  /** Seconds from 1 January of year 1 to the Unix epoch. */
  const YEAR_ONE := 62135596800

  function Truncate(t: int, d: int): int {
    if d <= 0 then t else t - (t + YEAR_ONE * NANO) % d
  }

  /** Time.Unix: whole seconds, rounded down. */
  function Unix(t: int): int { t / NANO }

  lemma MultipleSigns(k: int, d: int)
    requires 0 < d
    ensures 1 <= k ==> d <= k * d
    ensures k <= -1 ==> k * d <= -d
  {
  }

  lemma MultiplesInOrder(a: int, b: int, d: int)
    requires 0 < d
    ensures a * d <= b * d <==> a <= b
  {
    assert (b - a) * d == b * d - a * d;
    MultipleSigns(b - a, d);
  }

  lemma DivisionBounds(a: int, d: int)
    requires 0 < d
    ensures a == (a / d) * d + a % d && (a / d) * d <= a < (a / d) * d + d
  {
  }

  lemma NegatedMultiple(k: int, d: int)
    ensures (-k) * d == -(k * d)
  {
  }

  lemma DivisionUnique(a: int, q: int, d: int)
    requires 0 < d && q * d <= a < q * d + d
    ensures a / d == q && a % d == a - q * d
  {
    assert a == (a / d) * d + a % d;
    var k := q - a / d;
    assert k * d == q * d - (a / d) * d;
    MultipleSigns(k, d);
  }

  lemma DivisionMonotone(a: int, b: int, d: int)
    requires 0 < d && a <= b
    ensures a / d <= b / d
  {
    assert a == (a / d) * d + a % d && b == (b / d) * d + b % d;
    var k := a / d - b / d;
    assert k * d == (a / d) * d - (b / d) * d;
    MultipleSigns(k, d);
  }

  /** The start of the aligned window of width d that t lies in. */
  lemma TruncateMeaning(t: int, d: int)
    requires 0 < d
    ensures var q := (t + YEAR_ONE * NANO) / d;
            && Truncate(t, d) == q * d - YEAR_ONE * NANO
            && q * d - YEAR_ONE * NANO <= t < (q + 1) * d - YEAR_ONE * NANO
  {
    var a := t + YEAR_ONE * NANO;
    assert a == (a / d) * d + a % d;
    assert (a / d + 1) * d == (a / d) * d + d;
  }

  /** For instance weeks start on Mondays, as the year 1 did; 1970 began on a Thursday. */
  lemma WeeksStartOnMonday(t: int)
    ensures var week, monday := 604_800_000_000_000, Truncate(t, 604_800_000_000_000);
            && monday <= t < monday + week && (monday + 259_200_000_000_000) % week == 0
  {
  }

  lemma TruncateBounds(t: int, d: int)
    requires 0 < d
    ensures t - d < Truncate(t, d) <= t
  {
  }

  /** Truncation is the only aligned instant within d before t. */
  lemma TruncateUnique(t: int, w: int, d: int)
    requires 0 < d && Truncate(w, d) == w && w <= t < w + d
    ensures Truncate(t, d) == w
  {
    TruncateMeaning(w, d);
    TruncateMeaning(t, d);
    DivisionUnique(t + YEAR_ONE * NANO, (w + YEAR_ONE * NANO) / d, d);
  }

  lemma TruncateAligned(t: int, d: int)
    requires 0 < d
    ensures Truncate(Truncate(t, d), d) == Truncate(t, d)
    ensures Truncate(Truncate(t, d) + d, d) == Truncate(t, d) + d
  {
    TruncateMeaning(t, d);
    var q := (t + YEAR_ONE * NANO) / d;
    assert (q + 1) * d == q * d + d;
    DivisionUnique(q * d, q, d);
    DivisionUnique((q + 1) * d, q + 1, d);
  }

  /** A later instant lies in the same window or at least one window further on. */
  lemma TruncateMonotone(t: int, u: int, d: int)
    requires 0 < d && t <= u
    ensures Truncate(t, d) == Truncate(u, d) || Truncate(t, d) + d <= Truncate(u, d)
  {
    TruncateMeaning(t, d);
    TruncateMeaning(u, d);
    var p, q := (t + YEAR_ONE * NANO) / d, (u + YEAR_ONE * NANO) / d;
    DivisionMonotone(t + YEAR_ONE * NANO, u + YEAR_ONE * NANO, d);
    assert (q - p) * d == q * d - p * d;
    MultipleSigns(q - p, d);
  }
}
