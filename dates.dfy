/**
 * Time as integer milliseconds since the epoch, and the day counts the pages
 * and the notification passes derive from it with `Math.ceil` / `Math.floor`.
 */
module Dates {
  import opened Common
  import opened Text

  /** Milliseconds in a day (`1000 * 60 * 60 * 24` and `86400000` in the source). */
  const DayMs: int := 86400000

  /** `Math.ceil(x / d)` for a positive divisor (Dafny's `/` is Euclidean). */
  function CeilDiv(x: int, d: int): (q: int)
    requires d > 0
    ensures (q - 1) * d < x <= q * d
  {
    -((-x) / d)
  }

  /** `Math.floor(x / d)` for a positive divisor. */
  function FloorDiv(x: int, d: int): (q: int)
    requires d > 0
    ensures q * d <= x < (q + 1) * d
  {
    x / d
  }

  /** `Math.ceil((t - now) / 86400000)`: whole days until `t`, rounding up. */
  function DaysBetween(now: int, t: int): (d: int)
    ensures (d - 1) * DayMs < t - now <= d * DayMs
  {
    CeilDiv(t - now, DayMs)
  }

  /** `daysUntil` of the compliance pages and the export button:
      null for a missing date, otherwise the ceil day count. */
  function DaysUntil(date: Option<int>, now: int): (r: Option<int>)
    ensures r.None? <==> date.None?
    ensures date.Some? ==> (r.value - 1) * DayMs < date.value - now <= r.value * DayMs
  {
    match date
    case None => None
    case Some(t) => Some(DaysBetween(now, t))
  }

  /** The ceil day count is uniquely determined by its defining bounds. */
  lemma CeilUnique(x: int, d: int, q: int)
    requires d > 0
    requires (q - 1) * d < x <= q * d
    ensures q == CeilDiv(x, d)
  {
  }

  /** Floor and ceil agree exactly on multiples of the divisor, and otherwise
      the ceil is one more. */
  lemma FloorVersusCeil(x: int, d: int)
    requires d > 0
    ensures x % d == 0 ==> FloorDiv(x, d) == CeilDiv(x, d)
    ensures x % d != 0 ==> CeilDiv(x, d) == FloorDiv(x, d) + 1
  {
    var f := FloorDiv(x, d);
    if x % d == 0 {
      assert x == f * d;
      CeilUnique(x, d, f);
    } else {
      assert f * d < x < (f + 1) * d;
      CeilUnique(x, d, f + 1);
    }
  }

  /** A later instant is never fewer days away. */
  lemma DaysMonotone(now: int, s: int, t: int)
    requires s <= t
    ensures DaysBetween(now, s) <= DaysBetween(now, t)
  {
  }

  /** `t` is no later than `now + n` days exactly when it is at most `n` ceil days away. */
  lemma WithinDays(now: int, t: int, n: int)
    ensures t <= now + n * DayMs <==> DaysBetween(now, t) <= n
  {
    var d := DaysBetween(now, t);
    if d <= n {
      assert d * DayMs <= n * DayMs;
    } else {
      assert n * DayMs <= (d - 1) * DayMs;
    }
  }

  /** `t` is in the future or now exactly when its ceil day count is non-negative
      and, for a strictly past instant, negative or zero. */
  lemma SignOfDays(now: int, t: int)
    ensures t >= now ==> DaysBetween(now, t) >= 0
    ensures t < now ==> DaysBetween(now, t) <= 0
    ensures DaysBetween(now, t) < 0 ==> t < now
  {
  }

  /** The days column of the compliance table and of the CSV export: "N/A" without a
      date, "|d| days overdue" for a past day count, "d days" otherwise. */
  function DaysCell(days: Option<int>): (s: string)
    ensures days.None? ==> s == "N/A"
    ensures days.Some? && days.value < 0 ==> s == NatToString(-days.value) + " days overdue"
    ensures days.Some? && days.value >= 0 ==> s == NatToString(days.value) + " days"
  {
    match days
    case None => "N/A"
    case Some(d) => if d < 0 then NatToString(-d) + " days overdue" else NatToString(d) + " days"
  }

  /** Different day counts never share a cell: past and coming counts end differently,
      and the digits give the count back. */
  lemma DaysCellDistinct(d: int, e: int)
    requires DaysCell(Some(d)) == DaysCell(Some(e))
    ensures d == e
  {
    var s := DaysCell(Some(d));
    assert s[|s| - 1] == (if d < 0 then 'e' else 's');
    assert DaysCell(Some(e))[|s| - 1] == (if e < 0 then 'e' else 's');
    if d < 0 && e < 0 {
      assert s[..|s| - 13] == NatToString(-d) && s[..|s| - 13] == NatToString(-e);
      NatToStringInjective(-d, -e);
    } else if d >= 0 && e >= 0 {
      assert s[..|s| - 5] == NatToString(d) && s[..|s| - 5] == NatToString(e);
      NatToStringInjective(d, e);
    }
  }
}
