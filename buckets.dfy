/**
 * Counting certificates into date buckets, shared by the dashboard and the
 * compliance page: `list.filter(p).length` and the expiry predicates the two
 * pages filter with.
 */
module Buckets {
  import opened Common
  import opened Dates
  import opened Records

  /** `cs.filter(p).length`. */
  function CountWhere(cs: seq<Certificate>, p: Certificate -> bool): (n: nat)
    ensures n <= |cs|
  {
    if cs == [] then 0 else CountWhere(cs[..|cs| - 1], p) + (if p(cs[|cs| - 1]) then 1 else 0)
  }

  /** `c.expirationDate && c.expirationDate < now`: a present date in the past. */
  predicate Expired(c: Certificate, now: int) {
    c.expirationDate.Some? && c.expirationDate.value < now
  }

  /** `c.expirationDate && c.expirationDate >= now && c.expirationDate <= inN`. */
  predicate ExpiringWithin(c: Certificate, now: int, days: int) {
    c.expirationDate.Some? && now <= c.expirationDate.value <= now + days * DayMs
  }

  /** A predicate implied by another counts at least as many certificates. */
  lemma {:induction false} CountMonotone(cs: seq<Certificate>, p: Certificate -> bool, q: Certificate -> bool)
    requires forall i :: 0 <= i < |cs| && p(cs[i]) ==> q(cs[i])
    ensures CountWhere(cs, p) <= CountWhere(cs, q)
  {
    if cs != [] {
      CountMonotone(cs[..|cs| - 1], p, q);
    }
  }

  /** Two predicates that never hold together count no more than the list between them. */
  lemma {:induction false} CountDisjoint(cs: seq<Certificate>, p: Certificate -> bool, q: Certificate -> bool)
    requires forall i :: 0 <= i < |cs| ==> !(p(cs[i]) && q(cs[i]))
    ensures CountWhere(cs, p) + CountWhere(cs, q) <= |cs|
  {
    if cs != [] {
      CountDisjoint(cs[..|cs| - 1], p, q);
    }
  }

  /** The buckets widen with the horizon, and past and coming expiries never overlap. */
  lemma WithinNested(c: Certificate, now: int, m: int, n: int)
    requires m <= n
    ensures ExpiringWithin(c, now, m) ==> ExpiringWithin(c, now, n)
    ensures !(Expired(c, now) && ExpiringWithin(c, now, n))
  {
    assert m * DayMs <= n * DayMs;
  }

  /** Counting the horizon `m` never exceeds counting the horizon `n >= m`. */
  lemma CountNested(cs: seq<Certificate>, now: int, m: int, n: int)
    requires m <= n
    ensures CountWhere(cs, c => ExpiringWithin(c, now, m)) <= CountWhere(cs, c => ExpiringWithin(c, now, n))
  {
    forall i | 0 <= i < |cs| {
      WithinNested(cs[i], now, m, n);
    }
    CountMonotone(cs, c => ExpiringWithin(c, now, m), c => ExpiringWithin(c, now, n));
  }

  /** The expired count and any coming-expiry count add up to at most the list. */
  lemma CountExpiredApart(cs: seq<Certificate>, now: int, n: int)
    ensures CountWhere(cs, c => Expired(c, now)) + CountWhere(cs, c => ExpiringWithin(c, now, n)) <= |cs|
  {
    forall i | 0 <= i < |cs| {
      WithinNested(cs[i], now, n, n);
    }
    CountDisjoint(cs, c => Expired(c, now), c => ExpiringWithin(c, now, n));
  }
}
