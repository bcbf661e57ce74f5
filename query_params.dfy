/**
 * The query-string parameters the pages and the header cells read and rewrite.
 * A parameter list is an ordered list of name/value pairs with the `get`, `set`
 * and `delete` operations of the URLSearchParams interface (WHATWG URL Standard,
 * section 6.2): `get` answers the first pair with the name, `set` overwrites the
 * first such pair and drops the others (or appends), `delete` drops them all.
 * Percent-encoding is an abstract `escape` function on names and values.
 */
module QueryParams {
  import opened Common
  import opened Text

  type Entry = (string, string)

  /** `params.get(k)`: the value of the first pair named `k`, or null. */
  function Get(ps: seq<Entry>, k: string): (r: Option<string>)
    ensures r.None? <==> forall j :: 0 <= j < |ps| ==> ps[j].0 != k
    ensures r.Some? ==> (k, r.value) in ps
  {
    if ps == [] then None else if ps[0].0 == k then Some(ps[0].1) else Get(ps[1..], k)
  }

  /** `params.delete(k)`: every pair named `k` is removed, the rest keep their order. */
  function Delete(ps: seq<Entry>, k: string): (qs: seq<Entry>)
    ensures |qs| <= |ps|
    ensures forall e :: e in qs <==> e in ps && e.0 != k
  {
    if ps == [] then []
    else if ps[0].0 == k then Delete(ps[1..], k)
    else [ps[0]] + Delete(ps[1..], k)
  }

  /** `Delete` on a list with a known first pair. */
  lemma DeleteCons(e: Entry, rest: seq<Entry>, k: string)
    ensures Delete([e] + rest, k) == if e.0 == k then Delete(rest, k) else [e] + Delete(rest, k)
  {
    assert ([e] + rest)[1..] == rest;
  }

  /** `params.set(k, v)`: the first pair named `k` takes the value `v` and later ones
      are removed; without such a pair, `(k, v)` is appended. */
  function Set(ps: seq<Entry>, k: string, v: string): (qs: seq<Entry>)
    ensures (k, v) in qs
  {
    if ps == [] then [(k, v)]
    else if ps[0].0 == k then [(k, v)] + Delete(ps[1..], k)
    else [ps[0]] + Set(ps[1..], k, v)
  }

  /** `params.toString()`: `name=value` pairs joined with `&`. */
  function Encode(ps: seq<Entry>, escape: string -> string): (s: string) {
    Join(seq(|ps|, i requires 0 <= i < |ps| => escape(ps[i].0) + "=" + escape(ps[i].1)), "&")
  }

  /** `${pathname}?${params.toString()}`. */
  function Href(pathname: string, ps: seq<Entry>, escape: string -> string): (url: string)
    ensures |url| > |pathname| && url[..|pathname|] == pathname && url[|pathname|] == '?'
  {
    pathname + "?" + Encode(ps, escape)
  }

  /** No two pairs share a name: the pairs of an object literal. */
  predicate UniqueKeys(ps: seq<Entry>) {
    forall i, j :: 0 <= i < j < |ps| ==> ps[i].0 != ps[j].0
  }

  // ---------------------------------------------------------------- get after set and delete

  /** `Get` on a list with a known first pair. */
  lemma GetCons(e: Entry, rest: seq<Entry>, j: string)
    ensures Get([e] + rest, j) == if e.0 == j then Some(e.1) else Get(rest, j)
  {
    assert ([e] + rest)[1..] == rest;
  }

  /** After `delete(k)`, `k` reads as null and every other name reads as before. */
  lemma {:induction false} GetDelete(ps: seq<Entry>, k: string, j: string)
    ensures Get(Delete(ps, k), j) == if j == k then None else Get(ps, j)
  {
    if ps != [] {
      GetDelete(ps[1..], k, j);
      if ps[0].0 != k {
        GetCons(ps[0], Delete(ps[1..], k), j);
      }
    }
  }

  /** After `set(k, v)`, `k` reads as `v` and every other name reads as before. */
  lemma {:induction false} GetSet(ps: seq<Entry>, k: string, v: string, j: string)
    ensures Get(Set(ps, k, v), j) == if j == k then Some(v) else Get(ps, j)
  {
    if ps == [] {
      GetCons((k, v), [], j);
    } else if ps[0].0 == k {
      GetCons((k, v), Delete(ps[1..], k), j);
      GetDelete(ps[1..], k, j);
    } else {
      GetCons(ps[0], Set(ps[1..], k, v), j);
      GetSet(ps[1..], k, v, j);
    }
  }

  /** Deleting a name twice is deleting it once. */
  lemma {:induction false} DeleteIdempotent(ps: seq<Entry>, k: string)
    ensures Delete(Delete(ps, k), k) == Delete(ps, k)
  {
    if ps != [] {
      DeleteIdempotent(ps[1..], k);
      if ps[0].0 != k {
        DeleteCons(ps[0], Delete(ps[1..], k), k);
      }
    }
  }

  /** Only the pairs named `k` are affected by `set(k, v)`: removing `k` afterwards
      leaves exactly the other pairs, in their original order. */
  lemma {:induction false} DeleteSet(ps: seq<Entry>, k: string, v: string)
    ensures Delete(Set(ps, k, v), k) == Delete(ps, k)
  {
    if ps == [] {
      DeleteCons((k, v), [], k);
    } else if ps[0].0 == k {
      DeleteCons((k, v), Delete(ps[1..], k), k);
      DeleteIdempotent(ps[1..], k);
    } else {
      DeleteCons(ps[0], Set(ps[1..], k, v), k);
      DeleteSet(ps[1..], k, v);
    }
  }

  /** The order of two deletions does not matter. */
  lemma {:induction false} DeleteCommutes(ps: seq<Entry>, a: string, b: string)
    ensures Delete(Delete(ps, a), b) == Delete(Delete(ps, b), a)
  {
    if ps != [] {
      DeleteCommutes(ps[1..], a, b);
      var e := ps[0];
      if e.0 != a {
        DeleteCons(e, Delete(ps[1..], a), b);
      }
      if e.0 != b {
        DeleteCons(e, Delete(ps[1..], b), a);
      }
    }
  }

  /** Deleting `a` after setting another name `b` is setting `b` after deleting `a`. */
  lemma {:induction false} DeleteAfterSet(ps: seq<Entry>, b: string, v: string, a: string)
    requires a != b
    ensures Delete(Set(ps, b, v), a) == Set(Delete(ps, a), b, v)
  {
    if ps == [] {
      DeleteCons((b, v), [], a);
    } else if ps[0].0 == b {
      DeleteCons((b, v), Delete(ps[1..], b), a);
      DeleteCommutes(ps[1..], a, b);
      var da := Delete(ps[1..], a);
      assert Delete(ps, a) == [ps[0]] + da;
      assert ([ps[0]] + da)[1..] == da;
    } else {
      DeleteCons(ps[0], Set(ps[1..], b, v), a);
      DeleteAfterSet(ps[1..], b, v, a);
      var da := Delete(ps[1..], a);
      if ps[0].0 != a {
        assert ([ps[0]] + da)[1..] == da;
      }
    }
  }

  // ---------------------------------------------------------------- lists with unique names

  /** Reading a concatenation finds the first part's pair when it has one. */
  lemma {:induction false} GetAppend(a: seq<Entry>, b: seq<Entry>, k: string)
    ensures Get(a + b, k) == if Get(a, k).Some? then Get(a, k) else Get(b, k)
  {
    if a != [] {
      assert a + b == [a[0]] + (a[1..] + b);
      GetCons(a[0], a[1..] + b, k);
      GetCons(a[0], a[1..], k);
      assert a == [a[0]] + a[1..];
      GetAppend(a[1..], b, k);
    } else {
      assert a + b == b;
    }
  }

  /** Deleting from a concatenation deletes from both parts. */
  lemma {:induction false} DeleteAppend(a: seq<Entry>, b: seq<Entry>, k: string)
    ensures Delete(a + b, k) == Delete(a, k) + Delete(b, k)
  {
    if a != [] {
      assert a + b == [a[0]] + (a[1..] + b);
      DeleteCons(a[0], a[1..] + b, k);
      DeleteCons(a[0], a[1..], k);
      assert a == [a[0]] + a[1..];
      DeleteAppend(a[1..], b, k);
    } else {
      assert a + b == b;
    }
  }

  /** Deleting a name that is not there changes nothing. */
  lemma {:induction false} DeleteAbsent(ps: seq<Entry>, k: string)
    requires Get(ps, k).None?
    ensures Delete(ps, k) == ps
  {
    if ps != [] {
      DeleteAbsent(ps[1..], k);
    }
  }

  /** A list with a first pair has unique names iff the rest has and does not name it. */
  lemma UniqueCons(e: Entry, rest: seq<Entry>)
    ensures UniqueKeys([e] + rest) <==> UniqueKeys(rest) && Get(rest, e.0).None?
  {
    var ps := [e] + rest;
    assert forall j :: 0 <= j < |rest| ==> ps[j + 1] == rest[j];
    if UniqueKeys(rest) && Get(rest, e.0).None? {
      forall i, j | 0 <= i < j < |ps|
        ensures ps[i].0 != ps[j].0
      {
        if i > 0 {
          assert ps[i] == rest[i - 1] && ps[j] == rest[j - 1];
        } else {
          assert ps[j] == rest[j - 1];
        }
      }
    }
    if UniqueKeys(ps) {
      forall j | 0 <= j < |rest|
        ensures rest[j].0 != e.0
      {
        assert ps[0] == e && ps[j + 1] == rest[j];
      }
      forall i, j | 0 <= i < j < |rest|
        ensures rest[i].0 != rest[j].0
      {
        assert ps[i + 1] == rest[i] && ps[j + 1] == rest[j];
      }
    }
  }

  /** Over unique names, each pair is what its name reads as. */
  lemma {:induction false} GetUniqueAt(ps: seq<Entry>, i: int)
    requires UniqueKeys(ps) && 0 <= i < |ps|
    ensures Get(ps, ps[i].0) == Some(ps[i].1)
  {
    if i > 0 {
      assert ps == [ps[0]] + ps[1..];
      UniqueCons(ps[0], ps[1..]);
      GetUniqueAt(ps[1..], i - 1);
    }
  }

  /** `delete` keeps names unique. */
  lemma {:induction false} DeleteUnique(ps: seq<Entry>, k: string)
    requires UniqueKeys(ps)
    ensures UniqueKeys(Delete(ps, k))
  {
    if ps != [] {
      assert ps == [ps[0]] + ps[1..];
      UniqueCons(ps[0], ps[1..]);
      DeleteUnique(ps[1..], k);
      if ps[0].0 != k {
        GetDelete(ps[1..], k, ps[0].0);
        UniqueCons(ps[0], Delete(ps[1..], k));
      }
    }
  }

  /** `set` keeps names unique. */
  lemma {:induction false} SetUnique(ps: seq<Entry>, k: string, v: string)
    requires UniqueKeys(ps)
    ensures UniqueKeys(Set(ps, k, v))
  {
    if ps == [] {
      UniqueCons((k, v), []);
    } else {
      assert ps == [ps[0]] + ps[1..];
      UniqueCons(ps[0], ps[1..]);
      if ps[0].0 == k {
        DeleteUnique(ps[1..], k);
        GetDelete(ps[1..], k, k);
        UniqueCons((k, v), Delete(ps[1..], k));
      } else {
        SetUnique(ps[1..], k, v);
        GetSet(ps[1..], k, v, ps[0].0);
        UniqueCons(ps[0], Set(ps[1..], k, v));
      }
    }
  }

  /** The query is empty exactly when there are no pairs (a pair encodes with `=`). */
  lemma EncodeEmpty(ps: seq<Entry>, escape: string -> string)
    ensures Encode(ps, escape) == "" <==> ps == []
  {
    if ps != [] {
      var parts := seq(|ps|, i requires 0 <= i < |ps| => escape(ps[i].0) + "=" + escape(ps[i].1));
      assert parts[0] != [];
      if |parts| > 1 {
        assert Encode(ps, escape) == parts[0] + "&" + Join(parts[1..], "&");
      }
    }
  }

  // ---------------------------------------------------------------- the object

  /** A `URLSearchParams` object built from the current parameters, which the
      handlers then rewrite in place with `set` and `delete`. */
  class SearchParams {
    var entries: seq<Entry>

    /** `new URLSearchParams(searchParams.toString())`: a copy of the current list. */
    constructor (init: seq<Entry>)
      ensures entries == init
    {
      entries := init;
    }

    function GetValue(k: string): (r: Option<string>)
      reads this
      ensures r == Get(entries, k)
    {
      Get(entries, k)
    }

    method SetValue(k: string, v: string)
      modifies this
      ensures entries == Set(old(entries), k, v)
      ensures GetValue(k) == Some(v)
    {
      entries := Set(entries, k, v);
      GetSet(old(entries), k, v, k);
    }

    method DeleteKey(k: string)
      modifies this
      ensures entries == Delete(old(entries), k)
      ensures GetValue(k) == None
    {
      entries := Delete(entries, k);
      GetDelete(old(entries), k, k);
    }

    function ToString(escape: string -> string): (s: string)
      reads this
      ensures s == "" <==> entries == []
    {
      EncodeEmpty(entries, escape);
      Encode(entries, escape)
    }
  }
}
