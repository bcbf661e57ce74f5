/**
 * The JavaScript string operations the core relies on, stated on `seq<char>`:
 * whitespace trimming and splitting, splitting on a separator, joining,
 * `startsWith`, substring search, ASCII case mapping and integer printing.
 */
module Text {

  /** The characters JavaScript's `trim()` strips and `\s` matches
      (WhiteSpace and LineTerminator of ECMA-262, section 12.2 and 12.3). */
  predicate IsSpace(c: char) {
    c == ' ' || c == '\t' || c == '\n' || c == '\r' || c == '\U{B}' || c == '\U{C}'
    || c == '\U{A0}' || c == '\U{1680}' || ('\U{2000}' <= c <= '\U{200A}')
    || c == '\U{2028}' || c == '\U{2029}' || c == '\U{202F}' || c == '\U{205F}'
    || c == '\U{3000}' || c == '\U{FEFF}'
  }

  predicate NoSpace(s: string) {
    forall i :: 0 <= i < |s| ==> !IsSpace(s[i])
  }

  /** `s` does not begin or end with whitespace. */
  predicate Trimmed(s: string) {
    s == [] || (!IsSpace(s[0]) && !IsSpace(s[|s| - 1]))
  }

  function TrimStart(s: string): (r: string)
    ensures r == [] || !IsSpace(r[0])
    ensures |r| <= |s| && r == s[|s| - |r|..]
    ensures forall i :: 0 <= i < |s| - |r| ==> IsSpace(s[i])
  {
    if s != [] && IsSpace(s[0]) then TrimStart(s[1..]) else s
  }

  function TrimEnd(s: string): (r: string)
    ensures r == [] || !IsSpace(r[|r| - 1])
    ensures |r| <= |s| && r == s[..|r|]
    ensures forall i :: |r| <= i < |s| ==> IsSpace(s[i])
  {
    if s != [] && IsSpace(s[|s| - 1]) then TrimEnd(s[..|s| - 1]) else s
  }

  /** JavaScript `s.trim()`: `s` is the result with whitespace around it. */
  function Trim(s: string): (r: string)
    ensures Trimmed(r)
    ensures exists a, b :: 0 <= a <= b <= |s| && r == s[a..b]
                          && (forall i :: 0 <= i < a ==> IsSpace(s[i]))
                          && (forall i :: b <= i < |s| ==> IsSpace(s[i]))
  {
    var t := TrimStart(s);
    var r := TrimEnd(t);
    assert r == s[|s| - |t|..|s| - |t| + |r|];
    r
  }

  /** Trimming a trimmed string changes nothing, so trimming twice is trimming once. */
  lemma TrimOfTrimmed(t: string)
    requires Trimmed(t)
    ensures Trim(t) == t
  {
    assert TrimStart(t) == t;
    assert TrimEnd(t) == t;
  }

  /** Index of the first whitespace character, or |s| if there is none. */
  function FirstSpace(s: string): (i: nat)
    ensures i <= |s|
    ensures forall j :: 0 <= j < i ==> !IsSpace(s[j])
    ensures i < |s| ==> IsSpace(s[i])
  {
    if s == [] then 0 else if IsSpace(s[0]) then 0 else 1 + FirstSpace(s[1..])
  }

  /** JavaScript `s.split(/\s+/)`: the pieces between maximal whitespace runs. */
  function Fields(s: string): (r: seq<string>)
    ensures |r| >= 1
    decreases |s|
  {
    var i := FirstSpace(s);
    if i == |s| then [s]
    else
      var rest := TrimStart(s[i..]);
      [s[..i]] + Fields(rest)
  }

  /** The rest after the first whitespace run of a trimmed string is trimmed and non-empty. */
  lemma RestOfTrimmed(s: string)
    requires Trimmed(s) && s != [] && FirstSpace(s) < |s|
    ensures FirstSpace(s) > 0
    ensures TrimStart(s[FirstSpace(s)..]) != []
    ensures Trimmed(TrimStart(s[FirstSpace(s)..]))
    ensures |TrimStart(s[FirstSpace(s)..])| < |s|
  {
    var i := FirstSpace(s);
    var rest := TrimStart(s[i..]);
    assert rest[|rest| - 1] == s[|s| - 1];
  }

  /** Every piece is a non-empty word without whitespace. */
  predicate Words(fs: seq<string>) {
    forall k :: 0 <= k < |fs| ==> fs[k] != [] && NoSpace(fs[k])
  }

  lemma WordsCons(w: string, ws: seq<string>)
    requires w != [] && NoSpace(w) && Words(ws)
    ensures Words([w] + ws)
  {
    var fs := [w] + ws;
    forall k | 0 < k < |fs|
      ensures fs[k] == ws[k - 1]
    {
    }
  }

  /** The first word of a string holding whitespace, then the words of the rest. */
  lemma FieldsStep(s: string)
    requires FirstSpace(s) < |s|
    ensures Fields(s) == [s[..FirstSpace(s)]] + Fields(TrimStart(s[FirstSpace(s)..]))
  {
  }

  /** Splitting a trimmed non-empty string yields non-empty words without whitespace. */
  lemma {:induction false} FieldsOfTrimmed(s: string)
    requires Trimmed(s) && s != []
    ensures Words(Fields(s))
    decreases |s|
  {
    var i := FirstSpace(s);
    if i < |s| {
      RestOfTrimmed(s);
      var rest := TrimStart(s[i..]);
      FieldsOfTrimmed(rest);
      FieldsStep(s);
      assert NoSpace(s[..i]);
      WordsCons(s[..i], Fields(rest));
    } else {
      assert Fields(s) == [s];
    }
  }

  /** A trimmed non-empty string is a single word iff it holds no whitespace. */
  lemma SingleField(s: string)
    requires Trimmed(s) && s != []
    ensures |Fields(s)| == 1 <==> NoSpace(s)
  {
    var i := FirstSpace(s);
    if i < |s| {
      RestOfTrimmed(s);
      assert !NoSpace(s);
    }
  }

  /** Number of occurrences of `c` in `s`. */
  function Count(s: string, c: char): nat {
    if s == [] then 0 else (if s[0] == c then 1 else 0) + Count(s[1..], c)
  }

  /** Index of the first `c` in `s`, or |s|. */
  function IndexOf(s: string, c: char): (i: nat)
    ensures i <= |s|
    ensures forall j :: 0 <= j < i ==> s[j] != c
    ensures i < |s| ==> s[i] == c
  {
    if s == [] then 0 else if s[0] == c then 0 else 1 + IndexOf(s[1..], c)
  }

  /** JavaScript `s.split(c)` for a one-character separator. */
  function Split(s: string, c: char): (r: seq<string>)
    ensures |r| >= 1
    decreases |s|
  {
    var i := IndexOf(s, c);
    if i == |s| then [s] else [s[..i]] + Split(s[i + 1..], c)
  }

  /** JavaScript `parts.join(sep)`. */
  function Join(parts: seq<string>, sep: string): string {
    if parts == [] then []
    else if |parts| == 1 then parts[0]
    else parts[0] + sep + Join(parts[1..], sep)
  }

  lemma {:induction false} CountAppend(a: string, b: string, c: char)
    ensures Count(a + b, c) == Count(a, c) + Count(b, c)
  {
    if a != [] {
      assert (a + b)[0] == a[0];
      assert (a + b)[1..] == a[1..] + b;
      CountAppend(a[1..], b, c);
    } else {
      assert a + b == b;
    }
  }

  lemma {:induction false} CountNone(s: string, c: char)
    requires forall j :: 0 <= j < |s| ==> s[j] != c
    ensures Count(s, c) == 0
  {
    if s != [] { CountNone(s[1..], c); }
  }

  /** Joining the pieces of a split with the separator gives back the string. */
  lemma {:induction false} SplitJoin(s: string, c: char)
    ensures Join(Split(s, c), [c]) == s
    decreases |s|
  {
    var i := IndexOf(s, c);
    if i < |s| {
      var tail := Split(s[i + 1..], c);
      SplitJoin(s[i + 1..], c);
      assert Split(s, c) == [s[..i]] + tail;
      assert s == s[..i] + [c] + s[i + 1..];
    }
  }

  /** A split has one more piece than the string has separators. */
  lemma {:induction false} SplitCount(s: string, c: char)
    ensures |Split(s, c)| == Count(s, c) + 1
    decreases |s|
  {
    var i := IndexOf(s, c);
    if i == |s| {
      CountNone(s, c);
    } else {
      SplitCount(s[i + 1..], c);
      assert s == s[..i] + ([c] + s[i + 1..]);
      CountNone(s[..i], c);
      CountAppend(s[..i], [c] + s[i + 1..], c);
      CountAppend([c], s[i + 1..], c);
    }
  }

  /** No piece of a split contains the separator. */
  lemma {:induction false} SplitPieces(s: string, c: char)
    ensures forall k :: 0 <= k < |Split(s, c)| ==> c !in Split(s, c)[k]
    decreases |s|
  {
    var i := IndexOf(s, c);
    if i < |s| {
      SplitPieces(s[i + 1..], c);
      assert c !in s[..i];
    }
  }

  /** The first separator of `p + [c] + q` ends `p` when `p` has none. */
  lemma {:induction false} IndexOfAfterPiece(p: string, q: string, c: char)
    requires c !in p
    ensures IndexOf(p + [c] + q, c) == |p|
  {
    var s := p + [c] + q;
    assert forall j :: 0 <= j < |p| ==> s[j] == p[j] && p[j] in p;
    assert s[|p|] == c;
  }

  /** Splitting the join of separator-free pieces gives back the pieces. */
  lemma {:induction false} JoinSplit(parts: seq<string>, c: char)
    requires parts != []
    requires forall k :: 0 <= k < |parts| ==> c !in parts[k]
    ensures Split(Join(parts, [c]), c) == parts
  {
    if |parts| == 1 {
      assert forall j :: 0 <= j < |parts[0]| ==> parts[0][j] in parts[0];
    } else {
      var rest := Join(parts[1..], [c]);
      var s := parts[0] + [c] + rest;
      assert Join(parts, [c]) == s;
      IndexOfAfterPiece(parts[0], rest, c);
      assert s[..|parts[0]|] == parts[0];
      assert s[|parts[0]| + 1..] == rest;
      JoinSplit(parts[1..], c);
      assert parts == [parts[0]] + parts[1..];
    }
  }

  /** A character in neither the pieces nor the separator is not in their join. */
  lemma {:induction false} JoinAvoids(parts: seq<string>, sep: string, c: char)
    requires c !in sep
    requires forall k :: 0 <= k < |parts| ==> c !in parts[k]
    ensures c !in Join(parts, sep)
  {
    if |parts| > 1 {
      JoinAvoids(parts[1..], sep, c);
      assert Join(parts, sep) == parts[0] + sep + Join(parts[1..], sep);
    }
  }

  /** A character of any piece is in the join. */
  lemma {:induction false} JoinContains(parts: seq<string>, sep: string, k: int, c: char)
    requires 0 <= k < |parts| && c in parts[k]
    ensures c in Join(parts, sep)
  {
    if |parts| > 1 {
      var j := Join(parts, sep);
      assert j == parts[0] + sep + Join(parts[1..], sep);
      if k > 0 {
        JoinContains(parts[1..], sep, k - 1, c);
        var i :| 0 <= i < |Join(parts[1..], sep)| && Join(parts[1..], sep)[i] == c;
        assert j[|parts[0]| + |sep| + i] == c;
      } else {
        var i :| 0 <= i < |parts[0]| && parts[0][i] == c;
        assert j[i] == c;
      }
    }
  }

  /** A string holding `c` counts it at least once. */
  lemma {:induction false} CountPositive(s: string, c: char)
    requires c in s
    ensures Count(s, c) >= 1
  {
    if s[0] != c {
      var i :| 0 <= i < |s| && s[i] == c;
      assert s[1..][i - 1] == c;
      CountPositive(s[1..], c);
    }
  }

  /** Joining with `c` adds one `c` between each two pieces, on top of those in any one piece. */
  lemma {:induction false} JoinCountAtLeast(parts: seq<string>, c: char, k: int)
    requires 0 <= k < |parts|
    ensures Count(Join(parts, [c]), c) >= |parts| - 1 + Count(parts[k], c)
  {
    if |parts| > 1 {
      var rest := Join(parts[1..], [c]);
      assert Join(parts, [c]) == parts[0] + [c] + rest;
      CountAppend(parts[0] + [c], rest, c);
      CountAppend(parts[0], [c], c);
      assert Count([c], c) == 1 by {
        assert [c][1..] == [];
      }
      if k > 0 {
        JoinCountAtLeast(parts[1..], c, k - 1);
      } else {
        JoinCountAtLeast(parts[1..], c, 0);
      }
    }
  }

  /** `Join` of a list of pieces is the concatenation of pieces and separators,
      so its length is theirs. */
  lemma {:induction false} JoinLength(parts: seq<string>, sep: string)
    requires parts != []
    ensures |Join(parts, sep)| == SumLengths(parts) + (|parts| - 1) * |sep|
  {
    if |parts| > 1 { JoinLength(parts[1..], sep); }
  }

  function SumLengths(parts: seq<string>): nat {
    if parts == [] then 0 else |parts[0]| + SumLengths(parts[1..])
  }

  /** JavaScript `s.startsWith(p)`. */
  predicate StartsWith(s: string, p: string) {
    |p| <= |s| && s[..|p|] == p
  }

  /** Substring search: `needle` occurs in `hay` as a contiguous piece. */
  predicate Contains(hay: string, needle: string)
    decreases |hay|
  {
    StartsWith(hay, needle) || (hay != [] && Contains(hay[1..], needle))
  }

  /** A string extended on the right still contains what it contained. */
  lemma {:induction false} ContainsExtendedRight(x: string, q: string, n: string)
    requires Contains(x, n)
    ensures Contains(x + q, n)
    decreases |x|
  {
    if StartsWith(x, n) {
      assert (x + q)[..|n|] == x[..|n|];
    } else {
      assert (x + q)[1..] == x[1..] + q;
      ContainsExtendedRight(x[1..], q, n);
    }
  }

  /** A string extended on the left still contains what it contained. */
  lemma {:induction false} ContainsExtendedLeft(p: string, x: string, n: string)
    requires Contains(x, n)
    ensures Contains(p + x, n)
    decreases |p|
  {
    if p == [] {
      assert p + x == x;
    } else {
      assert (p + x)[1..] == p[1..] + x;
      ContainsExtendedLeft(p[1..], x, n);
    }
  }

  /** The concatenation of a list of pieces (`parts.join('')`). */
  function Concat(parts: seq<string>): string {
    if parts == [] then "" else parts[0] + Concat(parts[1..])
  }

  lemma ContainsItself(a: string)
    ensures Contains(a, a)
  {
    assert a[..|a|] == a;
  }

  /** Whatever one piece contains, the concatenation of all the pieces contains. */
  lemma {:induction false} ConcatContains(parts: seq<string>, k: int, n: string)
    requires 0 <= k < |parts| && Contains(parts[k], n)
    ensures Contains(Concat(parts), n)
  {
    if k == 0 {
      ContainsExtendedRight(parts[0], Concat(parts[1..]), n);
    } else {
      ConcatContains(parts[1..], k - 1, n);
      ContainsExtendedLeft(parts[0], Concat(parts[1..]), n);
    }
  }

  function UpperChar(c: char): char {
    if 'a' <= c <= 'z' then (c as int - 32) as char else c
  }

  function LowerChar(c: char): char {
    if 'A' <= c <= 'Z' then (c as int + 32) as char else c
  }

  /** `toUpperCase()`, restricted to the ASCII letters. */
  function Upper(s: string): (r: string)
    ensures |r| == |s|
    ensures forall i :: 0 <= i < |s| ==> r[i] == UpperChar(s[i])
  {
    seq(|s|, i requires 0 <= i < |s| => UpperChar(s[i]))
  }

  lemma UpperPair(a: char, b: char)
    ensures Upper([a, b]) == [UpperChar(a), UpperChar(b)]
  {
    var r := Upper([a, b]);
    assert |r| == 2 && r[0] == UpperChar(a) && r[1] == UpperChar(b);
  }

  /** `toLowerCase()`, restricted to the ASCII letters. */
  function Lower(s: string): (r: string)
    ensures |r| == |s|
    ensures forall i :: 0 <= i < |s| ==> r[i] == LowerChar(s[i])
  {
    seq(|s|, i requires 0 <= i < |s| => LowerChar(s[i]))
  }

  /** Case-insensitive substring search (`contains` with `mode: "insensitive"`). */
  predicate ContainsInsensitive(hay: string, needle: string) {
    Contains(Lower(hay), Lower(needle))
  }

  /** `s.replace(/from/g, to)` for single characters. */
  function ReplaceAll(s: string, from: char, to: char): (r: string)
    ensures |r| == |s|
    ensures from != to ==> from !in r
    ensures forall i :: 0 <= i < |s| ==> r[i] == (if s[i] == from then to else s[i])
  {
    seq(|s|, i requires 0 <= i < |s| => if s[i] == from then to else s[i])
  }

  function DigitChar(d: nat): char
    requires d < 10
  {
    ('0' as int + d) as char
  }

  /** Decimal digits of a natural number. */
  function NatToString(n: nat): (r: string)
    ensures r != []
    ensures forall i :: 0 <= i < |r| ==> '0' <= r[i] <= '9'
  {
    if n < 10 then [DigitChar(n)] else NatToString(n / 10) + [DigitChar(n % 10)]
  }

  predicate IsDigit(c: char) {
    '0' <= c <= '9'
  }

  /** The number a string of decimal digits denotes. */
  function DigitsValue(s: string): nat
    requires forall i :: 0 <= i < |s| ==> IsDigit(s[i])
  {
    if s == [] then 0
    else
      assert IsDigit(s[|s| - 1]);
      DigitsValue(s[..|s| - 1]) * 10 + (s[|s| - 1] as int - '0' as int)
  }

  /** Reading back the printed digits gives the number. */
  lemma {:induction false} NatToStringValue(n: nat)
    ensures DigitsValue(NatToString(n)) == n
  {
    if n >= 10 {
      NatToStringValue(n / 10);
      var s := NatToString(n);
      assert s[..|s| - 1] == NatToString(n / 10);
    }
  }

  /** Different numbers print differently. */
  lemma NatToStringInjective(m: nat, n: nat)
    requires NatToString(m) == NatToString(n)
    ensures m == n
  {
    NatToStringValue(m);
    NatToStringValue(n);
  }

  /** ``${n}`` for an integer-valued JavaScript number. */
  function IntToString(n: int): (r: string)
    ensures r != []
    ensures n < 0 <==> r[0] == '-'
  {
    if n < 0 then "-" + NatToString(-n) else NatToString(n)
  }

  /** `s.charAt(0).toUpperCase() + s.slice(1)`. */
  function Capitalize(s: string): (r: string)
    ensures |r| == |s|
    ensures s != [] ==> r[0] == UpperChar(s[0]) && r[1..] == s[1..]
  {
    if s == [] then [] else [UpperChar(s[0])] + s[1..]
  }
}
