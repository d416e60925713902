/** Ordinal string tests shared by the C# and TypeScript parts of the model. */
module Text {

  predicate StartsWith(s: string, prefix: string)
  {
    |prefix| <= |s| && s[..|prefix|] == prefix
  }

  /** `sub` occurs in `s` starting at index `i`. */
  predicate OccursAt(s: string, sub: string, i: int)
  {
    0 <= i && i + |sub| <= |s| && s[i..i + |sub|] == sub
  }

  /** Ordinal substring search, as `String.Contains` and `String.prototype.includes`. */
  predicate Contains(s: string, sub: string)
  {
    exists i :: 0 <= i <= |s| && OccursAt(s, sub, i)
  }

  /** A string containing `a` contains everything `a` contains. */
  lemma ContainsTransitive(s: string, a: string, b: string)
    requires Contains(s, a) && Contains(a, b)
    ensures Contains(s, b)
  {
    var i :| 0 <= i <= |s| && OccursAt(s, a, i);
    var j :| 0 <= j <= |a| && OccursAt(a, b, j);
    assert s[i..i + |a|] == a;
    assert a[j..j + |b|] == b;
    forall k | 0 <= k < |b|
      ensures s[i + j + k] == b[k]
    {
      assert s[i..i + |a|][j + k] == a[j + k];
      assert a[j..j + |b|][k] == a[j + k];
    }
    assert s[i + j..i + j + |b|] == b;
    assert OccursAt(s, b, i + j);
  }

  function EndsWith(s: string, suffix: string): bool
  {
    |suffix| <= |s| && s[|s| - |suffix|..] == suffix
  }

  /** `n` copies of `c`. */
  function Repeat(c: char, n: nat): (r: string)
    ensures |r| == n && forall i :: 0 <= i < n ==> r[i] == c
  {
    if n == 0 then "" else Repeat(c, n - 1) + [c]
  }

  /** Every occurrence of `from` replaced by `to`, as `replaceAll` with one-character arguments. */
  function ReplaceAll(s: string, from: char, to: char): (r: string)
    ensures |r| == |s|
    ensures forall i :: 0 <= i < |s| ==> r[i] == if s[i] == from then to else s[i]
  {
    if |s| == 0 then ""
    else (if s[0] == from then [to] else [s[0]]) + ReplaceAll(s[1..], from, to)
  }

  /** Every occurrence of `c` removed, as `replaceAll(c, "")`. */
  function RemoveAll(s: string, c: char): (r: string)
    ensures c !in r && |r| <= |s|
    ensures forall d :: d in r ==> d in s
  {
    if |s| == 0 then ""
    else (if s[0] == c then "" else [s[0]]) + RemoveAll(s[1..], c)
  }

  /** Removing from a concatenation removes from each part. */
  lemma {:induction false} RemoveAllAppend(a: string, b: string, c: char)
    ensures RemoveAll(a + b, c) == RemoveAll(a, c) + RemoveAll(b, c)
    decreases |a|
  {
    if |a| > 0 {
      assert (a + b)[1..] == a[1..] + b;
      RemoveAllAppend(a[1..], b, c);
    } else {
      assert a + b == b;
    }
  }

  /** A string without `c` is kept as it is. */
  lemma {:induction false} RemoveAllAbsent(s: string, c: char)
    requires c !in s
    ensures RemoveAll(s, c) == s
    decreases |s|
  {
    if |s| > 0 {
      RemoveAllAbsent(s[1..], c);
    }
  }

  /** The parts joined back together with `sep` between them. */
  function Join(parts: seq<string>, sep: string): string
  {
    if |parts| == 0 then ""
    else if |parts| == 1 then parts[0]
    else parts[0] + sep + Join(parts[1..], sep)
  }

  /** The fields of `s` between occurrences of `sep`, as `split` with a one-character separator. */
  function Split(s: string, sep: char): (parts: seq<string>)
    ensures |parts| >= 1
    ensures forall k :: 0 <= k < |parts| ==> sep !in parts[k]
    ensures Join(parts, [sep]) == s
  {
    if |s| == 0 then [""]
    else
      var rest := Split(s[1..], sep);
      if s[0] == sep then [""] + rest
      else [[s[0]] + rest[0]] + rest[1..]
  }

  /** Splitting undoes joining, when no part holds the separator. */
  lemma {:induction false} SplitJoin(parts: seq<string>, sep: char)
    requires |parts| >= 1
    requires forall k :: 0 <= k < |parts| ==> sep !in parts[k]
    ensures Split(Join(parts, [sep]), sep) == parts
    decreases |parts|, |parts[0]|
  {
    var s := Join(parts, [sep]);
    if |parts[0]| > 0 {
      var tail := [parts[0][1..]] + parts[1..];
      assert tail[1..] == parts[1..];
      assert s == [parts[0][0]] + Join(tail, [sep]);
      SplitJoin(tail, sep);
      assert s[1..] == Join(tail, [sep]);
      assert s[0] == parts[0][0] && parts[0][0] != sep;
      assert [s[0]] + tail[0] == parts[0];
      assert parts == [parts[0]] + parts[1..];
    } else if |parts| > 1 {
      assert s == [sep] + Join(parts[1..], [sep]);
      assert s[1..] == Join(parts[1..], [sep]);
      SplitJoin(parts[1..], sep);
    }
  }

  /** A join of at least two parts starts with the first two and the separator between them. */
  lemma JoinLeadingParts(parts: seq<string>, sep: string)
    requires |parts| >= 2
    ensures StartsWith(Join(parts, sep), parts[0] + sep + parts[1])
  {
    var rest := Join(parts[1..], sep);
    assert Join(parts, sep) == parts[0] + sep + rest;
    assert rest[..|parts[1]|] == parts[1];
  }

  /** A string made of two separator-free fields, followed by nothing or by a separator, splits into those two fields first. */
  lemma SplitLeadingFields(a: string, b: string, sep: char, tail: string)
    requires sep !in a && sep !in b
    requires tail == [] || tail[0] == sep
    ensures var parts := Split(a + [sep] + b + tail, sep);
      |parts| >= 2 && parts[0] == a && parts[1] == b
  {
    if tail == [] {
      assert Join([a, b], [sep]) == a + [sep] + b + tail;
      SplitJoin([a, b], sep);
    } else {
      var rest := Split(tail[1..], sep);
      JoinTwoThenRest(a, b, rest, [sep]);
      assert tail == [sep] + tail[1..];
      assert a + [sep] + b + tail == a + [sep] + (b + [sep] + Join(rest, [sep]));
      SplitJoin([a, b] + rest, sep);
    }
  }

  /** Two parts in front of at least one more join as those two, then the rest. */
  lemma JoinTwoThenRest(a: string, b: string, rest: seq<string>, sep: string)
    requires |rest| >= 1
    ensures Join([a, b] + rest, sep) == a + sep + (b + sep + Join(rest, sep))
  {
    var parts := [a, b] + rest;
    assert parts[1..] == [b] + rest && ([b] + rest)[1..] == rest;
  }

  // ---------------------------------------------------------------------
  // Decimal digits, as both C#'s ToString() and JavaScript write a natural number.
  // ---------------------------------------------------------------------

  function DigitChar(d: nat): (c: char)
    requires d < 10
    ensures '0' <= c <= '9'
  {
    "0123456789"[d]
  }

  /** The decimal digits of a natural number, without leading zeros. */
  function NatToString(n: nat): (s: string)
    ensures |s| >= 1
    ensures forall i :: 0 <= i < |s| ==> '0' <= s[i] <= '9'
    ensures n < 10 <==> |s| == 1
    decreases n
  {
    if n < 10 then [DigitChar(n)] else NatToString(n / 10) + [DigitChar(n % 10)]
  }

  lemma DigitCharInjective(a: nat, b: nat)
    requires a < 10 && b < 10
    requires DigitChar(a) == DigitChar(b)
    ensures a == b
  {
  }

  /** Distinct numbers have distinct renderings. */
  lemma {:induction false} NatToStringInjective(a: nat, b: nat)
    requires NatToString(a) == NatToString(b)
    ensures a == b
    decreases a
  {
    var sa, sb := NatToString(a), NatToString(b);
    if a < 10 && b < 10 {
      DigitCharInjective(a, b);
    } else if a < 10 || b < 10 {
      // one rendering has a single digit, the other at least two
      assert false;
    } else {
      var pa, pb := NatToString(a / 10), NatToString(b / 10);
      assert sa == pa + [DigitChar(a % 10)];
      assert sb == pb + [DigitChar(b % 10)];
      assert sa[..|sa| - 1] == pa;
      assert sb[..|sb| - 1] == pb;
      NatToStringInjective(a / 10, b / 10);
      assert sa[|sa| - 1] == DigitChar(a % 10);
      assert sb[|sb| - 1] == DigitChar(b % 10);
      DigitCharInjective(a % 10, b % 10);
    }
  }
}
