/**
  Character-separated token lists, as the settings strings use them, and the decimal
  rendering of integers that `String.valueOf(int)` produces.
 */
module Strings {

  datatype Option<T> = None | Some(value: T)

  /** No element of `xs` occurs twice. */
  ghost predicate Distinct<T>(xs: seq<T>)
  {
    forall i, j :: 0 <= i < j < |xs| ==> xs[i] != xs[j]
  }

  /** `xs` lists every element of `s` exactly once, in some order. */
  ghost predicate Enumerates(xs: seq<string>, s: set<string>)
  {
    Distinct(xs) && forall x :: x in xs <==> x in s
  }

  /** The elements an enumeration lists form the set it enumerates. */
  lemma EnumeratedSet(xs: seq<string>, s: set<string>)
    requires Enumerates(xs, s)
    ensures (set x | x in xs) == s
  {
  }

  // ---------------------------------------------------------------------------
  // Splitting and joining
  // ---------------------------------------------------------------------------

  /** Every piece of `s` between occurrences of `sep`; an empty string is one empty piece. */
  function Tokens(s: string, sep: char): (r: seq<string>)
    ensures |r| >= 1
    decreases |s|
  {
    if |s| == 0 then [""]
    else if s[0] == sep then [""] + Tokens(s[1..], sep)
    else
      var rest := Tokens(s[1..], sep);
      [[s[0]] + rest[0]] + rest[1..]
  }

  /**
    The token stream of `TextUtils.SimpleStringSplitter`: every piece between separators,
    empty interior pieces included, except that an empty final piece is not produced. The
    splitter stops once its position reaches the end of the string, so the empty string
    yields no token and a trailing separator adds none.
   */
  function Split(s: string, sep: char): (r: seq<string>)
    ensures r == [] <==> s == ""
  {
    TokensOfNonEmpty(s, sep);
    var pieces := Tokens(s, sep);
    if pieces[|pieces| - 1] == "" then pieces[..|pieces| - 1] else pieces
  }

  /** Only the empty string has the single empty piece. */
  lemma TokensOfNonEmpty(s: string, sep: char)
    ensures s != "" ==> |Tokens(s, sep)| >= 2 || Tokens(s, sep)[0] != ""
  {
  }

  /** The tokens of `ts` with `sep` between neighbours: never before the first or after the last. */
  function Join(ts: seq<string>, sep: char): string
    decreases |ts|
  {
    if |ts| == 0 then ""
    else if |ts| == 1 then ts[0]
    else ts[0] + [sep] + Join(ts[1..], sep)
  }

  lemma {:induction false} TokensWithoutSeparator(a: string, sep: char)
    requires sep !in a
    ensures Tokens(a, sep) == [a]
    decreases |a|
  {
    if |a| > 0 {
      TokensWithoutSeparator(a[1..], sep);
      assert [a[0]] + a[1..] == a;
    }
  }

  lemma {:induction false} TokensAfterSeparator(a: string, b: string, sep: char)
    requires sep !in a
    ensures Tokens(a + [sep] + b, sep) == [a] + Tokens(b, sep)
    decreases |a|
  {
    var s := a + [sep] + b;
    if |a| == 0 {
      assert s[1..] == b;
    } else {
      assert s[1..] == a[1..] + [sep] + b;
      TokensAfterSeparator(a[1..], b, sep);
      assert [a[0]] + a[1..] == a;
    }
  }

  /** The pieces of a join are exactly its tokens, when no token contains the separator. */
  lemma {:induction false} TokensOfJoin(ts: seq<string>, sep: char)
    requires |ts| >= 1
    requires forall i :: 0 <= i < |ts| ==> sep !in ts[i]
    ensures Tokens(Join(ts, sep), sep) == ts
    decreases |ts|
  {
    if |ts| == 1 {
      TokensWithoutSeparator(ts[0], sep);
    } else {
      TokensOfJoin(ts[1..], sep);
      TokensAfterSeparator(ts[0], Join(ts[1..], sep), sep);
      assert [ts[0]] + ts[1..] == ts;
    }
  }

  /** The same through `Split`, for a join whose last token is not empty. */
  lemma SplitOfJoin(ts: seq<string>, sep: char)
    requires |ts| >= 1
    requires forall i :: 0 <= i < |ts| ==> sep !in ts[i]
    requires ts[|ts| - 1] != ""
    ensures Split(Join(ts, sep), sep) == ts
  {
    TokensOfJoin(ts, sep);
  }

  /** Pieces whose last one is not empty are exactly the token stream. */
  lemma SplitOfPieces(s: string, sep: char, pieces: seq<string>)
    requires Tokens(s, sep) == pieces
    requires |pieces| >= 1 && pieces[|pieces| - 1] != ""
    ensures Split(s, sep) == pieces
  {
  }

  lemma {:induction false} TokensAppendSeparator(a: string, sep: char)
    ensures Tokens(a + [sep], sep) == Tokens(a, sep) + [""]
    decreases |a|
  {
    var s := a + [sep];
    if |a| > 0 {
      assert s[1..] == a[1..] + [sep];
      TokensAppendSeparator(a[1..], sep);
    }
  }

  /** A trailing separator adds no token: the pieces before it are exactly the stream. */
  lemma SplitTrailingSeparator(a: string, sep: char)
    ensures Split(a + [sep], sep) == Tokens(a, sep)
  {
    TokensAppendSeparator(a, sep);
    assert (Tokens(a, sep) + [""])[..|Tokens(a, sep)|] == Tokens(a, sep);
  }

  lemma {:induction false} JoinAppend(ts: seq<string>, t: string, sep: char)
    requires |ts| >= 1
    ensures Join(ts + [t], sep) == Join(ts, sep) + [sep] + t
    decreases |ts|
  {
    if |ts| == 1 {
      assert (ts + [t])[1..] == [t];
    } else {
      assert (ts + [t])[1..] == ts[1..] + [t];
      JoinAppend(ts[1..], t, sep);
    }
  }

  /** A join starts with its first token and ends with its last one. */
  lemma {:induction false} JoinEnds(ts: seq<string>, sep: char)
    requires |ts| >= 1
    ensures |Join(ts, sep)| >= |ts[0]| && Join(ts, sep)[..|ts[0]|] == ts[0]
    ensures |Join(ts, sep)| >= |ts[|ts| - 1]|
    ensures Join(ts, sep)[|Join(ts, sep)| - |ts[|ts| - 1]|..] == ts[|ts| - 1]
    decreases |ts|
  {
    if |ts| > 1 {
      JoinEnds(ts[1..], sep);
      var rest := Join(ts[1..], sep);
      var j := ts[0] + [sep] + rest;
      assert j[|j| - |ts[|ts| - 1]|..] == rest[|rest| - |ts[|ts| - 1]|..];
    }
  }

  /** A character outside every token and different from the separator is outside the join. */
  lemma {:induction false} JoinAvoids(ts: seq<string>, sep: char, c: char)
    requires c != sep
    requires forall i :: 0 <= i < |ts| ==> c !in ts[i]
    ensures c !in Join(ts, sep)
    decreases |ts|
  {
    if |ts| > 1 {
      JoinAvoids(ts[1..], sep, c);
    }
  }

  // ---------------------------------------------------------------------------
  // Decimal rendering (String.valueOf(int))
  // ---------------------------------------------------------------------------

  function DigitChar(d: nat): (c: char)
    requires d < 10
    ensures '0' <= c <= '9'
  {
    ('0' as int + d) as char
  }

  predicate IsDigit(c: char)
  {
    '0' <= c <= '9'
  }

  /** The decimal digits of `n`, most significant first, without leading zeros. */
  function NatToString(n: nat): (r: string)
    ensures |r| >= 1
    ensures forall i :: 0 <= i < |r| ==> IsDigit(r[i])
    ensures n >= 10 ==> |r| >= 2
    decreases n
  {
    if n < 10 then [DigitChar(n)] else NatToString(n / 10) + [DigitChar(n % 10)]
  }

  /** `String.valueOf(i)`: an optional minus sign followed by the decimal digits of |i|. */
  function IntToString(i: int): (r: string)
    ensures r != ""
    ensures forall k :: 0 <= k < |r| ==> IsDigit(r[k]) || (k == 0 && r[k] == '-')
    ensures r[0] == '-' <==> i < 0
  {
    if i < 0 then "-" + NatToString(-i) else NatToString(i)
  }

  lemma {:induction false} NatToStringInjective(a: nat, b: nat)
    requires NatToString(a) == NatToString(b)
    ensures a == b
    decreases a
  {
    var s := NatToString(a);
    if a >= 10 && b >= 10 {
      assert s[|s| - 1] == DigitChar(a % 10) == DigitChar(b % 10);
      assert NatToString(a / 10) == s[..|s| - 1] == NatToString(b / 10);
      NatToStringInjective(a / 10, b / 10);
    }
  }

  /** Distinct integers have distinct decimal renderings. */
  lemma IntToStringInjective(a: int, b: int)
    requires IntToString(a) == IntToString(b)
    ensures a == b
  {
    var s := IntToString(a);
    if a < 0 && b < 0 {
      assert NatToString(-a) == s[1..] == NatToString(-b);
      NatToStringInjective(-a, -b);
    } else if a >= 0 && b >= 0 {
      NatToStringInjective(a, b);
    }
  }

  /** No decimal rendering contains `c` unless `c` is a digit or the minus sign. */
  lemma IntToStringAvoids(i: int, c: char)
    requires !IsDigit(c) && c != '-'
    ensures c !in IntToString(i)
  {
  }
}
