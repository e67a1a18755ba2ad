/** The .NET string operations the modelled code relies on, over `seq<char>`. */
module Text {

  /** `p` occurs in `s` starting at index `i`. */
  predicate OccursAt(s: string, p: string, i: int) {
    0 <= i && i + |p| <= |s| && s[i..i + |p|] == p
  }

  /**
   * String.Replace(oldValue, newValue) with ordinal comparison: every occurrence of `p`,
   * found scanning left to right without overlap, is replaced by `r`. .NET throws on an
   * empty `oldValue`; every caller in the model passes a non-empty constant.
   */
  function Replace(s: string, p: string, r: string): string
    requires |p| > 0
    decreases |s|
  {
    if |s| < |p| then s
    else if s[..|p|] == p then r + Replace(s[|p|..], p, r)
    else [s[0]] + Replace(s[1..], p, r)
  }

  /** An occurrence in the tail of `s` is an occurrence in `s`, one position later. */
  lemma OccursInTail(s: string, p: string, i: int)
    requires |s| >= 1 && OccursAt(s[1..], p, i)
    ensures OccursAt(s, p, i + 1)
  {
    assert s[1..][i..i + |p|] == s[i + 1..i + 1 + |p|];
  }

  /** A string in which `p` does not occur is left as it is. */
  lemma {:induction false} ReplaceAbsent(s: string, p: string, r: string)
    requires |p| > 0
    requires forall i :: !OccursAt(s, p, i)
    ensures Replace(s, p, r) == s
    decreases |s|
  {
    if |s| >= |p| {
      assert !OccursAt(s, p, 0);
      forall i ensures !OccursAt(s[1..], p, i) {
        if OccursAt(s[1..], p, i) {
          OccursInTail(s, p, i);
        }
      }
      ReplaceAbsent(s[1..], p, r);
    }
  }

  /**
   * When the first occurrence of `p` in `a + p + b` is the one after `a`, that occurrence
   * becomes `r` and `a` is kept: the replacement of a placeholder that appears once.
   */
  lemma {:induction false} ReplaceFirst(a: string, b: string, p: string, r: string)
    requires |p| > 0
    requires forall i :: 0 <= i < |a| ==> !OccursAt(a + p + b, p, i)
    ensures Replace(a + p + b, p, r) == a + r + Replace(b, p, r)
    decreases |a|
  {
    var s := a + p + b;
    if a == [] {
      assert s == p + b;
      assert s[..|p|] == p;
      assert s[|p|..] == b;
    } else {
      assert !OccursAt(s, p, 0);
      assert s[..|p|] != p;
      var t := a[1..] + p + b;
      assert s[1..] == t;
      forall i | 0 <= i < |a[1..]| ensures !OccursAt(t, p, i) {
        if OccursAt(t, p, i) {
          OccursInTail(s, p, i);
        }
      }
      ReplaceFirst(a[1..], b, p, r);
      assert Replace(s, p, r) == [s[0]] + Replace(t, p, r);
      assert [s[0]] + a[1..] == a;
    }
  }

  /** Replacing a single character works character by character. */
  lemma ReplaceCharCons(x: char, t: string, c: char, r: string)
    ensures Replace([x] + t, [c], r) == (if x == c then r else [x]) + Replace(t, [c], r)
  {
    var s := [x] + t;
    assert s[..1] == [x];
    assert s[1..] == t;
  }

  /** A one-character string is replaced whole or kept. */
  lemma ReplaceCharSingle(x: char, c: char, r: string)
    ensures Replace([x], [c], r) == if x == c then r else [x]
  {
    ReplaceCharCons(x, [], c, r);
    assert [x] + [] == [x];
    assert Replace([], [c], r) == [];
    assert (if x == c then r else [x]) + [] == (if x == c then r else [x]);
  }

  /** Replacing a single character distributes over concatenation. */
  lemma {:induction false} ReplaceCharConcat(a: string, b: string, c: char, r: string)
    ensures Replace(a + b, [c], r) == Replace(a, [c], r) + Replace(b, [c], r)
    decreases |a|
  {
    if a == [] {
      assert a + b == b;
    } else {
      assert a + b == [a[0]] + (a[1..] + b);
      assert a == [a[0]] + a[1..];
      ReplaceCharCons(a[0], a[1..] + b, c, r);
      ReplaceCharCons(a[0], a[1..], c, r);
      ReplaceCharConcat(a[1..], b, c, r);
    }
  }

  /** After replacing `c` by a text without `c`, no `c` is left. */
  lemma {:induction false} ReplaceCharRemoves(s: string, c: char, r: string)
    requires c !in r
    ensures c !in Replace(s, [c], r)
    decreases |s|
  {
    if s != [] {
      assert s == [s[0]] + s[1..];
      ReplaceCharCons(s[0], s[1..], c, r);
      ReplaceCharRemoves(s[1..], c, r);
    }
  }

  /** A character in neither the string nor the replacement text stays absent. */
  lemma {:induction false} ReplaceCharKeepsOut(s: string, c: char, d: char, r: string)
    requires d !in s && d !in r
    ensures d !in Replace(s, [c], r)
    decreases |s|
  {
    if s != [] {
      assert s == [s[0]] + s[1..];
      ReplaceCharCons(s[0], s[1..], c, r);
      ReplaceCharKeepsOut(s[1..], c, d, r);
    }
  }

  /** A string without `c` is left unchanged by replacing `c`. */
  lemma ReplaceCharAbsent(s: string, c: char, r: string)
    requires c !in s
    ensures Replace(s, [c], r) == s
  {
    forall i ensures !OccursAt(s, [c], i) {
      if 0 <= i < |s| {
        assert s[i..i + 1][0] == s[i];
      }
    }
    ReplaceAbsent(s, [c], r);
  }

  /** The invariant-culture lower-case mapping, restricted to ASCII letters. */
  function LowerChar(c: char): char {
    if 'A' <= c <= 'Z' then (c as int + 32) as char else c
  }

  /** String.ToLower on ASCII text: each letter A-Z becomes a-z, nothing else changes. */
  function ToLower(s: string): (t: string)
    ensures |t| == |s|
  {
    if s == [] then [] else [LowerChar(s[0])] + ToLower(s[1..])
  }

  /** ToLower maps every character by LowerChar, and leaves no upper-case ASCII letter. */
  lemma {:induction false} ToLowerMaps(s: string)
    ensures forall i :: 0 <= i < |s| ==> ToLower(s)[i] == LowerChar(s[i])
    ensures forall i :: 0 <= i < |s| ==> !('A' <= ToLower(s)[i] <= 'Z')
    decreases |s|
  {
    if s != [] {
      ToLowerMaps(s[1..]);
      assert forall i :: 1 <= i < |s| ==> ToLower(s)[i] == ToLower(s[1..])[i - 1];
    }
  }

  /** Number of leading occurrences of `c` in `s`. */
  function LeadingCount(s: string, c: char): (n: nat)
    ensures n <= |s|
  {
    if s == [] || s[0] != c then 0 else 1 + LeadingCount(s[1..], c)
  }

  /** LeadingCount counts exactly the run of `c` that starts `s`. */
  lemma {:induction false} LeadingRun(s: string, c: char)
    ensures forall k :: 0 <= k < LeadingCount(s, c) ==> s[k] == c
    ensures LeadingCount(s, c) == |s| || s[LeadingCount(s, c)] != c
    decreases |s|
  {
    if s != [] && s[0] == c {
      LeadingRun(s[1..], c);
      assert forall k :: 1 <= k < LeadingCount(s, c) ==> s[k] == s[1..][k - 1];
    }
  }

  /** Number of trailing occurrences of `c` in `s`. */
  function TrailingCount(s: string, c: char): (n: nat)
    ensures n <= |s|
  {
    if s == [] || s[|s| - 1] != c then 0 else 1 + TrailingCount(s[..|s| - 1], c)
  }

  /** TrailingCount counts exactly the run of `c` that ends `s`. */
  lemma {:induction false} TrailingRun(s: string, c: char)
    ensures forall k :: |s| - TrailingCount(s, c) <= k < |s| ==> s[k] == c
    ensures TrailingCount(s, c) == |s| || s[|s| - TrailingCount(s, c) - 1] != c
    decreases |s|
  {
    if s != [] && s[|s| - 1] == c {
      var front := s[..|s| - 1];
      TrailingRun(front, c);
      assert forall k :: 0 <= k < |front| ==> s[k] == front[k];
    }
  }

  /** String.Trim(char): every leading and every trailing `c` removed. */
  function Trim(s: string, c: char): (t: string)
    ensures |t| <= |s|
  {
    var rest := s[LeadingCount(s, c)..];
    rest[..|rest| - TrailingCount(rest, c)]
  }

  /**
   * Trim leaves a contiguous part of `s` that neither starts nor ends with `c`, and
   * everything it cuts off is `c`.
   */
  lemma TrimCuts(s: string, c: char)
    ensures var t := Trim(s, c);
            t == [] || (t[0] != c && t[|t| - 1] != c)
    ensures LeadingCount(s, c) + |Trim(s, c)| <= |s|
    ensures Trim(s, c) == s[LeadingCount(s, c)..LeadingCount(s, c) + |Trim(s, c)|]
    ensures forall k :: 0 <= k < LeadingCount(s, c) ==> s[k] == c
    ensures forall k :: LeadingCount(s, c) + |Trim(s, c)| <= k < |s| ==> s[k] == c
  {
    TrimSlice(s, c);
    TrimEnds(s, c);
    LeadingRun(s, c);
    TrimCutTail(s, c);
  }

  /** What Trim leaves is the part of `s` after its leading run of `c`. */
  lemma TrimSlice(s: string, c: char)
    ensures LeadingCount(s, c) + |Trim(s, c)| <= |s|
    ensures Trim(s, c) == s[LeadingCount(s, c)..LeadingCount(s, c) + |Trim(s, c)|]
  {
    var i := LeadingCount(s, c);
    var rest := s[i..];
    assert Trim(s, c) == rest[..|rest| - TrailingCount(rest, c)];
  }

  /** What Trim leaves neither starts nor ends with `c`. */
  lemma TrimEnds(s: string, c: char)
    ensures var t := Trim(s, c);
            t == [] || (t[0] != c && t[|t| - 1] != c)
  {
    var i := LeadingCount(s, c);
    var rest := s[i..];
    var j := TrailingCount(rest, c);
    var t := rest[..|rest| - j];
    assert Trim(s, c) == t;
    if t != [] {
      LeadingRun(s, c);
      TrailingRun(rest, c);
      assert t[0] == s[i] && t[|t| - 1] == rest[|rest| - j - 1];
    }
  }

  /** Everything after what Trim leaves is `c`. */
  lemma TrimCutTail(s: string, c: char)
    ensures LeadingCount(s, c) + |Trim(s, c)| <= |s|
    ensures forall k :: LeadingCount(s, c) + |Trim(s, c)| <= k < |s| ==> s[k] == c
  {
    var i := LeadingCount(s, c);
    var rest := s[i..];
    var j := TrailingCount(rest, c);
    assert |Trim(s, c)| == |rest| - j;
    TrailingRun(rest, c);
    forall k | i + |rest| - j <= k < |s|
      ensures s[k] == c
    {
      assert s[k] == rest[k - i];
    }
  }

  /** A value that neither starts nor ends with `c`, wrapped in `c` once, trims back to itself. */
  lemma TrimWrapped(x: string, c: char)
    requires x == [] || (x[0] != c && x[|x| - 1] != c)
    ensures Trim([c] + x + [c], c) == x
  {
    var s := [c] + x + [c];
    TrimCuts(s, c);
    var t := Trim(s, c);
    var n := LeadingCount(s, c);
    if x == [] {
      assert |t| == 0;
    } else {
      assert s[1] == x[0];
      assert n == 1;
      assert s[|s| - 2] == x[|x| - 1];
      assert |t| >= 1;
      assert n + |t| == |s| - 1;
      assert t == s[1..|s| - 1];
      assert s[1..|s| - 1] == x;
    }
  }

  /** Trimming twice is trimming once. */
  lemma TrimIdempotent(s: string, c: char)
    ensures Trim(Trim(s, c), c) == Trim(s, c)
  {
    TrimCuts(s, c);
    var t := Trim(s, c);
    assert LeadingCount(t, c) == 0;
    assert TrailingCount(t, c) == 0;
    assert t[0..] == t;
    assert t[..|t|] == t;
  }

  /** The text of `s` before its first '"' (all of `s` when it has none): an attribute value. */
  function UntilQuote(s: string): (t: string)
    ensures '"' !in t
    ensures t <= s
    ensures |t| == |s| || s[|t|] == '"'
  {
    if s == [] || s[0] == '"' then [] else [s[0]] + UntilQuote(s[1..])
  }

  /**
   * A value without '"' followed by the closing quote is read back exactly: a quoted
   * attribute value whose quotes were escaped survives being scanned for its delimiter.
   */
  lemma {:induction false} UntilQuoteReadsValue(v: string, rest: string)
    requires '"' !in v
    ensures UntilQuote(v + "\"" + rest) == v
    decreases |v|
  {
    var s := v + "\"" + rest;
    if v == [] {
      assert s[0] == '"';
    } else {
      assert s[0] == v[0];
      assert s[1..] == v[1..] + "\"" + rest;
      UntilQuoteReadsValue(v[1..], rest);
      assert [v[0]] + v[1..] == v;
    }
  }

  /** The decimal digit `d`. */
  function DigitChar(d: nat): (c: char)
    requires d < 10
    ensures '0' <= c <= '9' && c as int - '0' as int == d
  {
    (d + '0' as int) as char
  }

  /** Int32.ToString() of a non-negative value: its decimal digits, most significant first. */
  function NatToString(n: nat): (s: string)
    ensures |s| >= 1
    ensures forall i :: 0 <= i < |s| ==> '0' <= s[i] <= '9'
    decreases n
  {
    if n < 10 then [DigitChar(n)] else NatToString(n / 10) + [DigitChar(n % 10)]
  }

  predicate AllDigits(s: string) {
    forall i :: 0 <= i < |s| ==> '0' <= s[i] <= '9'
  }

  /** The value of a string of decimal digits (the reading a server applies to a rendered int). */
  function ParseNat(s: string): nat
    requires AllDigits(s)
  {
    if s == [] then 0 else ParseNat(s[..|s| - 1]) * 10 + (s[|s| - 1] as int - '0' as int)
  }

  /** Rendering a number and reading it back gives the number. */
  lemma {:induction false} ParseNatToString(n: nat)
    ensures ParseNat(NatToString(n)) == n
    decreases n
  {
    var s := NatToString(n);
    if n >= 10 {
      assert s[..|s| - 1] == NatToString(n / 10);
      ParseNatToString(n / 10);
    }
  }

  /** NatToString is injective, so a rendered number determines the number. */
  lemma NatToStringInjective(m: nat, n: nat)
    requires NatToString(m) == NatToString(n)
    ensures m == n
  {
    ParseNatToString(m);
    ParseNatToString(n);
  }
}
