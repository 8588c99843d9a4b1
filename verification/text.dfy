/** String operations the original takes from Python's `str`, `int`, `re` and
    `os.path`: substring search, `str.replace`, `str.split(sep)[0]`, decimal
    conversion in both directions, `posixpath.join` and list indexing. Each is
    given a definition close to Python's and the facts the rest of the model
    needs about it. */
module Text {
  import opened Wrappers

  predicate IsDigit(c: char) {
    '0' <= c <= '9'
  }

  predicate AllDigits(s: string) {
    forall i | 0 <= i < |s| :: IsDigit(s[i])
  }

  /** `p` occurs in `s` starting at index `i`. */
  predicate OccursAt(s: string, p: string, i: nat) {
    i + |p| <= |s| && s[i..i + |p|] == p
  }

  predicate StartsWith(s: string, p: string) {
    OccursAt(s, p, 0)
  }

  predicate EndsWith(s: string, p: string) {
    |p| <= |s| && OccursAt(s, p, |s| - |p|)
  }

  /** Regroupings of a six-part concatenation. */
  lemma Regroup<T>(a: seq<T>, b: seq<T>, c: seq<T>, d: seq<T>, e: seq<T>, f: seq<T>)
    ensures a + b + c + d + e + f == (a + b + c) + (d + e + f)
    ensures a + b + c + d + e + f == a + (b + c + d + e) + f
    ensures a + b + c + d + e + f == (a + b) + (c + d + e + f)
  {
  }

  /** The middle part of a three-part concatenation is recovered by
      slicing. */
  lemma Infix(pre: string, x: string, post: string)
    ensures (pre + x + post)[|pre|..|pre + x + post| - |post|] == x
  {
  }

  /** A concatenation starts with its first part. */
  lemma StartsWithConcat(a: string, b: string)
    ensures StartsWith(a + b, a)
  {
    assert (a + b)[..|a|] == a;
  }

  /** A concatenation ends with its last part. */
  lemma EndsWithConcat(a: string, b: string)
    ensures EndsWith(a + b, b)
  {
    assert (a + b)[|a|..] == b;
  }

  /** Python's `s.find(p, from)`: the first index at or after `from` where `p` occurs. */
  function Find(s: string, p: string, from: nat): (r: Option<nat>)
    decreases |s| - from
    ensures r.Some? ==> from <= r.value && OccursAt(s, p, r.value)
    ensures r.Some? ==> forall j | from <= j < r.value :: !OccursAt(s, p, j)
    ensures r.None? ==> forall j | from <= j :: !OccursAt(s, p, j)
  {
    if from + |p| > |s| then None
    else if OccursAt(s, p, from) then Some(from)
    else Find(s, p, from + 1)
  }

  /** Python's `p in s`. */
  predicate Contains(s: string, p: string) {
    Find(s, p, 0).Some?
  }

  lemma ContainsIff(s: string, p: string)
    ensures Contains(s, p) <==> exists j: nat :: OccursAt(s, p, j)
  {
  }

  /** Python's `s.split(sep)[0]`: everything before the first `sep`, or all of `s`. */
  function HeadBefore(s: string, sep: string): (r: string)
    ensures Contains(s, sep) ==> StartsWith(s, r + sep)
    ensures Contains(s, sep) ==> forall j | 0 <= j < |r| :: !OccursAt(s, sep, j)
    ensures !Contains(s, sep) ==> r == s
  {
    match Find(s, sep, 0)
    case None => s
    case Some(i) =>
      assert s[..i] + sep == s[..i + |sep|];
      s[..i]
  }

  // ---------------------------------------------------------------------------
  // str.replace

  /** Python's `s.replace(pat, rep)`: every non-overlapping occurrence of `pat`,
      scanning left to right, is replaced by `rep`. */
  function ReplaceAll(s: string, pat: string, rep: string): (r: string)
    requires |pat| > 0
    decreases |s|
    ensures |pat| == |rep| ==> |r| == |s|
  {
    if |s| == 0 then ""
    else if StartsWith(s, pat) then rep + ReplaceAll(s[|pat|..], pat, rep)
    else [s[0]] + ReplaceAll(s[1..], pat, rep)
  }

  lemma OccursInSuffix(s: string, p: string, k: nat, j: nat)
    requires k <= |s|
    ensures OccursAt(s[k..], p, j) <==> OccursAt(s, p, k + j)
  {
    if k + j + |p| <= |s| {
      assert s[k..][j..j + |p|] == s[k + j..k + j + |p|];
    }
  }

  /** A string without `pat` is left unchanged. */
  lemma {:induction false} ReplaceAbsent(s: string, pat: string, rep: string)
    requires |pat| > 0
    requires !Contains(s, pat)
    ensures ReplaceAll(s, pat, rep) == s
    decreases |s|
  {
    if |s| > 0 {
      assert !OccursAt(s, pat, 0);
      forall j: nat
        ensures !OccursAt(s[1..], pat, j)
      {
        OccursInSuffix(s, pat, 1, j);
      }
      assert !Contains(s[1..], pat);
      ReplaceAbsent(s[1..], pat, rep);
      assert s == [s[0]] + s[1..];
    }
  }

  /** The text before the first occurrence is copied verbatim. */
  lemma {:induction false} ReplaceCopiesPrefix(s: string, pat: string, rep: string, i: nat)
    requires |pat| > 0 && i <= |s|
    requires forall j | 0 <= j < i :: !OccursAt(s, pat, j)
    ensures ReplaceAll(s, pat, rep) == s[..i] + ReplaceAll(s[i..], pat, rep)
    decreases i
  {
    if i > 0 {
      assert !OccursAt(s, pat, 0);
      forall j | 0 <= j < i - 1
        ensures !OccursAt(s[1..], pat, j)
      {
        OccursInSuffix(s, pat, 1, j);
      }
      ReplaceCopiesPrefix(s[1..], pat, rep, i - 1);
      assert s[1..][i - 1..] == s[i..];
      assert s[..i] == [s[0]] + s[1..][..i - 1];
    }
  }

  /** A single occurrence of `pat` at `i` is replaced and nothing else changes. */
  lemma ReplaceUnique(s: string, pat: string, rep: string, i: nat)
    requires |pat| > 0
    requires OccursAt(s, pat, i)
    requires forall j | 0 <= j < i :: !OccursAt(s, pat, j)
    requires forall j | i + |pat| <= j :: !OccursAt(s, pat, j)
    ensures ReplaceAll(s, pat, rep) == s[..i] + rep + s[i + |pat|..]
  {
    ReplaceCopiesPrefix(s, pat, rep, i);
    var rest := s[i..];
    assert StartsWith(rest, pat) by {
      assert rest[..|pat|] == s[i..i + |pat|];
    }
    var tail := s[i + |pat|..];
    assert rest[|pat|..] == tail;
    forall j: nat
      ensures !OccursAt(tail, pat, j)
    {
      OccursInSuffix(s, pat, i + |pat|, j);
    }
    ReplaceAbsent(tail, pat, rep);
  }

  // ---------------------------------------------------------------------------
  // Path separators

  /** `s.replace('\\', '_').replace('/', '_')`, as the merge normalises paths. */
  function NormalizeSeparators(s: string): string {
    ReplaceAll(ReplaceAll(s, "\\", "_"), "/", "_")
  }

  function SeparatorToUnderscore(c: char): char {
    if c == '\\' || c == '/' then '_' else c
  }

  /** Replacing a one-character string is a character-wise substitution. */
  lemma {:induction false} ReplaceCharPointwise(s: string, a: char, b: char)
    ensures |ReplaceAll(s, [a], [b])| == |s|
    ensures forall i | 0 <= i < |s| :: ReplaceAll(s, [a], [b])[i] == (if s[i] == a then b else s[i])
    decreases |s|
  {
    if |s| > 0 {
      ReplaceCharPointwise(s[1..], a, b);
      if StartsWith(s, [a]) {
        assert s[0] == a;
        assert s[|[a]|..] == s[1..];
      }
    }
  }

  /** The two chained replacements map each separator to `_` and keep every other character. */
  lemma NormalizeIsPointwise(s: string)
    ensures |NormalizeSeparators(s)| == |s|
    ensures forall i | 0 <= i < |s| :: NormalizeSeparators(s)[i] == SeparatorToUnderscore(s[i])
  {
    ReplaceCharPointwise(s, '\\', '_');
    ReplaceCharPointwise(ReplaceAll(s, "\\", "_"), '/', '_');
  }

  // ---------------------------------------------------------------------------
  // Decimal numbers

  function DigitChar(d: nat): (c: char)
    requires d < 10
    ensures IsDigit(c)
  {
    ('0' as int + d) as char
  }

  function DigitValue(c: char): (d: nat)
    requires IsDigit(c)
    ensures d < 10 && DigitChar(d) == c
  {
    c as int - '0' as int
  }

  /** Python's `str(n)` for a non-negative int: no leading zeros. */
  function NatToString(n: nat): (s: string)
    ensures |s| > 0 && AllDigits(s)
    ensures s[0] != '0' || s == "0"
    decreases n
  {
    if n < 10 then [DigitChar(n)] else NatToString(n / 10) + [DigitChar(n % 10)]
  }

  /** Python's `str(i)`. */
  function IntToString(i: int): (s: string)
    ensures |s| > 0
  {
    if i < 0 then "-" + NatToString(-i) else NatToString(i)
  }

  /** Python's `int(s)` on a string of ASCII digits. */
  function DigitsValue(s: string): nat
    requires AllDigits(s)
    decreases |s|
  {
    if |s| == 0 then 0 else DigitsValue(s[..|s| - 1]) * 10 + DigitValue(s[|s| - 1])
  }

  /** `int(str(n)) == n`. */
  lemma {:induction false} DigitsValueOfNatToString(n: nat)
    ensures DigitsValue(NatToString(n)) == n
    decreases n
  {
    if n >= 10 {
      var s := NatToString(n);
      DigitsValueOfNatToString(n / 10);
      assert s[..|s| - 1] == NatToString(n / 10);
    }
  }

  lemma NatToStringInjective(a: nat, b: nat)
    ensures NatToString(a) == NatToString(b) <==> a == b
  {
    if NatToString(a) == NatToString(b) {
      DigitsValueOfNatToString(a);
      DigitsValueOfNatToString(b);
    }
  }

  lemma IntToStringInjective(a: int, b: int)
    ensures IntToString(a) == IntToString(b) <==> a == b
  {
    if IntToString(a) == IntToString(b) {
      if a < 0 && b < 0 {
        assert NatToString(-a) == IntToString(a)[1..];
        NatToStringInjective(-a, -b);
      } else if a >= 0 && b >= 0 {
        NatToStringInjective(a, b);
      }
    }
  }

  /** A digit string without a leading zero has a positive value. */
  lemma {:induction false} LeadingNonZeroPositive(s: string)
    requires AllDigits(s) && |s| > 0 && s[0] != '0'
    ensures DigitsValue(s) > 0
    decreases |s|
  {
    if |s| > 1 {
      LeadingNonZeroPositive(s[..|s| - 1]);
    }
  }

  /** `str(int(s)) == s` exactly for canonical digit strings: a zero-padded
      string such as "01" does not come back. */
  lemma {:induction false} NatToStringOfDigitsValue(s: string)
    requires AllDigits(s) && |s| > 0
    ensures NatToString(DigitsValue(s)) == s <==> (s[0] != '0' || s == "0")
    decreases |s|
  {
    if s[0] != '0' || s == "0" {
      var t := s[..|s| - 1];
      var d := DigitValue(s[|s| - 1]);
      if |t| == 0 {
        assert s == [s[0]];
      } else {
        assert t[0] == s[0];
        LeadingNonZeroPositive(t);
        NatToStringOfDigitsValue(t);
        var n := DigitsValue(s);
        assert n == DigitsValue(t) * 10 + d;
        assert n / 10 == DigitsValue(t) && n % 10 == d;
        assert s == t + [s[|s| - 1]];
      }
    }
  }

  function Pow10(k: nat): (r: nat)
    ensures r > 0
  {
    if k == 0 then 1 else 10 * Pow10(k - 1)
  }

  /** `len(str(n)) <= k` exactly when `n < 10**k`. */
  lemma {:induction false} NatToStringLength(n: nat, k: nat)
    requires k >= 1
    ensures |NatToString(n)| <= k <==> n < Pow10(k)
    decreases n
  {
    if n >= 10 {
      if k == 1 {
        assert |NatToString(n)| >= 2;
      } else {
        NatToStringLength(n / 10, k - 1);
        assert n / 10 < Pow10(k - 1) <==> n < Pow10(k) by {
          assert Pow10(k) == 10 * Pow10(k - 1);
          assert n == 10 * (n / 10) + n % 10;
        }
      }
    } else {
      assert Pow10(k) >= 10 by {
        assert Pow10(k) == 10 * Pow10(k - 1);
      }
    }
  }

  // ---------------------------------------------------------------------------
  // Paths and indexing

  /** `posixpath.join(a, b)` for two components. */
  function Join(a: string, b: string): (r: string)
    ensures StartsWith(b, "/") ==> r == b
    ensures !StartsWith(b, "/") ==> EndsWith(r, b)
    ensures !StartsWith(b, "/") ==> StartsWith(r, a) && |r| <= |a| + 1 + |b|
    ensures !StartsWith(b, "/") && a != "" && !EndsWith(a, "/") ==> r == a + "/" + b
    ensures !StartsWith(b, "/") && (a == "" || EndsWith(a, "/")) ==> r == a + b
  {
    if StartsWith(b, "/") then b
    else if a == "" || EndsWith(a, "/") then a + b
    else a + "/" + b
  }

  /** Python list indexing: an index in `-len .. -1` counts from the end,
      anything outside `-len .. len - 1` raises IndexError. */
  function PyIndex(len: nat, i: int): (r: Option<nat>)
    ensures r.Some? <==> -(len as int) <= i < len
    ensures r.Some? ==> r.value < len && (r.value == i || r.value == len + i)
  {
    if 0 <= i < len then Some(i) else if -(len as int) <= i < 0 then Some(len + i) else None
  }
}
