/** The string operations the services use, written out with Python's semantics:
    `endswith`, `lower` (ASCII letters only), `rstrip(c)`, `split(c)[-1]`,
    `replace(pat, '')`, zero-padded decimal fields and code-point ordering of `str`. */
module Text {

  predicate StartsWith(s: string, prefix: string) {
    |prefix| <= |s| && s[..|prefix|] == prefix
  }

  predicate EndsWith(s: string, suffix: string) {
    |suffix| <= |s| && s[|s| - |suffix|..] == suffix
  }

  /** `pat` occurs somewhere in `s`. */
  predicate Occurs(s: string, pat: string)
    decreases |s|
  {
    |pat| <= |s| && (s[..|pat|] == pat || (|s| > 0 && Occurs(s[1..], pat)))
  }

  function LowerChar(c: char): char {
    if 'A' <= c <= 'Z' then (c as int + 32) as char else c
  }

  /** `str.lower()` restricted to ASCII letters. */
  function Lower(s: string): (r: string)
    ensures |r| == |s|
  {
    seq(|s|, i requires 0 <= i < |s| => LowerChar(s[i]))
  }

  /** Case-insensitive suffix test `s.lower().endswith(suffix)` for a lower-case suffix. */
  predicate EndsWithNoCase(s: string, suffix: string) {
    EndsWith(Lower(s), suffix)
  }

  lemma LowerSuffix(s: string, n: nat)
    requires n <= |s|
    ensures Lower(s)[|s| - n..] == Lower(s[|s| - n..])
  {
  }

  /** `s.rstrip(c)`: drop every trailing `c`. The result is the longest prefix of `s`
      that does not end in `c`, and only copies of `c` were removed. */
  function RStrip(s: string, c: char): (r: string)
    decreases |s|
    ensures r <= s
    ensures r == [] || r[|r| - 1] != c
    ensures forall i :: |r| <= i < |s| ==> s[i] == c
  {
    if s != [] && s[|s| - 1] == c then RStrip(s[..|s| - 1], c) else s
  }

  /** Stripping the separator appended to a name that does not already end in it gives the name back. */
  lemma RStripAppended(s: string, c: char)
    requires s == [] || s[|s| - 1] != c
    ensures RStrip(s + [c], c) == s
  {
    assert (s + [c])[..|s|] == s;
  }

  /** `s.split(c)[-1]`: the part of `s` after its last `c`, or all of `s` when there is none. */
  function AfterLast(s: string, c: char): (r: string)
    decreases |s|
    ensures c !in r
    ensures EndsWith(s, r)
    ensures |r| < |s| ==> s[|s| - |r| - 1] == c
  {
    if s == [] then []
    else if s[|s| - 1] == c then []
    else AfterLast(s[..|s| - 1], c) + [s[|s| - 1]]
  }

  /** Splitting on `c` recovers the segment written after the final separator. */
  lemma {:induction false} AfterLastOf(p: string, c: char, t: string)
    requires c !in t
    ensures AfterLast(p + [c] + t, c) == t
  {
    var s := p + [c] + t;
    if t != [] {
      var t' := t[..|t| - 1];
      assert s[..|s| - 1] == p + [c] + t';
      AfterLastOf(p, c, t');
      assert t == t' + [t[|t| - 1]];
    }
  }

  /** `s.replace(pat, '')`: every occurrence of `pat` found by a left-to-right scan is removed. */
  function RemoveAll(s: string, pat: string): (r: string)
    requires pat != []
    decreases |s|
    ensures |r| <= |s|
  {
    if |s| < |pat| then s
    else if s[..|pat|] == pat then RemoveAll(s[|pat|..], pat)
    else [s[0]] + RemoveAll(s[1..], pat)
  }

  /** Removing ".lock" from `w + ".lock"` gives back `w` when `w` holds no ".lock" of its own:
      no occurrence can straddle the boundary because no proper prefix of ".lock" is also
      a suffix of it. */
  lemma {:induction false} RemoveLockSuffix(w: string)
    requires !Occurs(w, ".lock")
    ensures RemoveAll(w + ".lock", ".lock") == w
  {
    var pat := ".lock";
    var s := w + pat;
    if w == [] {
      assert s[..5] == pat;
      assert s[5..] == [];
    } else {
      if |w| >= 5 {
        assert s[..5] == w[..5];
      } else {
        assert s[|w|] == '.';
        assert pat[|w|] != '.';
        assert s[..5][|w|] != pat[|w|];
      }
      assert s[..5] != pat;
      assert s[1..] == w[1..] + pat;
      assert !Occurs(w[1..], pat);
      RemoveLockSuffix(w[1..]);
    }
  }

  // ---- decimal fields ----

  function Pow10(w: nat): nat {
    if w == 0 then 1 else 10 * Pow10(w - 1)
  }

  function DigitChar(d: nat): char
    requires d < 10
  {
    ('0' as int + d) as char
  }

  function DigitValue(c: char): int {
    c as int - '0' as int
  }

  /** `'%0*d' % (w, n)` for `n < 10^w`: the `w` low decimal digits of `n`, zero-padded. */
  function Fixed(n: nat, w: nat): (r: string)
    ensures |r| == w
    ensures forall i :: 0 <= i < |r| ==> '0' <= r[i] <= '9'
  {
    if w == 0 then [] else Fixed(n / 10, w - 1) + [DigitChar(n % 10)]
  }

  /** The number a string of decimal digits denotes. */
  function Value(s: string): int {
    if s == [] then 0 else Value(s[..|s| - 1]) * 10 + DigitValue(s[|s| - 1])
  }

  /** Reading a padded field back gives the number that was written. */
  lemma {:induction false} FixedValue(n: nat, w: nat)
    requires n < Pow10(w)
    ensures Value(Fixed(n, w)) == n
  {
    if w > 0 {
      FixedValue(n / 10, w - 1);
      var s := Fixed(n, w);
      assert s[..|s| - 1] == Fixed(n / 10, w - 1);
    }
  }

  /** Distinct numbers in range have distinct padded fields. */
  lemma FixedInjective(a: nat, b: nat, w: nat)
    requires a < Pow10(w) && b < Pow10(w)
    ensures Fixed(a, w) == Fixed(b, w) <==> a == b
  {
    FixedValue(a, w);
    FixedValue(b, w);
  }

  // ---- ordering of str ----

  /** Python's `a < b` on str: lexicographic by code point. */
  predicate LexLess(a: string, b: string)
    decreases |a|
  {
    if a == [] then b != []
    else if b == [] then false
    else if a[0] != b[0] then a[0] < b[0]
    else LexLess(a[1..], b[1..])
  }

  lemma {:induction false} LexLessIrreflexive(a: string)
    ensures !LexLess(a, a)
  {
    if a != [] {
      LexLessIrreflexive(a[1..]);
    }
  }

  lemma {:induction false} LexLessTransitive(a: string, b: string, c: string)
    requires LexLess(a, b) && LexLess(b, c)
    ensures LexLess(a, c)
  {
    if a != [] && b != [] && c != [] && a[0] == b[0] && b[0] == c[0] {
      LexLessTransitive(a[1..], b[1..], c[1..]);
    }
  }

  lemma {:induction false} LexLessTotal(a: string, b: string)
    ensures LexLess(a, b) || a == b || LexLess(b, a)
  {
    if a != [] && b != [] && a[0] == b[0] {
      LexLessTotal(a[1..], b[1..]);
      assert a == [a[0]] + a[1..];
      assert b == [b[0]] + b[1..];
    }
  }

  lemma {:induction false} LexLessAsymmetric(a: string, b: string)
    requires LexLess(a, b)
    ensures !LexLess(b, a)
  {
    if a != [] && b != [] && a[0] == b[0] {
      LexLessAsymmetric(a[1..], b[1..]);
    }
  }
}
