/** The string operations the scripts use: `lower()`, `strip()`,
    `replace(c, "")`, `in`, `startswith`, `isdigit()`, slicing `s[:n]`, and
    the ordering `<` of Python strings. */
module Text {
  import Calendar

  function LowerChar(c: char): char {
    if 'A' <= c <= 'Z' then (c as int + 32) as char else c
  }

  /** `s.lower()` on ASCII letters. */
  function Lower(s: string): (r: string)
    ensures |r| == |s|
  {
    seq(|s|, i requires 0 <= i < |s| => LowerChar(s[i]))
  }

  /** Lower-casing commutes with slicing. */
  lemma LowerSlice(s: string, i: int, j: int)
    requires 0 <= i <= j <= |s|
    ensures Lower(s[i..j]) == Lower(s)[i..j]
  {
  }

  predicate StartsWith(s: string, p: string) {
    |p| <= |s| && s[..|p|] == p
  }

  /** `p in s` for strings: p occurs in s at some position. */
  predicate Contains(s: string, p: string)
    decreases |s|
  {
    StartsWith(s, p) || (s != [] && Contains(s[1..], p))
  }

  /** p occurs in s starting at position i. */
  predicate OccursAt(s: string, p: string, i: int) {
    0 <= i <= |s| - |p| && s[i..i + |p|] == p
  }

  /** The recursive definition finds exactly the real occurrences. */
  lemma {:induction false} ContainsAt(s: string, p: string)
    ensures Contains(s, p) <==> exists i :: OccursAt(s, p, i)
    decreases |s|
  {
    if StartsWith(s, p) {
      assert OccursAt(s, p, 0);
    }
    if s != [] {
      ContainsAt(s[1..], p);
      if Contains(s[1..], p) {
        var i :| OccursAt(s[1..], p, i);
        assert s[i + 1..i + 1 + |p|] == s[1..][i..i + |p|];
        assert OccursAt(s, p, i + 1);
      }
      forall i | OccursAt(s, p, i)
        ensures Contains(s, p)
      {
        if i > 0 {
          assert s[1..][i - 1..i - 1 + |p|] == s[i..i + |p|];
          assert OccursAt(s[1..], p, i - 1);
        }
      }
    } else {
      forall i | OccursAt(s, p, i)
        ensures Contains(s, p)
      {
        assert i == 0;
      }
    }
  }

  /** The characters `str.isspace()` accepts in the ASCII range. */
  predicate IsSpace(c: char) {
    c == ' ' || '\t' <= c <= '\r' || '\U{1c}' <= c <= '\U{1f}'
  }

  /** Every character of s[i..j] is white space. */
  predicate AllSpace(s: string, i: int, j: int)
    requires 0 <= i <= j <= |s|
  {
    forall k :: i <= k < j ==> IsSpace(s[k])
  }

  /** The first position at or after k that is not white space (|s| if none). */
  function SkipSpace(s: string, k: nat): (i: nat)
    requires k <= |s|
    ensures k <= i <= |s| && (i == |s| || !IsSpace(s[i])) && AllSpace(s, k, i)
    decreases |s| - k
  {
    if k < |s| && IsSpace(s[k]) then SkipSpace(s, k + 1) else k
  }

  /** The end of s[i..j] once its trailing white space is dropped. */
  function DropSpace(s: string, i: nat, j: nat): (e: nat)
    requires i <= j <= |s|
    ensures i <= e <= j && (e == i || !IsSpace(s[e - 1])) && AllSpace(s, e, j)
    decreases j
  {
    if i < j && IsSpace(s[j - 1]) then DropSpace(s, i, j - 1) else j
  }

  /** s[i..j] is what is left of s once the white space at both ends goes. */
  predicate StripsTo(s: string, i: int, j: int) {
    0 <= i <= j <= |s| && AllSpace(s, 0, i) && AllSpace(s, j, |s|) &&
    (i == j || (!IsSpace(s[i]) && !IsSpace(s[j - 1])))
  }

  /** `s.strip()`: s without the white space at either end, and nothing else
      removed. */
  function Strip(s: string): (r: string)
    ensures r == [] || (!IsSpace(r[0]) && !IsSpace(r[|r| - 1]))
    ensures exists i, j :: StripsTo(s, i, j) && r == s[i..j]
  {
    var i := SkipSpace(s, 0);
    var j := DropSpace(s, i, |s|);
    assert StripsTo(s, i, j);
    s[i..j]
  }

  /** A text without white space at its ends, padded with white space on
      both sides, strips back to itself: `strip()` removes only the padding. */
  lemma StripPadded(a: string, m: string, b: string)
    requires forall k :: 0 <= k < |a| ==> IsSpace(a[k])
    requires forall k :: 0 <= k < |b| ==> IsSpace(b[k])
    requires m == [] || (!IsSpace(m[0]) && !IsSpace(m[|m| - 1]))
    ensures Strip(a + m + b) == m
  {
    var s := a + m + b;
    assert forall k :: 0 <= k < |a| ==> s[k] == a[k];
    assert forall k :: 0 <= k < |m| ==> s[|a| + k] == m[k];
    assert forall k :: 0 <= k < |b| ==> s[|a| + |m| + k] == b[k];
    assert StripsTo(s, |a|, |a| + |m|);
    var i := SkipSpace(s, 0);
    var j := DropSpace(s, i, |s|);
    assert Strip(s) == s[i..j];
    assert s[|a|..|a| + |m|] == m;
  }

  /** `s.replace(c, "")`: every occurrence of c removed, the rest kept. */
  function RemoveAll(s: string, c: char): (r: string)
    ensures c !in r
    ensures |r| <= |s|
    ensures forall x :: x in r <==> x in s && x != c
    decreases |s|
  {
    if s == [] then []
    else if s[0] == c then RemoveAll(s[1..], c)
    else [s[0]] + RemoveAll(s[1..], c)
  }

  /** Every other character is kept as often as it occurs. */
  lemma {:induction false} RemoveAllCount(s: string, c: char)
    ensures multiset(RemoveAll(s, c)) == multiset(s)[c := 0]
    decreases |s|
  {
    if s != [] {
      assert s == [s[0]] + s[1..];
      RemoveAllCount(s[1..], c);
    }
  }

  /** Removal works piece by piece, so the kept characters stay in order. */
  lemma {:induction false} RemoveAllAppend(a: string, b: string, c: char)
    ensures RemoveAll(a + b, c) == RemoveAll(a, c) + RemoveAll(b, c)
    decreases |a|
  {
    if a == [] {
      assert a + b == b;
    } else {
      assert (a + b)[0] == a[0] && (a + b)[1..] == a[1..] + b;
      RemoveAllAppend(a[1..], b, c);
    }
  }

  /** `s[:n]`. */
  function Prefix(s: string, n: nat): (r: string)
    ensures |r| <= n && StartsWith(s, r)
    ensures |s| >= n ==> |r| == n
    ensures |s| < n ==> r == s
  {
    if |s| <= n then s else s[..n]
  }

  /** `s.isdigit()` on ASCII text: non-empty, all decimal digits. */
  predicate IsDigits(s: string) {
    s != [] && forall i :: 0 <= i < |s| ==> '0' <= s[i] <= '9'
  }

  /** `str(n)` for a natural number: decimal digits, no leading zero. */
  function NaturalText(n: nat): (r: string)
    ensures r != [] && forall i :: 0 <= i < |r| ==> Calendar.IsDigitChar(r[i])
    ensures r[0] == '0' ==> n == 0
    decreases n
  {
    if n < 10 then [(48 + n) as char]
    else NaturalText(n / 10) + [(48 + n % 10) as char]
  }

  /** t is the decimal numeral of n: digits that spell n, with no leading
      zero. */
  predicate Spells(t: string, n: nat) {
    t != [] && (forall i :: 0 <= i < |t| ==> Calendar.IsDigitChar(t[i])) &&
    Calendar.DigitsValue(t) == n && (|t| == 1 || t[0] != '0')
  }

  /** `str(n)` spells n. */
  lemma {:induction false} NaturalTextSpells(n: nat)
    ensures Spells(NaturalText(n), n)
    decreases n
  {
    var r := NaturalText(n);
    if n < 10 {
      assert r[..0] == [];
    } else {
      NaturalTextSpells(n / 10);
      assert r[..|r| - 1] == NaturalText(n / 10);
    }
  }

  /** `str(n)` for an int. */
  function DecimalText(n: int): (r: string)
    ensures r != []
    ensures r[0] == '-' <==> n < 0
  {
    if n < 0 then "-" + NaturalText(-n) else NaturalText(n)
  }

  /** `str(n)` is a '-' for a negative n, then the numeral of |n|. */
  lemma DecimalTextSpells(n: int)
    ensures n < 0 ==> Spells(DecimalText(n)[1..], -n)
    ensures n >= 0 ==> Spells(DecimalText(n), n)
  {
    if n < 0 {
      assert DecimalText(n)[1..] == NaturalText(-n);
      NaturalTextSpells(-n);
    } else {
      NaturalTextSpells(n);
    }
  }

  // ---------- the order of Python strings ----------

  /** `a < b` for Python strings: lexicographic by code point, a proper
      prefix first. */
  predicate Below(a: string, b: string)
    decreases |a|
  {
    if a == [] then b != []
    else if b == [] then false
    else a[0] < b[0] || (a[0] == b[0] && Below(a[1..], b[1..]))
  }

  lemma {:induction false} BelowIrreflexive(a: string)
    ensures !Below(a, a)
    decreases |a|
  {
    if a != [] {
      BelowIrreflexive(a[1..]);
    }
  }

  lemma {:induction false} BelowTransitive(a: string, b: string, c: string)
    requires Below(a, b) && Below(b, c)
    ensures Below(a, c)
    decreases |a|
  {
    if a != [] && b != [] && c != [] && a[0] == b[0] == c[0] {
      BelowTransitive(a[1..], b[1..], c[1..]);
    }
  }

  lemma {:induction false} BelowTotal(a: string, b: string)
    ensures a == b || Below(a, b) || Below(b, a)
    decreases |a|
  {
    if a != [] && b != [] && a[0] == b[0] {
      BelowTotal(a[1..], b[1..]);
      if a[1..] == b[1..] {
        assert a == [a[0]] + a[1..] && b == [b[0]] + b[1..];
      }
    }
  }

  lemma BelowAsymmetric(a: string, b: string)
    requires Below(a, b)
    ensures !Below(b, a) && a != b
  {
    if Below(b, a) {
      BelowTransitive(a, b, a);
      BelowIrreflexive(a);
    }
    BelowIrreflexive(a);
  }
}
