/**
 * The string operations the controllers and validators use, restricted to
 * ASCII: `char.IsWhiteSpace`, `string.IsNullOrWhiteSpace`, `Trim`, `ToLower`
 * and `Equals(..., StringComparison.OrdinalIgnoreCase)`.
 */
module Text {

  /** `char.IsWhiteSpace` on ASCII: tab, line feed, vertical tab, form feed, carriage return, space. */
  predicate IsWhiteSpace(c: char) {
    c == ' ' || '\t' <= c <= '\r'
  }

  predicate IsDigit(c: char) {
    '0' <= c <= '9'
  }

  predicate IsUpper(c: char) {
    'A' <= c <= 'Z'
  }

  predicate IsLower(c: char) {
    'a' <= c <= 'z'
  }

  predicate IsLetter(c: char) {
    IsUpper(c) || IsLower(c)
  }

  predicate AllDigits(s: string) {
    forall i :: 0 <= i < |s| ==> IsDigit(s[i])
  }

  /** `string.IsNullOrWhiteSpace`; the empty string also stands for `null`. */
  predicate IsBlank(s: string) {
    forall i :: 0 <= i < |s| ==> IsWhiteSpace(s[i])
  }

  function TrimStart(s: string): (r: string)
    ensures |r| <= |s|
  {
    if s != [] && IsWhiteSpace(s[0]) then TrimStart(s[1..]) else s
  }

  function TrimEnd(s: string): (r: string)
    ensures |r| <= |s|
  {
    if s != [] && IsWhiteSpace(s[|s| - 1]) then TrimEnd(s[..|s| - 1]) else s
  }

  /** `string.Trim()`: drops leading and trailing white space. */
  function Trim(s: string): string {
    TrimEnd(TrimStart(s))
  }

  function ToLowerChar(c: char): char {
    if IsUpper(c) then (c as int + 32) as char else c
  }

  function ToUpperChar(c: char): char {
    if IsLower(c) then (c as int - 32) as char else c
  }

  /** `string.ToLower()` (invariant culture, ASCII letters only). */
  function ToLower(s: string): (r: string)
    ensures |r| == |s|
    ensures forall i :: 0 <= i < |s| ==> r[i] == ToLowerChar(s[i])
  {
    if s == [] then [] else [ToLowerChar(s[0])] + ToLower(s[1..])
  }

  /**
   * `a.Equals(b, StringComparison.OrdinalIgnoreCase)`: .NET compares the
   * upper-case forms code unit by code unit.
   */
  predicate EqualsIgnoreCase(a: string, b: string) {
    |a| == |b| && forall i :: 0 <= i < |a| ==> ToUpperChar(a[i]) == ToUpperChar(b[i])
  }

  // ---------------------------------------------------------------- lemmas

  /** Comparing upper-case forms and comparing lower-case forms agree. */
  lemma EqualsIgnoreCaseIsLowerEquality(a: string, b: string)
    ensures EqualsIgnoreCase(a, b) <==> ToLower(a) == ToLower(b)
  {
    if ToLower(a) == ToLower(b) {
      assert |a| == |b|;
      forall i | 0 <= i < |a| ensures ToUpperChar(a[i]) == ToUpperChar(b[i]) {
        assert ToLower(a)[i] == ToLower(b)[i];
      }
    }
    if EqualsIgnoreCase(a, b) {
      assert forall i :: 0 <= i < |a| ==> ToLower(a)[i] == ToLower(b)[i];
    }
  }

  /** Against a name without capitals, ignoring case means comparing the lower-case form. */
  lemma EqualsIgnoreCaseOfLowerName(a: string, name: string)
    requires forall i :: 0 <= i < |name| ==> !IsUpper(name[i])
    ensures EqualsIgnoreCase(a, name) <==> ToLower(a) == name
  {
    EqualsIgnoreCaseIsLowerEquality(a, name);
    assert ToLower(name) == name;
  }

  /** Letter case plays no part in being white space. */
  lemma ToLowerCharWhiteSpace(c: char)
    ensures IsWhiteSpace(ToLowerChar(c)) <==> IsWhiteSpace(c)
  {
  }

  lemma ToLowerIdempotent(s: string)
    ensures ToLower(ToLower(s)) == ToLower(s)
  {
  }

  lemma {:induction false} TrimStartOfBlank(p: string, s: string)
    requires IsBlank(p)
    ensures TrimStart(p + s) == TrimStart(s)
  {
    if p != [] {
      assert (p + s)[0] == p[0] && IsWhiteSpace(p[0]);
      assert (p + s)[1..] == p[1..] + s;
      assert TrimStart(p + s) == TrimStart(p[1..] + s);
      TrimStartOfBlank(p[1..], s);
    } else {
      assert p + s == s;
    }
  }

  lemma {:induction false} TrimEndOfBlank(s: string, q: string)
    requires IsBlank(q)
    ensures TrimEnd(s + q) == TrimEnd(s)
  {
    if q != [] {
      var n := |s + q|;
      assert (s + q)[n - 1] == q[|q| - 1] && IsWhiteSpace(q[|q| - 1]);
      assert (s + q)[..n - 1] == s + q[..|q| - 1];
      assert TrimEnd(s + q) == TrimEnd(s + q[..|q| - 1]);
      TrimEndOfBlank(s, q[..|q| - 1]);
    } else {
      assert s + q == s;
    }
  }

  /** A blank tail behind a white-space head makes the whole text blank. */
  lemma BlankCons(s: string)
    requires s != [] && IsWhiteSpace(s[0])
    ensures IsBlank(s[1..]) ==> IsBlank(s)
  {
    if IsBlank(s[1..]) {
      forall i | 0 <= i < |s| ensures IsWhiteSpace(s[i]) {
        if i > 0 { assert s[i] == s[1..][i - 1]; }
      }
    }
  }

  /** Trimming the front either swallows `s` entirely or stops inside it. */
  lemma {:induction false} TrimStartAppend(s: string, q: string)
    ensures IsBlank(s) ==> TrimStart(s + q) == TrimStart(q)
    ensures !IsBlank(s) ==> TrimStart(s + q) == TrimStart(s) + q
  {
    if IsBlank(s) {
      TrimStartOfBlank(s, q);
    } else {
      assert s != [];
      assert (s + q)[0] == s[0];
      assert (s + q)[1..] == s[1..] + q;
      if IsWhiteSpace(s[0]) {
        BlankCons(s);
        TrimStartAppend(s[1..], q);
      }
    }
  }

  lemma {:induction false} TrimStartOfBlankIsEmpty(s: string)
    requires IsBlank(s)
    ensures TrimStart(s) == []
  {
    TrimStartOfBlank(s, []);
    assert s + [] == s;
  }

  /** `Trim` ignores any white space padding around its argument. */
  lemma TrimIgnoresPadding(p: string, s: string, q: string)
    requires IsBlank(p) && IsBlank(q)
    ensures Trim(p + s + q) == Trim(s)
  {
    assert p + s + q == p + (s + q);
    TrimStartOfBlank(p, s + q);
    TrimStartAppend(s, q);
    if IsBlank(s) {
      TrimStartOfBlankIsEmpty(q);
      TrimStartOfBlankIsEmpty(s);
    } else {
      TrimEndOfBlank(TrimStart(s), q);
    }
  }

  lemma {:induction false} TrimStartToLower(s: string)
    ensures TrimStart(ToLower(s)) == ToLower(TrimStart(s))
  {
    if s != [] {
      assert ToLower(s)[1..] == ToLower(s[1..]);
      ToLowerCharWhiteSpace(s[0]);
      TrimStartToLower(s[1..]);
    }
  }

  lemma {:induction false} TrimEndToLower(s: string)
    ensures TrimEnd(ToLower(s)) == ToLower(TrimEnd(s))
  {
    if s != [] {
      var n := |s|;
      assert ToLower(s)[..n - 1] == ToLower(s[..n - 1]);
      ToLowerCharWhiteSpace(s[n - 1]);
      TrimEndToLower(s[..n - 1]);
    }
  }

  /** A string that neither starts nor ends with white space is its own trim. */
  lemma TrimOfUnpadded(s: string)
    requires s != [] && !IsWhiteSpace(s[0]) && !IsWhiteSpace(s[|s| - 1])
    ensures Trim(s) == s
  {
  }

  /** Trimming and lower-casing can be done in either order. */
  lemma TrimToLowerCommute(s: string)
    ensures ToLower(Trim(s)) == Trim(ToLower(s))
  {
    TrimStartToLower(s);
    TrimEndToLower(TrimStart(s));
  }
}
