/**
 * The string operations of the Kotlin standard library that the engine relies on:
 * trim, dropLast, lowercase, equals(ignoreCase) and the regex class \s.
 */
module KotlinText {

  /**
   * Character.isSpaceChar: the Unicode space, line and paragraph separators
   * (general categories Zs, Zl and Zp).
   */
  predicate IsSpaceChar(c: char): (r: bool)
    ensures c as int < 0x100 ==> (r <==> c == ' ' || c == '\U{A0}')
    ensures r ==> c as int <= 0x3000
  {
    || c == ' '
    || c == '\U{A0}'
    || c == '\U{1680}'
    || ('\U{2000}' <= c <= '\U{200A}')
    || c == '\U{2028}'
    || c == '\U{2029}'
    || c == '\U{202F}'
    || c == '\U{205F}'
    || c == '\U{3000}'
  }

  /**
   * Kotlin's Char.isWhitespace: Character.isWhitespace or Character.isSpaceChar.
   * Java's isWhitespace is the separators other than the no-break ones plus the
   * ASCII controls 9-13 and 28-31, so the union is those controls and every separator.
   */
  predicate IsWhitespace(c: char): (r: bool)
    ensures c as int < 0x80 ==> (r <==> c == ' ' || ('\t' <= c <= '\r') || ('\U{1C}' <= c <= '\U{1F}'))
    ensures IsSpaceChar(c) ==> r
    ensures r ==> c as int <= 0x3000
  {
    ('\t' <= c <= '\r') || ('\U{1C}' <= c <= '\U{1F}') || IsSpaceChar(c)
  }

  /**
   * The regular-expression class \s of Android's java.util.regex, which is built
   * on ICU: the Unicode White_Space property. That is the ASCII controls 9-13,
   * the next line control U+0085 and every separator. Unlike Char.isWhitespace
   * it holds for U+0085 and not for the controls 28-31.
   */
  predicate IsRegexSpace(c: char): (r: bool)
    ensures IsSpaceChar(c) ==> r
    ensures c == '\U{0B}' || c == '\U{85}' ==> r
    ensures '\U{1C}' <= c <= '\U{1F}' ==> !r
    ensures c as int < 0x80 ==> (r <==> c == ' ' || ('\t' <= c <= '\r'))
  {
    ('\t' <= c <= '\r') || c == '\U{85}' || IsSpaceChar(c)
  }

  /**
   * How the two classes differ: a regex space is whitespace for trim, except
   * U+0085, which trim keeps; and whitespace is a regex space, except the
   * controls 28-31, which split does not cut at.
   */
  lemma RegexSpaceVersusWhitespace(c: char)
    ensures IsRegexSpace(c) <==> (IsWhitespace(c) && !('\U{1C}' <= c <= '\U{1F}')) || c == '\U{85}'
    ensures IsRegexSpace(c) && !IsWhitespace(c) <==> c == '\U{85}'
  {
  }

  /** Drops the leading whitespace of `s`. */
  function TrimStart(s: string): (r: string)
    ensures |r| <= |s| && r == s[|s| - |r|..]
    ensures r == [] || !IsWhitespace(r[0])
    ensures forall i :: 0 <= i < |s| - |r| ==> IsWhitespace(s[i])
  {
    if |s| > 0 && IsWhitespace(s[0]) then TrimStart(s[1..]) else s
  }

  /** Drops the trailing whitespace of `s`. */
  function TrimEnd(s: string): (r: string)
    ensures |r| <= |s| && r == s[..|r|]
    ensures r == [] || !IsWhitespace(r[|r| - 1])
    ensures forall i :: |r| <= i < |s| ==> IsWhitespace(s[i])
  {
    if |s| > 0 && IsWhitespace(s[|s| - 1]) then TrimEnd(s[..|s| - 1]) else s
  }

  /** TrimStart drops a leading whitespace character and goes on with the rest. */
  lemma TrimStartStep(s: string)
    requires s != [] && IsWhitespace(s[0])
    ensures TrimStart(s) == TrimStart(s[1..])
  {
  }

  /** TrimStart keeps a string that starts with a non-whitespace character. */
  lemma TrimStartKeeps(s: string)
    requires s != [] && !IsWhitespace(s[0])
    ensures TrimStart(s) == s
  {
  }

  /** TrimEnd keeps a string that ends with a non-whitespace character. */
  lemma TrimEndKeeps(s: string)
    requires s != [] && !IsWhitespace(s[|s| - 1])
    ensures TrimEnd(s) == s
  {
  }

  /** Kotlin's CharSequence.trim(): both ends, with Char.isWhitespace. */
  function Trim(s: string): (r: string)
    ensures |r| <= |s|
    ensures r == [] || (!IsWhitespace(r[0]) && !IsWhitespace(r[|r| - 1]))
    ensures exists a, b ::
              && 0 <= a <= b <= |s| && r == s[a..b]
              && (forall i :: 0 <= i < a ==> IsWhitespace(s[i]))
              && (forall i :: b <= i < |s| ==> IsWhitespace(s[i]))
  {
    TrimIsSlice(s);
    TrimEnd(TrimStart(s))
  }

  /** Trimming both ends leaves a slice with only whitespace around it. */
  lemma {:induction false} TrimIsSlice(s: string)
    ensures exists a, b ::
              && 0 <= a <= b <= |s| && TrimEnd(TrimStart(s)) == s[a..b]
              && (forall i :: 0 <= i < a ==> IsWhitespace(s[i]))
              && (forall i :: b <= i < |s| ==> IsWhitespace(s[i]))
  {
    var a, b := TrimBounds(s);
  }

  /** The bounds of the slice that trimming both ends leaves. */
  lemma {:induction false} TrimBounds(s: string) returns (a: nat, b: nat)
    ensures a <= b <= |s| && TrimEnd(TrimStart(s)) == s[a..b]
    ensures forall i :: 0 <= i < a ==> IsWhitespace(s[i])
    ensures forall i :: b <= i < |s| ==> IsWhitespace(s[i])
  {
    var x := TrimStart(s);
    var r := TrimEnd(x);
    a := |s| - |x|;
    b := a + |r|;
    TrailingWhitespaceOfSuffix(s, a, |r|);
    assert r == s[a..b];
  }

  /** `k` is the position of the last non-whitespace character of `s`. */
  predicate LastNonWhitespaceAt(s: string, k: int)
  {
    0 <= k < |s| && !IsWhitespace(s[k]) && forall j :: k < j < |s| ==> IsWhitespace(s[j])
  }

  /** `j` is the position of the first non-whitespace character of `s`. */
  predicate FirstNonWhitespaceAt(s: string, j: int)
  {
    0 <= j < |s| && !IsWhitespace(s[j]) && forall i :: 0 <= i < j ==> IsWhitespace(s[i])
  }

  /** There is at most one first non-whitespace character. */
  lemma FirstNonWhitespaceUnique(s: string, j: int, j': int)
    requires FirstNonWhitespaceAt(s, j) && FirstNonWhitespaceAt(s, j')
    ensures j == j'
  {
  }

  /** There is at most one last non-whitespace character. */
  lemma LastNonWhitespaceUnique(s: string, k: int, k': int)
    requires LastNonWhitespaceAt(s, k) && LastNonWhitespaceAt(s, k')
    ensures k == k'
  {
  }

  /** Trim gives the empty string exactly when `s` is all whitespace. */
  lemma TrimEmptyIff(s: string)
    ensures Trim(s) == [] <==> forall i :: 0 <= i < |s| ==> IsWhitespace(s[i])
  {
    var x := TrimStart(s);
    var r := TrimEnd(x);
    if r == [] {
      assert x == [];
    } else {
      var off := |s| - |x|;
      assert s[off + |r| - 1] == x[|r| - 1];
    }
  }

  /**
   * `tr` is the non-empty slice of `s` at position `a` that runs from the first
   * to the last non-whitespace character of `s`.
   */
  predicate TrimmedAt(s: string, tr: string, a: nat)
  {
    && a + |tr| <= |s| && tr == s[a..a + |tr|] && tr != []
    && FirstNonWhitespaceAt(s, a)
    && LastNonWhitespaceAt(s, a + |tr| - 1)
  }

  /** A non-empty trim is the slice between the first and the last non-whitespace character. */
  lemma {:induction false} TrimPositions(s: string) returns (a: nat)
    requires Trim(s) != []
    ensures TrimmedAt(s, Trim(s), a)
  {
    var b;
    a, b := TrimBounds(s);
    SliceBetweenWhitespace(s, Trim(s), a, b);
  }

  /**
   * A non-empty slice that starts and ends with non-whitespace and has only
   * whitespace around it runs from the first to the last non-whitespace character.
   */
  lemma {:induction false} SliceBetweenWhitespace(s: string, tr: string, a: nat, b: nat)
    requires a <= b <= |s| && tr == s[a..b] && tr != []
    requires !IsWhitespace(tr[0]) && !IsWhitespace(tr[|tr| - 1])
    requires forall i :: 0 <= i < a ==> IsWhitespace(s[i])
    requires forall i :: b <= i < |s| ==> IsWhitespace(s[i])
    ensures TrimmedAt(s, tr, a)
  {
    assert s[a] == tr[0];
    assert s[b - 1] == tr[|tr| - 1];
  }

  /** Whitespace at the end of a suffix is whitespace at the end of the whole string. */
  lemma TrailingWhitespaceOfSuffix(s: string, off: nat, n: nat)
    requires off <= |s| && forall i :: n <= i < |s| - off ==> IsWhitespace(s[off..][i])
    ensures forall j :: off + n <= j < |s| ==> IsWhitespace(s[j])
  {
    forall j | off + n <= j < |s| ensures IsWhitespace(s[j]) {
      assert s[j] == s[off..][j - off];
    }
  }

  /** A non-empty Trim ends with the last non-whitespace character of `s`. */
  lemma TrimLastChar(s: string)
    requires Trim(s) != []
    ensures exists k :: LastNonWhitespaceAt(s, k) && Trim(s)[|Trim(s)| - 1] == s[k]
  {
    var x := TrimStart(s);
    var r := TrimEnd(x);
    var off := |s| - |x|;
    assert x == s[off..];
    TrailingWhitespaceOfSuffix(s, off, |r|);
    var k := off + |r| - 1;
    assert s[k] == x[|r| - 1];
    assert LastNonWhitespaceAt(s, k);
  }

  /** Kotlin's dropLast(n): everything but the last `n` characters (empty when shorter). */
  function DropLast(s: string, n: nat): (r: string)
    ensures |r| == if |s| <= n then 0 else |s| - n
    ensures r == s[..|r|]
  {
    if |s| <= n then [] else s[..|s| - n]
  }

  predicate IsUpperAscii(c: char) { 'A' <= c <= 'Z' }
  predicate IsLowerAscii(c: char) { 'a' <= c <= 'z' }

  /** Character.isLetter, restricted to the ASCII letters. */
  predicate IsLetter(c: char): (r: bool)
    ensures r <==> ToLower(c) != ToUpper(c)
    ensures r ==> !IsWhitespace(c) && !IsRegexSpace(c)
  {
    IsUpperAscii(c) || IsLowerAscii(c)
  }

  /** Character.toLowerCase on ASCII; every other character is its own lower case. */
  function ToLower(c: char): (r: char)
    ensures IsUpperAscii(c) ==> IsLowerAscii(r) && r as int == c as int + 32
    ensures !IsUpperAscii(c) ==> r == c
  {
    if IsUpperAscii(c) then (c as int + 32) as char else c
  }

  /** Character.toUpperCase on ASCII; every other character is its own upper case. */
  function ToUpper(c: char): (r: char)
    ensures IsLowerAscii(c) ==> IsUpperAscii(r) && r as int == c as int - 32
    ensures !IsLowerAscii(c) ==> r == c
  {
    if IsLowerAscii(c) then (c as int - 32) as char else c
  }

  /** String.lowercase(), character by character. */
  function Lowercase(s: string): (r: string)
    ensures |r| == |s|
    ensures forall i :: 0 <= i < |s| ==> r[i] == ToLower(s[i])
  {
    seq(|s|, i requires 0 <= i < |s| => ToLower(s[i]))
  }

  /** Lowercasing twice is lowercasing once. */
  lemma LowercaseIdempotent(s: string)
    ensures Lowercase(Lowercase(s)) == Lowercase(s)
  {
  }

  /** String.equals(other, ignoreCase = true): same length, equal characters up to case. */
  predicate EqualsIgnoreCase(a: string, b: string): (r: bool)
    ensures a == b ==> r
    ensures r ==> |a| == |b|
  {
    |a| == |b| && forall i :: 0 <= i < |a| ==> ToLower(a[i]) == ToLower(b[i])
  }

  /** Two strings are equal ignoring case exactly when their lower-case forms are equal. */
  lemma EqualsIgnoreCaseIffSameLowercase(a: string, b: string)
    ensures EqualsIgnoreCase(a, b) <==> Lowercase(a) == Lowercase(b)
  {
    if Lowercase(a) == Lowercase(b) {
      forall i | 0 <= i < |a| ensures ToLower(a[i]) == ToLower(b[i]) {
        assert Lowercase(a)[i] == Lowercase(b)[i];
      }
    }
  }
}
