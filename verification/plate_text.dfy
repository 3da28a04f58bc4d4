/**
  Character classes and the string normalisations shared by the Python
  scripts and the Java services: upper-casing, the `[^A-Z0-9]` filter,
  Java's `String.trim` and Python's `str.strip`, prefixes and slicing.
 */
module PlateText {

  predicate IsUpperLetter(c: char) { 'A' <= c <= 'Z' }

  predicate IsDigit(c: char) { '0' <= c <= '9' }

  /** The plate alphabet A-Z0-9: exactly what `[^A-Z0-9]` does not remove. */
  predicate IsPlateChar(c: char) { IsUpperLetter(c) || IsDigit(c) }

  predicate IsPlateText(s: string) {
    forall i :: 0 <= i < |s| ==> IsPlateChar(s[i])
  }

  predicate AllLetters(s: string) {
    forall i :: 0 <= i < |s| ==> IsUpperLetter(s[i])
  }

  predicate StartsWith(s: string, prefix: string) {
    |prefix| <= |s| && s[..|prefix|] == prefix
  }

  /** Python's `s[:n]` for n >= 0. */
  function Take(s: string, n: nat): (r: string)
    ensures |r| <= n
    ensures |r| == if |s| <= n then |s| else n
    ensures StartsWith(s, r)
  {
    if |s| <= n then s else s[..n]
  }

  /** A prefix of plate text is plate text, and keeps every shorter prefix. */
  lemma TakeKeeps(s: string, n: nat, prefix: string)
    ensures IsPlateText(s) ==> IsPlateText(Take(s, n))
    ensures StartsWith(s, prefix) && |prefix| <= n ==> StartsWith(Take(s, n), prefix)
  {
    var r := Take(s, n);
    assert forall i :: 0 <= i < |r| ==> r[i] == s[i];
  }

  /** ASCII upper-casing of one character; every other character is left alone. */
  function UpperChar(c: char): (u: char)
    ensures 'a' <= c <= 'z' ==> IsUpperLetter(u)
    ensures !('a' <= c <= 'z') ==> u == c
  {
    if 'a' <= c <= 'z' then (c as int - 32) as char else c
  }

  /** Python's `str.upper`, restricted to the ASCII case mapping. */
  function Upper(s: string): (r: string)
    ensures |r| == |s|
    ensures forall i :: 0 <= i < |s| ==> r[i] == UpperChar(s[i])
  {
    if |s| == 0 then [] else [UpperChar(s[0])] + Upper(s[1..])
  }

  /** Removes every character outside A-Z0-9, keeping the rest in order:
      `re.sub(r'[^A-Z0-9]', '', s)` and `s.replaceAll("[^A-Z0-9]", "")`. */
  function KeepPlateChars(s: string): (r: string)
    ensures IsPlateText(r)
    ensures |r| <= |s|
    ensures IsPlateText(s) ==> r == s
    ensures forall c :: !IsPlateChar(c) ==> c !in r
    ensures forall c :: IsPlateChar(c) ==> (c in r <==> c in s)
  {
    if |s| == 0 then []
    else if IsPlateChar(s[0]) then [s[0]] + KeepPlateChars(s[1..])
    else KeepPlateChars(s[1..])
  }

  /** `clean_text_strict`: empty for an empty (falsy) input, otherwise the
      upper-cased text with everything outside A-Z0-9 removed. */
  function CleanStrict(text: string): (r: string)
    ensures IsPlateText(r)
    ensures |r| <= |text|
    ensures text == [] ==> r == []
    ensures IsPlateText(text) ==> r == text
    ensures forall i :: 0 <= i < |text| && IsPlateChar(UpperChar(text[i])) ==> UpperChar(text[i]) in r
  {
    if text == [] then [] else KeepPlateChars(Upper(text))
  }

  /** Every character of the cleaned text is an input character, upper-cased. */
  lemma CleanStrictDrawsFromInput(text: string)
    ensures forall c :: c in CleanStrict(text) ==> exists i :: 0 <= i < |text| && UpperChar(text[i]) == c
  {
    if text != [] {
      var u := Upper(text);
      forall c | c in CleanStrict(text) ensures exists i :: 0 <= i < |text| && UpperChar(text[i]) == c {
        assert c in u;
        var i :| 0 <= i < |u| && u[i] == c;
      }
    }
  }

  /** Upper-casing works character by character. */
  lemma {:induction false} UpperAppend(a: string, b: string)
    ensures Upper(a + b) == Upper(a) + Upper(b)
  {
    if a == [] {
      assert a + b == b;
    } else {
      assert (a + b)[0] == a[0] && (a + b)[1..] == a[1..] + b;
      UpperAppend(a[1..], b);
    }
  }

  /** Cleaning one character: the upper-cased character when it is A-Z or
      0-9, otherwise nothing. */
  lemma CleanStrictOfChar(c: char)
    ensures CleanStrict([c]) == if IsPlateChar(UpperChar(c)) then [UpperChar(c)] else []
  {
    var u := UpperChar(c);
    assert Upper([c]) == [u];
    assert [u][1..] == [];
    assert KeepPlateChars([u]) == (if IsPlateChar(u) then [u] else []) + KeepPlateChars([]);
  }

  /** Cleaning distributes over concatenation. With `CleanStrictOfChar` this
      determines the cleaned text completely: each character in order,
      upper-cased, kept exactly when it is then in A-Z0-9. */
  lemma CleanStrictAppend(a: string, b: string)
    ensures CleanStrict(a + b) == CleanStrict(a) + CleanStrict(b)
  {
    if a == [] {
      assert a + b == b;
    } else {
      UpperAppend(a, b);
      KeepPlateCharsAppend(Upper(a), Upper(b));
      if b == [] {
        assert a + b == a;
      }
    }
  }

  lemma UpperOfPlateText(s: string)
    requires IsPlateText(s)
    ensures Upper(s) == s
  {
  }

  /** Cleaning is idempotent. */
  lemma CleanStrictIdempotent(text: string)
    ensures CleanStrict(CleanStrict(text)) == CleanStrict(text)
  {
  }

  /** The filter distributes over concatenation, so it keeps characters in order. */
  lemma {:induction false} KeepPlateCharsAppend(a: string, b: string)
    ensures KeepPlateChars(a + b) == KeepPlateChars(a) + KeepPlateChars(b)
  {
    if |a| == 0 {
      assert a + b == b;
    } else {
      assert (a + b)[1..] == a[1..] + b;
      KeepPlateCharsAppend(a[1..], b);
    }
  }

  /** Python cleaning upper-cases before filtering; the Java filter does not,
      so it drops lower-case letters instead of keeping them. */
  lemma LowerCaseIsKeptByPythonDroppedByJava(c: char)
    requires 'a' <= c <= 'z'
    ensures CleanStrict([c]) == [UpperChar(c)]
    ensures KeepPlateChars([c]) == []
  {
    var u := UpperChar(c);
    assert Upper([c]) == [u];
    assert [u][1..] == [] && [c][1..] == [];
    assert KeepPlateChars([u]) == [u] + KeepPlateChars([]);
  }

  /** Java's case-insensitive comparison of two strings (ASCII case mapping). */
  predicate EqualsIgnoreCase(a: string, b: string) {
    |a| == |b| && forall i :: 0 <= i < |a| ==> UpperChar(a[i]) == UpperChar(b[i])
  }

  /** On strings over A-Z0-9, `equalsIgnoreCase` is plain equality. */
  lemma EqualsIgnoreCaseOnPlateText(a: string, b: string)
    requires IsPlateText(a) && IsPlateText(b)
    ensures EqualsIgnoreCase(a, b) <==> a == b
  {
    if EqualsIgnoreCase(a, b) {
      assert forall i :: 0 <= i < |a| ==> a[i] == b[i];
    }
  }

  /** The two whitespace notions in play. */
  datatype Whitespace =
    | JavaTrim    // `String.trim`: every character at or below U+0020
    | PythonStrip // `str.strip()` with no argument: Unicode white space

  predicate IsSpace(w: Whitespace, c: char) {
    match w
    case JavaTrim => c <= ' '
    case PythonStrip =>
      c == ' ' || ('\t' <= c <= '\r') || ('\U{1C}' <= c <= '\U{1F}')
      || c == '\U{85}' || c == '\U{A0}' || c == '\U{1680}'
      || ('\U{2000}' <= c <= '\U{200A}') || c == '\U{2028}' || c == '\U{2029}'
      || c == '\U{202F}' || c == '\U{205F}' || c == '\U{3000}'
  }

  /** Drops leading white space. */
  function TrimStart(w: Whitespace, s: string): (r: string)
    ensures |r| <= |s|
  {
    if |s| > 0 && IsSpace(w, s[0]) then TrimStart(w, s[1..]) else s
  }

  /** Drops trailing white space. */
  function TrimEnd(w: Whitespace, s: string): (r: string)
    ensures |r| <= |s|
  {
    if |s| > 0 && IsSpace(w, s[|s| - 1]) then TrimEnd(w, s[..|s| - 1]) else s
  }

  /** Removes white space from both ends: Java's `trim()` or Python's `strip()`. */
  function Trim(w: Whitespace, s: string): (r: string)
    ensures |r| <= |s|
  {
    TrimEnd(w, TrimStart(w, s))
  }

  /** `TrimStart` removes a prefix made of white space and stops at the first
      other character. */
  lemma {:induction false} TrimStartRemovesLeadingSpace(w: Whitespace, s: string)
    ensures var r := TrimStart(w, s);
      && r == s[|s| - |r|..]
      && (forall i :: 0 <= i < |s| - |r| ==> IsSpace(w, s[i]))
      && (r == [] || !IsSpace(w, r[0]))
  {
    if |s| > 0 && IsSpace(w, s[0]) {
      TrimStartRemovesLeadingSpace(w, s[1..]);
    }
  }

  /** `TrimEnd` removes a suffix made of white space and stops at the last
      other character. */
  lemma {:induction false} TrimEndRemovesTrailingSpace(w: Whitespace, s: string)
    ensures var r := TrimEnd(w, s);
      && r == s[..|r|]
      && (forall i :: |r| <= i < |s| ==> IsSpace(w, s[i]))
      && (r == [] || !IsSpace(w, r[|r| - 1]))
  {
    if |s| > 0 && IsSpace(w, s[|s| - 1]) {
      TrimEndRemovesTrailingSpace(w, s[..|s| - 1]);
    }
  }

  /** The trimmed text is a slice of the input with no white space at either
      end, and everything cut off is white space. */
  lemma TrimmedEnds(w: Whitespace, s: string)
    ensures var r := Trim(w, s);
      r == [] || (!IsSpace(w, r[0]) && !IsSpace(w, r[|r| - 1]))
  {
    var t := TrimStart(w, s);
    TrimStartRemovesLeadingSpace(w, s);
    TrimEndRemovesTrailingSpace(w, t);
    var r := TrimEnd(w, t);
    if r != [] {
      assert r[0] == t[0];
    }
  }

  /** A string with no white space at either end is its own trim. */
  lemma TrimOfTrimmed(w: Whitespace, s: string)
    requires s == [] || (!IsSpace(w, s[0]) && !IsSpace(w, s[|s| - 1]))
    ensures Trim(w, s) == s
  {
    if s != [] {
      assert TrimStart(w, s) == s;
      assert TrimEnd(w, s) == s;
    }
  }

  lemma PlateCharIsNotSpace(w: Whitespace, c: char)
    requires IsPlateChar(c)
    ensures !IsSpace(w, c)
  {
  }

  /** Plate text carries no white space of either kind, so trimming leaves it alone. */
  lemma TrimOfPlateText(w: Whitespace, s: string)
    requires IsPlateText(s)
    ensures Trim(w, s) == s
  {
    if s != [] {
      var first, last := s[0], s[|s| - 1];
      assert IsPlateChar(first) && IsPlateChar(last);
      PlateCharIsNotSpace(w, first);
      PlateCharIsNotSpace(w, last);
    }
    TrimOfTrimmed(w, s);
  }

  /** Trimming is idempotent. */
  lemma TrimIdempotent(w: Whitespace, s: string)
    ensures Trim(w, Trim(w, s)) == Trim(w, s)
  {
    TrimmedEnds(w, s);
    TrimOfTrimmed(w, Trim(w, s));
  }
}
