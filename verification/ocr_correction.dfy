/**
  The ground-truth-aware `smart_correction` of ocr.py (lines 45-129), the
  `choose_better` tie-break between alternative readings, and
  `analyze_character_errors`.

  The detection is cleaned, loses a leading "PL" only when it is longer than
  the cleaned expected text, goes through the full positional table, has its
  region prefix repaired from a list of Polish district codes, has its first
  three characters forced to those of a long alphabetic expected text, and is
  cut to 8 characters.
 */
module OcrCorrection {
  import opened Wrappers
  import opened PlateText
  import opened Correction

  /** Polish district codes, in the order the source searches them. */
  const PolishPrefixes: seq<string> := [
    "KR", "SK", "SO", "ST", "SL", "SZ", "SG", "SB", "SH", "SC", "SM", "SP", "SW", "SA",
    "CB", "KO", "CR", "KT", "GD", "WA", "WR", "PO", "LU", "BI", "OL", "RZ", "OP", "GC",
    "K", "S", "C", "W", "L", "R", "P", "B", "G", "O", "N", "E", "D", "T", "Z", "F"
  ]

  /** Every district code is one or two capital letters. */
  lemma PrefixesAreLetters()
    ensures forall k :: 0 <= k < |PolishPrefixes| ==>
      1 <= |PolishPrefixes[k]| <= 2 && AllLetters(PolishPrefixes[k])
  {
  }

  /** Which letter of a two-letter code a search compares. */
  datatype Slot = FirstLetter | SecondLetter

  predicate TwoLetterWith(p: string, slot: Slot, c: char) {
    |p| == 2 && p[if slot == FirstLetter then 0 else 1] == c
  }

  /** Index of the first two-letter code whose letter in `slot` is `c`:
      a `for prefix in POLISH_PREFIXES` loop that breaks on its first hit. */
  function FirstIndex(ps: seq<string>, slot: Slot, c: char): (r: Option<nat>)
    ensures r.Some? ==> r.value < |ps| && TwoLetterWith(ps[r.value], slot, c)
    ensures r.Some? ==> forall j :: 0 <= j < r.value ==> !TwoLetterWith(ps[j], slot, c)
    ensures r.None? <==> forall j :: 0 <= j < |ps| ==> !TwoLetterWith(ps[j], slot, c)
  {
    if |ps| == 0 then None
    else if TwoLetterWith(ps[0], slot, c) then Some(0)
    else match FirstIndex(ps[1..], slot, c)
      case Some(k) => Some(k + 1)
      case None => None
  }

  /** `any(prefix.startswith(c) and len(prefix) == 2 for prefix in ps)`. */
  predicate AnyTwoLetterStartingWith(ps: seq<string>, c: char) {
    exists j :: 0 <= j < |ps| && StartsWith(ps[j], [c]) && |ps[j]| == 2
  }

  /** The prefix repair of ocr.py lines 81-113, branch by branch as written,
      including two branches that can never change anything (see
      `DigitLetterBranchIsDead` and `InnerLoopIsDead`). On the plate alphabet,
      Python's `isalpha` is A-Z and `isdigit` is 0-9. */
  function RepairPrefix(det: string, expected: string): (r: string)
    requires IsPlateText(det) && IsPlateText(expected)
  {
    if |det| < 3 then det
    else
      var first, second := det[0], det[1];
      var firstIsLetter, secondIsLetter := IsUpperLetter(first), IsUpperLetter(second);
      if !firstIsLetter && secondIsLetter then
        match FirstIndex(PolishPrefixes, SecondLetter, first)
        case Some(k) => [PolishPrefixes[k][0]] + det
        case None => det
      else if firstIsLetter && !secondIsLetter then
        var rest := det[1..];
        var afterFirst :=
          match FirstIndex(PolishPrefixes, SecondLetter, first)
          case Some(k) =>
            if |rest| > 0 && (IsDigit(rest[0]) || |rest| >= 4) then [PolishPrefixes[k][0]] + det else det
          case None => det;
        if !AnyTwoLetterStartingWith(PolishPrefixes, first) then
          match FirstIndex(PolishPrefixes, FirstLetter, first)
          case Some(k) =>
            if |afterFirst| > 1 && IsDigit(afterFirst[1]) then PolishPrefixes[k] + afterFirst[1..] else afterFirst
          case None => afterFirst
        else afterFirst
      else if !firstIsLetter && !secondIsLetter then
        if |det| >= 4 && |expected| >= 2 && expected[..2] in PolishPrefixes then expected[..2] + det else det
      else det
  }

  /** No district code ends in a digit, so the digit-then-letter branch never
      finds a code to prepend. */
  lemma DigitLetterBranchIsDead(det: string, expected: string)
    requires IsPlateText(det) && IsPlateText(expected)
    requires |det| >= 3 && IsDigit(det[0]) && IsUpperLetter(det[1])
    ensures RepairPrefix(det, expected) == det
  {
    PrefixesAreLetters();
    assert FirstIndex(PolishPrefixes, SecondLetter, det[0]).None? by {
      forall j | 0 <= j < |PolishPrefixes|
        ensures !TwoLetterWith(PolishPrefixes[j], SecondLetter, det[0])
      {
        if |PolishPrefixes[j]| == 2 {
          assert IsUpperLetter(PolishPrefixes[j][1]);
        }
      }
    }
  }

  /** The inner loop runs only when no two-letter code starts with `c`, and
      then looks for a two-letter code that starts with `c`: it never fires. */
  lemma InnerLoopIsDead(c: char)
    requires !AnyTwoLetterStartingWith(PolishPrefixes, c)
    ensures FirstIndex(PolishPrefixes, FirstLetter, c).None?
  {
  }

  /** In the letter-then-digit branch the guard on the rest always holds, so
      the branch prepends the first letter of the first code ending in the
      detection's first letter, when there is one, and does nothing else. */
  lemma LetterDigitBranch(det: string, expected: string)
    requires IsPlateText(det) && IsPlateText(expected)
    requires |det| >= 3 && IsUpperLetter(det[0]) && IsDigit(det[1])
    ensures RepairPrefix(det, expected) ==
      match FirstIndex(PolishPrefixes, SecondLetter, det[0])
      case Some(k) => [PolishPrefixes[k][0]] + det
      case None => det
  {
    if !AnyTwoLetterStartingWith(PolishPrefixes, det[0]) {
      InnerLoopIsDead(det[0]);
    }
  }

  lemma PrependLetters(added: string, det: string)
    requires AllLetters(added) && IsPlateText(det)
    ensures var r := added + det;
      && r[|r| - |det|..] == det && r[..|r| - |det|] == added && IsPlateText(r)
  {
    var r := added + det;
    forall i | 0 <= i < |r| ensures IsPlateChar(r[i]) {
      if i < |added| { assert IsUpperLetter(added[i]); } else { assert r[i] == det[i - |added|]; }
    }
  }

  /** What the repair puts in front of the detection. */
  lemma RepairAddition(det: string, expected: string) returns (added: string)
    requires IsPlateText(det) && IsPlateText(expected)
    ensures |added| <= 2 && AllLetters(added)
    ensures RepairPrefix(det, expected) == added + det
  {
    added := [];
    if |det| >= 3 {
      var first, second := det[0], det[1];
      if !IsUpperLetter(first) && IsUpperLetter(second) {
        DigitLetterBranchIsDead(det, expected);
      } else if IsUpperLetter(first) && !IsUpperLetter(second) {
        LetterDigitBranch(det, expected);
        match FirstIndex(PolishPrefixes, SecondLetter, first)
        case Some(k) =>
          PrefixesAreLetters();
          added := [PolishPrefixes[k][0]];
        case None =>
      } else if !IsUpperLetter(first) && !IsUpperLetter(second) {
        if |det| >= 4 && |expected| >= 2 && expected[..2] in PolishPrefixes {
          PrefixesAreLetters();
          added := expected[..2];
        }
      }
    }
    assert RepairPrefix(det, expected) == added + det;
  }

  /** The repair only ever prepends up to two capital letters. */
  lemma RepairOnlyPrepends(det: string, expected: string)
    requires IsPlateText(det) && IsPlateText(expected)
    ensures var r := RepairPrefix(det, expected);
      && |det| <= |r| <= |det| + 2
      && r[|r| - |det|..] == det
      && AllLetters(r[..|r| - |det|])
      && IsPlateText(r)
  {
    var added := RepairAddition(det, expected);
    PrependLetters(added, det);
  }

  /** A leading "PL" is removed only when the cleaned detection is longer than
      the cleaned expected text (ocr.py line 58). */
  function StripPLIfLonger(det: string, expected: string): (r: string)
    ensures r != det <==> StartsWith(det, "PL") && |det| > |expected|
    ensures r != det ==> det == "PL" + r
  {
    if StartsWith(det, "PL") && |det| > |expected| then det[2..] else det
  }

  /** The last character of a detection that the override treats as unreliable. */
  predicate LastUncertain(det: string) {
    |det| == 0 || det[|det| - 1] in "651H4"
    || (!IsUpperLetter(det[|det| - 1]) && !IsDigit(det[|det| - 1]))
  }

  /** The override applies to expected texts of seven or more characters
      that start with three letters. */
  predicate OverrideApplies(expected: string) {
    |expected| >= 7 && AllLetters(expected[..3])
  }

  /** Lines 115-124: when the override applies, the expected text's first
      three letters replace the detection's first three whenever they differ,
      or when the detection has at least six characters and an unreliable last
      one. The second condition never changes anything: when the first three
      characters already agree, writing them again leaves the text as it was.
      So the detection changes exactly when its first three characters differ
      from the expected ones, and only those three are touched. */
  function OverrideWithExpected(det: string, expected: string): (r: string)
    ensures OverrideApplies(expected) ==> StartsWith(r, expected[..3])
    ensures OverrideApplies(expected) && |det| >= 3 ==> |r| == |det| && r[3..] == det[3..]
    ensures OverrideApplies(expected) && |det| < 3 ==> r == expected[..3] + det
    ensures !OverrideApplies(expected) ==> r == det
    ensures r != det <==> OverrideApplies(expected) && Take(det, 3) != expected[..3]
  {
    if OverrideApplies(expected) then
      var exp3 := expected[..3];
      var det3 := Take(det, 3);
      if (|det| >= 6 && LastUncertain(det)) || det3 != exp3 then
        if |det| >= 3 then
          assert det3 == exp3 ==> det == exp3 + det[3..] by {
            assert det == det[..3] + det[3..];
          }
          exp3 + det[3..]
        else exp3 + det
      else det
    else det
  }

  /** Lines 58-124 on cleaned texts: the PL rule, the positional
      substitution, the prefix repair and the override. */
  function CorrectCleaned(d: string, e: string): (r: string)
    requires IsPlateText(d) && IsPlateText(e)
    ensures IsPlateText(r)
    ensures OverrideApplies(e) ==> StartsWith(r, e[..3])
  {
    var stripped := StripPLIfLonger(d, e);
    var substituted := Substitute(Full, stripped);
    SubstitutePreservesAlphabet(Full, stripped);
    var repaired := RepairPrefix(substituted, e);
    RepairOnlyPrepends(substituted, e);
    OverrideKeepsAlphabet(repaired, e);
    OverrideWithExpected(repaired, e)
  }

  /** `smart_correction(detected, expected)` of ocr.py. */
  function SmartCorrection(detected: string, expected: string): (r: string)
    ensures |r| <= 8
    ensures IsPlateText(r)
    ensures var e := CleanStrict(expected);
      OverrideApplies(e) ==> StartsWith(r, e[..3])
  {
    var e := CleanStrict(expected);
    var corrected := CorrectCleaned(CleanStrict(detected), e);
    TakeKeeps(corrected, 8, if |e| >= 3 then e[..3] else []);
    Take(corrected, 8)
  }

  lemma OverrideKeepsAlphabet(det: string, expected: string)
    requires IsPlateText(det) && IsPlateText(expected)
    ensures IsPlateText(OverrideWithExpected(det, expected))
  {
    var r := OverrideWithExpected(det, expected);
    if r != det {
      var exp3 := expected[..3];
      var tail := if |det| >= 3 then det[3..] else det;
      assert r == exp3 + tail;
      forall i | 0 <= i < |r| ensures IsPlateChar(r[i]) {
        if i < 3 { assert r[i] == expected[i]; } else { assert r[i] == tail[i - 3]; }
      }
    }
  }

  /** The score `choose_better` gives a reading: 3 for starting with the
      expected text's first three characters, 2 for its first two, plus the
      reading's length. */
  function Score(s: string, expected: string): int {
    (if StartsWith(s, Take(expected, 3)) then 3 else 0)
    + (if StartsWith(s, Take(expected, 2)) then 2 else 0)
    + |s|
  }

  /** `choose_better(a, b, expected)` (ocr.py lines 258-264). */
  function ChooseBetter(a: string, b: string, expected: string): (r: string)
    ensures r == a || r == b
    ensures a == expected ==> r == a
    ensures a != expected && b == expected ==> r == b
    ensures a != expected && b != expected ==>
      Score(r, expected) >= Score(a, expected) && Score(r, expected) >= Score(b, expected)
    ensures a != expected && b != expected && Score(a, expected) == Score(b, expected) ==> r == a
  {
    if a == expected then a
    else if b == expected then b
    else if Score(a, expected) >= Score(b, expected) then a
    else b
  }

  /** The end of `process_plate_image` (lines 202-267): a primary reading of
      more than three characters is kept; otherwise the primary, the fallback
      and the segmented readings are compared pairwise with `ChooseBetter`. */
  function PickReading(primary: string, fallback: string, segmented: string, expected: string): (r: string)
    ensures r == primary || r == fallback || r == segmented
    ensures |primary| > 3 ==> r == primary
    ensures |primary| <= 3 && (primary == expected || fallback == expected || segmented == expected)
      ==> r == expected
  {
    if |primary| <= 3 then
      ChooseBetter(ChooseBetter(primary, fallback, expected), segmented, expected)
    else primary
  }

  /** One confusion entry, `f"{c_true}->{c_det}"`. */
  function Confusion(t: char, d: char): string {
    [t] + "->" + [d]
  }

  /** The indices below `n` where the two texts differ, in increasing order. */
  function DiffPositions(a: string, b: string, n: nat): (ps: seq<nat>)
    requires n <= |a| && n <= |b|
    ensures forall k :: 0 <= k < |ps| ==> ps[k] < n
  {
    if n == 0 then [] else DiffPositions(a, b, n - 1) + (if a[n - 1] != b[n - 1] then [n - 1] else [])
  }

  /** `DiffPositions` lists every differing index below `n`, and only those,
      in strictly increasing order. */
  lemma {:induction false} DiffPositionsSpec(a: string, b: string, n: nat)
    requires n <= |a| && n <= |b|
    ensures var ps := DiffPositions(a, b, n);
      && (forall k :: 0 <= k < |ps| ==> ps[k] < n && a[ps[k]] != b[ps[k]])
      && (forall k, l :: 0 <= k < l < |ps| ==> ps[k] < ps[l])
      && (forall i :: 0 <= i < n && a[i] != b[i] ==> i in ps)
  {
    if n > 0 {
      DiffPositionsSpec(a, b, n - 1);
    }
  }

  /** Two texts of one length have no differing positions exactly when they are equal. */
  lemma NoDiffPositionsIffEqual(a: string, b: string)
    requires |a| == |b|
    ensures DiffPositions(a, b, |a|) == [] <==> a == b
  {
    if a == b {
      SameTextsNoDiff(a, b, |a|);
    }
    if DiffPositions(a, b, |a|) == [] {
      NoDiffAgreeBelow(a, b, |a|);
      assert a == b;
    }
  }

  lemma {:induction false} SameTextsNoDiff(a: string, b: string, n: nat)
    requires n <= |a| && n <= |b| && a == b
    ensures DiffPositions(a, b, n) == []
  {
    if n > 0 {
      SameTextsNoDiff(a, b, n - 1);
    }
  }

  lemma {:induction false} NoDiffAgreeBelow(a: string, b: string, n: nat)
    requires n <= |a| && n <= |b| && DiffPositions(a, b, n) == []
    ensures forall i :: 0 <= i < n ==> a[i] == b[i]
  {
    if n > 0 {
      var front := DiffPositions(a, b, n - 1);
      assert |front| <= |DiffPositions(a, b, n)|;
      NoDiffAgreeBelow(a, b, n - 1);
    }
  }

  /** The confusion entries for the indices below `n`, in index order. */
  function Confusions(a: string, b: string, n: nat): seq<string>
    requires n <= |a| && n <= |b|
  {
    if n == 0 then []
    else Confusions(a, b, n - 1) + (if a[n - 1] != b[n - 1] then [Confusion(a[n - 1], b[n - 1])] else [])
  }

  /** The confusion entries are exactly those of the differing positions. */
  lemma {:induction false} ConfusionsAtDiffPositions(a: string, b: string, n: nat)
    requires n <= |a| && n <= |b|
    ensures var ps := DiffPositions(a, b, n);
      && |Confusions(a, b, n)| == |ps|
      && forall k :: 0 <= k < |ps| ==> Confusions(a, b, n)[k] == Confusion(a[ps[k]], b[ps[k]])
  {
    if n > 0 {
      ConfusionsAtDiffPositions(a, b, n - 1);
      var ps0, cs0 := DiffPositions(a, b, n - 1), Confusions(a, b, n - 1);
      var ps, cs := DiffPositions(a, b, n), Confusions(a, b, n);
      if a[n - 1] != b[n - 1] {
        assert ps == ps0 + [n - 1] && cs == cs0 + [Confusion(a[n - 1], b[n - 1])];
        forall k | 0 <= k < |ps| ensures cs[k] == Confusion(a[ps[k]], b[ps[k]]) {
          if k < |ps0| {
            assert cs[k] == cs0[k] && ps[k] == ps0[k];
          }
        }
      } else {
        assert ps == ps0 && cs == cs0;
      }
    }
  }

  /** `analyze_character_errors(expected, detected)`: nothing when the lengths
      differ, else one entry per differing index, in index order. */
  method AnalyzeCharacterErrors(expected: string, detected: string) returns (confusions: seq<string>)
    ensures |expected| != |detected| ==> confusions == []
    ensures |expected| == |detected| ==>
      var ps := DiffPositions(expected, detected, |expected|);
      && |confusions| == |ps|
      && forall k :: 0 <= k < |ps| ==> confusions[k] == Confusion(expected[ps[k]], detected[ps[k]])
    ensures |expected| == |detected| ==> (confusions == [] <==> expected == detected)
  {
    confusions := [];
    if |expected| == |detected| {
      var i := 0;
      while i < |expected|
        invariant 0 <= i <= |expected|
        invariant confusions == Confusions(expected, detected, i)
      {
        if expected[i] != detected[i] {
          confusions := confusions + [Confusion(expected[i], detected[i])];
        }
        i := i + 1;
      }
      ConfusionsAtDiffPositions(expected, detected, |expected|);
      NoDiffPositionsIffEqual(expected, detected);
    }
  }
}
