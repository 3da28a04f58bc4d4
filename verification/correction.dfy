/**
  The positional substitution shared by all three `smart_correction`
  variants, and the simple variant used by ocr_server.py and ocr_engine.py
  (clean, strip one leading "PL", substitute by position, keep 8 characters).

  Positions 0 and 1 are the letter zone of a Polish plate: digits that look
  like letters become those letters. Positions 2 onward are the mixed zone:
  letters that look like a zero become '0'.
 */
module Correction {
  import opened PlateText

  /** The two substitution tables in the repository. `Full` is the one in
      ocr.py and ocr_server.py; `Narrow` is the one in ocr_engine.py. */
  datatype Table = Full | Narrow

  /** Letter zone (indices 0 and 1). */
  function LetterZone(t: Table, c: char): char {
    match t
    case Full =>
      if c == '0' then 'O' else if c == '1' then 'I' else if c == '2' then 'Z'
      else if c == '5' then 'S' else if c == '6' then 'G' else if c == '8' then 'B'
      else if c == '4' then 'A' else c
    case Narrow =>
      if c == '0' then 'O' else if c == '1' then 'I' else if c == '5' then 'S'
      else if c == '8' then 'B' else c
  }

  /** Mixed zone (indices 2 and above). */
  function MixedZone(t: Table, c: char): char {
    match t
    case Full => if c == 'O' || c == 'Q' || c == 'D' then '0' else c
    case Narrow => if c == 'O' || c == 'Q' then '0' else c
  }

  function SubstituteAt(t: Table, i: nat, c: char): char {
    if i < 2 then LetterZone(t, c) else MixedZone(t, c)
  }

  /** The characters a table rewrites in the letter zone and in the mixed zone. */
  function LetterZoneSources(t: Table): string {
    match t
    case Full => "0125684"
    case Narrow => "0158"
  }

  function MixedZoneSources(t: Table): string {
    match t
    case Full => "OQD"
    case Narrow => "OQ"
  }

  /** Substitutes the characters of `s`, the first of which sits at index `from`
      of the whole text. */
  function SubstituteFrom(t: Table, s: string, from: nat): (r: string)
    ensures |r| == |s|
    ensures forall i :: 0 <= i < |s| ==> r[i] == SubstituteAt(t, from + i, s[i])
  {
    if |s| == 0 then [] else [SubstituteAt(t, from, s[0])] + SubstituteFrom(t, s[1..], from + 1)
  }

  /** The `for i in range(len(chars))` loop of `smart_correction`. */
  function Substitute(t: Table, s: string): (r: string)
    ensures |r| == |s|
    ensures forall i :: 0 <= i < |s| ==> r[i] == SubstituteAt(t, i, s[i])
  {
    SubstituteFrom(t, s, 0)
  }

  /** A character changes only when the table lists it for its zone; then
      the letter zone holds a letter and the mixed zone holds '0'. */
  lemma SubstituteChangesOnlyListed(t: Table, s: string, i: nat)
    requires i < |s|
    ensures Substitute(t, s)[i] != s[i] <==>
              (i < 2 && s[i] in LetterZoneSources(t)) || (i >= 2 && s[i] in MixedZoneSources(t))
    ensures Substitute(t, s)[i] != s[i] && i < 2 ==> IsUpperLetter(Substitute(t, s)[i])
    ensures Substitute(t, s)[i] != s[i] && i >= 2 ==> Substitute(t, s)[i] == '0'
  {
  }

  /** After substitution the letter zone holds no listed digit and the mixed
      zone holds no listed letter. */
  lemma SubstituteClearsSources(t: Table, s: string, i: nat)
    requires i < |s|
    ensures i < 2 ==> Substitute(t, s)[i] !in LetterZoneSources(t)
    ensures i >= 2 ==> Substitute(t, s)[i] !in MixedZoneSources(t)
  {
  }

  /** The substitution keeps text inside the plate alphabet. */
  lemma SubstitutePreservesAlphabet(t: Table, s: string)
    requires IsPlateText(s)
    ensures IsPlateText(Substitute(t, s))
  {
    var r := Substitute(t, s);
    forall i | 0 <= i < |s|
      ensures IsPlateChar(r[i])
    {
      assert IsPlateChar(s[i]);
    }
  }

  /** Substituting twice is substituting once. */
  lemma SubstituteIdempotent(t: Table, s: string)
    ensures Substitute(t, Substitute(t, s)) == Substitute(t, s)
  {
    var r := Substitute(t, s);
    var rr := Substitute(t, r);
    forall i | 0 <= i < |s|
      ensures rr[i] == r[i]
    {
      SubstituteClearsSources(t, s, i);
      SubstituteChangesOnlyListed(t, r, i);
    }
  }

  /** The narrow table of ocr_engine.py never rewrites D, 2, 4 or 6. */
  lemma NarrowKeepsUnlisted(s: string, i: nat)
    requires i < |s| && s[i] in "D246"
    ensures Substitute(Narrow, s)[i] == s[i]
  {
  }

  /** The full table subsumes the narrow one: applying the full table after
      the narrow one is the same as applying the full table alone. */
  lemma FullAfterNarrow(s: string)
    ensures Substitute(Full, Substitute(Narrow, s)) == Substitute(Full, s)
  {
    var n := Substitute(Narrow, s);
    assert forall i :: 0 <= i < |s| ==> Substitute(Full, n)[i] == Substitute(Full, s)[i];
  }

  /** Removes one leading "PL" (the country code) when present. */
  function StripPL(s: string): (r: string)
    ensures StartsWith(s, "PL") ==> s == "PL" + r
    ensures !StartsWith(s, "PL") ==> r == s
  {
    if StartsWith(s, "PL") then s[2..] else s
  }

  /** `smart_correction(detected)` of ocr_server.py (table `Full`) and of
      ocr_engine.py (table `Narrow`). */
  function SimpleCorrection(t: Table, detected: string): (r: string)
    ensures |r| <= 8
    ensures IsPlateText(r)
  {
    var stripped := StripPL(CleanStrict(detected));
    SubstitutePreservesAlphabet(t, stripped);
    Take(Substitute(t, stripped), 8)
  }

  function ServerCorrection(detected: string): (r: string)
    ensures |r| <= 8 && IsPlateText(r)
  {
    SimpleCorrection(Full, detected)
  }

  function EngineCorrection(detected: string): (r: string)
    ensures |r| <= 8 && IsPlateText(r)
  {
    SimpleCorrection(Narrow, detected)
  }

  /** Position by position, the simple correction is the table applied to the
      cleaned text without its "PL", cut to 8 characters. */
  lemma SimpleCorrectionPointwise(t: Table, detected: string)
    ensures var s := StripPL(CleanStrict(detected));
      && |SimpleCorrection(t, detected)| == (if |s| <= 8 then |s| else 8)
      && forall i :: 0 <= i < |SimpleCorrection(t, detected)| ==>
           SimpleCorrection(t, detected)[i] == SubstituteAt(t, i, s[i])
  {
  }

  /** "PL" is stripped once, whatever the length: after a doubled "PL" the
      corrected text still begins with "PL". */
  lemma DoubledPLLeavesOne(t: Table, rest: string)
    requires IsPlateText(rest)
    ensures StartsWith(SimpleCorrection(t, "PLPL" + rest), "PL")
  {
    DoubledPLStripsOnce(rest);
    assert ("PL" + rest)[..2] == "PL";
    KeepsLeadingPL(t, "PLPL" + rest);
  }

  /** A leading "PL" left after the strip survives the letter zone. */
  lemma KeepsLeadingPL(t: Table, detected: string)
    requires StartsWith(StripPL(CleanStrict(detected)), "PL")
    ensures StartsWith(SimpleCorrection(t, detected), "PL")
  {
    SubstituteKeepsPL(t, StripPL(CleanStrict(detected)));
  }

  lemma SubstituteKeepsPL(t: Table, s: string)
    requires StartsWith(s, "PL")
    ensures StartsWith(Take(Substitute(t, s), 8), "PL")
  {
    assert s[0] == 'P' && s[1] == 'L' by { assert s[..2] == "PL"; }
    var sub := Substitute(t, s);
    assert sub[0] == 'P' && sub[1] == 'L' by {
      assert sub[0] == LetterZone(t, 'P') && sub[1] == LetterZone(t, 'L');
    }
    var r := Take(sub, 8);
    assert r[..2] == sub[..2] == "PL";
  }

  lemma DoubledPLStripsOnce(rest: string)
    requires IsPlateText(rest)
    ensures StripPL(CleanStrict("PLPL" + rest)) == "PL" + rest
  {
    var d := "PLPL" + rest;
    assert IsPlateText(d) by {
      forall i | 0 <= i < |d| ensures IsPlateChar(d[i]) {
        if i >= 4 { assert d[i] == rest[i - 4]; }
      }
    }
    assert CleanStrict(d) == d;
    assert d == "PL" + ("PL" + rest);
  }

  /** Where the two simple variants part: a 'D' in the mixed zone becomes '0'
      under the full table of ocr_server.py and stays 'D' under the narrow
      table of ocr_engine.py. */
  lemma MixedZoneDDiffers(detected: string, i: nat)
    requires var s := StripPL(CleanStrict(detected)); 2 <= i < 8 && i < |s| && s[i] == 'D'
    ensures ServerCorrection(detected)[i] == '0'
    ensures EngineCorrection(detected)[i] == 'D'
  {
    SimpleCorrectionPointwise(Full, detected);
    SimpleCorrectionPointwise(Narrow, detected);
  }

  /** No corrected text begins with "ERROR": both tables turn an 'O' at
      index 3 into '0'. So a plate reading can never be mistaken for an error
      reply by a client that tests for that prefix. */
  lemma NoPlateStartsWithError(t: Table, detected: string)
    ensures !StartsWith(SimpleCorrection(t, detected), "ERROR")
  {
    var r := SimpleCorrection(t, detected);
    if |r| > 3 {
      MixedZoneHasNoO(t, detected);
      NotStartingWithError(r);
    }
  }

  lemma MixedZoneHasNoO(t: Table, detected: string)
    requires |SimpleCorrection(t, detected)| > 3
    ensures SimpleCorrection(t, detected)[3] != 'O'
  {
    SimpleCorrectionPointwise(t, detected);
  }

  lemma NotStartingWithError(r: string)
    requires |r| > 3 && r[3] != 'O'
    ensures !StartsWith(r, "ERROR")
  {
    if |r| >= 5 {
      assert r[..5][3] == r[3];
      assert "ERROR"[3] == 'O';
    }
  }
}
