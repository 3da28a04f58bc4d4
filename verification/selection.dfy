/**
  Choosing one plate among the texts EasyOCR returned for an image: the
  loop of `process_single_image` in ocr_server.py (lines 114-119) and the
  best-plate loop of ocr_engine.py (lines 66-73). Both correct every text
  and keep the longest corrected text of 4 to 9 characters; they differ in
  the starting value and the replacement test.

  Each loop is modelled by the index of the text it holds after the last
  iteration (-1 for its starting value), defined over the prefix it has seen.
 */
module Selection {
  import opened PlateText
  import opened Correction

  /** Length window both loops apply; after the cut to 8 characters it is 4..8. */
  predicate Qualifies(c: string) { 4 <= |c| <= 9 }

  /** The texts as the loops see them, each through `smart_correction`. */
  function Corrected(t: Table, raws: seq<string>): (cs: seq<string>)
    ensures |cs| == |raws|
    ensures forall i :: 0 <= i < |raws| ==> cs[i] == SimpleCorrection(t, raws[i])
  {
    seq(|raws|, i requires 0 <= i < |raws| => SimpleCorrection(t, raws[i]))
  }

  /** ocr_server.py: starting from "", only a qualifying text strictly longer
      than the current best replaces it. The result is the first longest
      qualifying text. */
  function ServerWinner(cs: seq<string>): (w: int)
    ensures -1 <= w < |cs|
    ensures w == -1 <==> forall j :: 0 <= j < |cs| ==> !Qualifies(cs[j])
    ensures w >= 0 ==> Qualifies(cs[w])
    ensures w >= 0 ==> forall j :: 0 <= j < |cs| && Qualifies(cs[j]) ==> |cs[j]| <= |cs[w]|
    ensures w >= 0 ==> forall j :: 0 <= j < w && Qualifies(cs[j]) ==> |cs[j]| < |cs[w]|
  {
    if |cs| == 0 then -1
    else
      var seen := cs[..|cs| - 1];
      var w := ServerWinner(seen);
      var best := if w < 0 then "" else seen[w];
      var text := cs[|cs| - 1];
      if Qualifies(text) && |text| > |best| then |cs| - 1 else w
  }

  /** `best_text if best_text else "NONE"`. */
  function ServerBest(cs: seq<string>): (r: string)
    ensures r == "NONE" || (r in cs && Qualifies(r))
    ensures (forall j :: 0 <= j < |cs| ==> !Qualifies(cs[j])) ==> r == "NONE"
  {
    var w := ServerWinner(cs);
    if w < 0 then "NONE" else cs[w]
  }

  /** ocr_engine.py: starting from the sentinel "NONE", a qualifying text
      replaces the current best when it is strictly longer or when the best
      equals "NONE". The result is the longest qualifying text, the first of
      its length among the texts that are not themselves "NONE". */
  function EngineWinner(cs: seq<string>): (w: int)
    ensures -1 <= w < |cs|
    ensures w >= 0 ==> Qualifies(cs[w])
    ensures var best := if w < 0 then "NONE" else cs[w];
      && (forall j :: 0 <= j < |cs| && Qualifies(cs[j]) ==> |cs[j]| <= |best|)
      && (best == "NONE" <==> forall j :: 0 <= j < |cs| && Qualifies(cs[j]) ==> cs[j] == "NONE")
      && (best != "NONE" ==>
            forall j :: 0 <= j < w && Qualifies(cs[j]) && cs[j] != "NONE" ==> |cs[j]| < |best|)
  {
    if |cs| == 0 then -1
    else
      var seen := cs[..|cs| - 1];
      var w := EngineWinner(seen);
      var best := if w < 0 then "NONE" else seen[w];
      var text := cs[|cs| - 1];
      if Qualifies(text) && (best == "NONE" || |text| > |best|) then |cs| - 1 else w
  }

  function EngineBest(cs: seq<string>): (r: string)
    ensures r == "NONE" || (r in cs && Qualifies(r))
    ensures forall j :: 0 <= j < |cs| && Qualifies(cs[j]) ==> |cs[j]| <= |r|
    ensures r == "NONE" <==> forall j :: 0 <= j < |cs| && Qualifies(cs[j]) ==> cs[j] == "NONE"
  {
    var w := EngineWinner(cs);
    if w < 0 then "NONE" else cs[w]
  }

  /** What `process_single_image` returns for the texts EasyOCR found:
      "NONE", or a corrected text of 4 to 8 characters. */
  lemma ServerPlateShape(raws: seq<string>)
    ensures var r := ServerBest(Corrected(Full, raws));
      r == "NONE" || (IsPlateText(r) && 4 <= |r| <= 8)
  {
  }

  /** The engine's best plate: "NONE", or a corrected text of 4 to 8 characters. */
  lemma EnginePlateShape(raws: seq<string>)
    ensures var r := EngineBest(Corrected(Narrow, raws));
      r == "NONE" || (IsPlateText(r) && 4 <= |r| <= 8)
  {
  }

  /** The engine's chosen plate never reads as one of its error replies. */
  lemma EngineBestNotError(raws: seq<string>)
    ensures !StartsWith(EngineBest(Corrected(Narrow, raws)), "ERROR")
  {
    var cs := Corrected(Narrow, raws);
    var r := EngineBest(cs);
    if r != "NONE" {
      var k :| 0 <= k < |cs| && cs[k] == r;
      NoPlateStartsWithError(Narrow, raws[k]);
    }
  }

  /** A reading that is itself "NONE" collides with the engine's sentinel: the
      next text of the same length replaces it, where the server keeps it. */
  lemma SentinelCollision()
    ensures EngineBest(["NONE", "ABCD"]) == "ABCD"
    ensures ServerBest(["NONE", "ABCD"]) == "NONE"
  {
    assert ["NONE", "ABCD"][..1] == ["NONE"];
    assert ["NONE"][..0] == [];
  }
}
