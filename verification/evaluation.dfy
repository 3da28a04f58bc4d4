/**
 * The Java evaluation run (EvaluationRunner): load the ground truth, pick at
 * most 100 ".jpg" images, ask the plate service for each annotated one,
 * compare cleaned texts, and grade accuracy and speed.  The directory
 * listing, the shuffle, the plate service and the elapsed time are
 * parameters.
 */
module Evaluation {
  import opened Wrappers
  import opened PlateText
  import opened Grading

  /** The largest test set; larger listings are shuffled and cut. */
  const MaxTestImages: nat := 100

  datatype Outcome =
    | EmptyGroundTruth       // the map was empty: an error line, no evaluation
    | ImagesMissing          // `listFiles` returned null: the run throws
    | Report(testSize: nat, processed: nat, correct: nat, accuracy: real, timeFor100: real, grade: real)

  predicate EndsWith(s: string, suffix: string) {
    |suffix| <= |s| && s[|s| - |suffix|..] == suffix
  }

  /** The file filter: names ending in ".jpg" (case-sensitive), listing order kept. */
  function JpgFiles(listing: seq<string>): (r: seq<string>)
    ensures |r| <= |listing|
    ensures forall name :: name in r <==> name in listing && EndsWith(name, ".jpg")
  {
    if listing == [] then []
    else (if EndsWith(listing[0], ".jpg") then [listing[0]] else []) + JpgFiles(listing[1..])
  }

  /** The images under test: all of them, or the first 100 of a shuffle. */
  function TestSet(files: seq<string>, shuffled: seq<string>): (r: seq<string>)
    requires multiset(shuffled) == multiset(files)
    ensures |r| == if |files| > MaxTestImages then MaxTestImages else |files|
    ensures multiset(r) <= multiset(files)
    ensures |files| <= MaxTestImages ==> r == files
  {
    if |files| > MaxTestImages then
      assert |shuffled| == |multiset(shuffled)| == |multiset(files)| == |files|;
      assert shuffled == shuffled[..MaxTestImages] + shuffled[MaxTestImages..];
      shuffled[..MaxTestImages]
    else files
  }

  /** The comparison of one image: both texts reduced to A-Z0-9 (lower case is
      dropped, not folded), compared ignoring case, and a blank prediction
      never counts. */
  predicate Matches(predicted: string, actual: string) {
    var p := KeepPlateChars(predicted);
    var a := KeepPlateChars(actual);
    EqualsIgnoreCase(p, a) && p != ""
  }

  /** After the cleaning, the case-insensitive comparison is exact equality. */
  lemma MatchesIsCleanEquality(predicted: string, actual: string)
    ensures Matches(predicted, actual) <==>
      KeepPlateChars(predicted) == KeepPlateChars(actual) && KeepPlateChars(predicted) != ""
  {
    EqualsIgnoreCaseOnPlateText(KeepPlateChars(predicted), KeepPlateChars(actual));
  }

  /** How many images of `ts` have ground truth. */
  function ProcessedCount(ts: seq<string>, truth: map<string, string>): nat {
    if ts == [] then 0
    else ProcessedCount(ts[..|ts| - 1], truth) + (if ts[|ts| - 1] in truth then 1 else 0)
  }

  /** How many images of `ts` have ground truth that the prediction matches. */
  function CorrectCount(ts: seq<string>, truth: map<string, string>, predict: string -> string): nat {
    if ts == [] then 0
    else
      var name := ts[|ts| - 1];
      CorrectCount(ts[..|ts| - 1], truth, predict)
        + (if name in truth && Matches(predict(name), truth[name]) then 1 else 0)
  }

  /** Images without ground truth are skipped: every image is processed
      exactly when every image is annotated. */
  lemma {:induction false} ProcessedCountBounds(ts: seq<string>, truth: map<string, string>)
    ensures ProcessedCount(ts, truth) <= |ts|
    ensures ProcessedCount(ts, truth) == |ts| <==> forall i :: 0 <= i < |ts| ==> ts[i] in truth
    ensures ProcessedCount(ts, truth) == 0 <==> forall i :: 0 <= i < |ts| ==> ts[i] !in truth
  {
    if ts != [] {
      var init := ts[..|ts| - 1];
      ProcessedCountBounds(init, truth);
      assert forall i :: 0 <= i < |init| ==> ts[i] == init[i];
    }
  }

  /** Only processed images can be correct. */
  lemma {:induction false} CorrectAtMostProcessed(ts: seq<string>, truth: map<string, string>, predict: string -> string)
    ensures CorrectCount(ts, truth, predict) <= ProcessedCount(ts, truth)
  {
    if ts != [] {
      CorrectAtMostProcessed(ts[..|ts| - 1], truth, predict);
    }
  }

  /** The evaluation loop (lines 50-65): counts processed and correct images. */
  method Tally(ts: seq<string>, truth: map<string, string>, predict: string -> string)
    returns (correct: nat, processed: nat)
    ensures processed == ProcessedCount(ts, truth)
    ensures correct == CorrectCount(ts, truth, predict)
    ensures correct <= processed <= |ts|
  {
    correct, processed := 0, 0;
    var i := 0;
    while i < |ts|
      invariant 0 <= i <= |ts|
      invariant processed == ProcessedCount(ts[..i], truth)
      invariant correct == CorrectCount(ts[..i], truth, predict)
    {
      assert ts[..i + 1][..i] == ts[..i];
      var name := ts[i];
      if name in truth {
        if Matches(predict(name), truth[name]) {
          correct := correct + 1;
        }
        processed := processed + 1;
      }
      i := i + 1;
    }
    assert ts[..i] == ts;
    CorrectAtMostProcessed(ts, truth, predict);
    ProcessedCountBounds(ts, truth);
  }

  /** The denominator: the processed count, forced to 1 when it is 0. */
  function Denominator(processed: nat): (d: nat)
    ensures d >= 1
    ensures processed > 0 ==> d == processed
  {
    if processed == 0 then 1 else processed
  }

  /** Accuracy in percent: 100 times the share of processed images that
      were correct. */
  function Accuracy(correct: nat, processed: nat): (a: real)
    requires correct <= processed
    ensures processed > 0 ==> a * processed as real == 100.0 * correct as real
    ensures 0.0 <= a <= 100.0
    ensures a == 0.0 <==> correct == 0
    ensures a == 100.0 <==> correct == processed && processed > 0
  {
    var d := Denominator(processed) as real;
    RatioBounds(correct as real, d);
    ScaledShare(correct as real, d);
    (correct as real / d) * 100.0
  }

  /** A share of a positive whole lies in [0, 1], with 0 and 1 only at the ends. */
  lemma RatioBounds(part: real, whole: real)
    requires whole >= 1.0 && 0.0 <= part <= whole
    ensures 0.0 <= part / whole <= 1.0
    ensures part / whole == 0.0 <==> part == 0.0
    ensures part / whole == 1.0 <==> part == whole
  {
    var q := part / whole;
    assert q * whole == part;
  }

  /** Scaling a share by 100 and multiplying back by the whole gives 100
      times the part. */
  lemma ScaledShare(part: real, whole: real)
    requires whole >= 1.0
    ensures (part / whole) * 100.0 * whole == 100.0 * part
  {
    var q := part / whole;
    assert q * whole == part;
    assert q * 100.0 * whole == 100.0 * (q * whole);
  }

  /** The elapsed time scaled to 100 processed images: the time per image
      times 100, with an empty run counted as one image. */
  function TimeFor100(timeSec: real, processed: nat): (t: real)
    ensures t * Denominator(processed) as real == 100.0 * timeSec
    ensures processed >= 1 ==> t * processed as real == 100.0 * timeSec
    ensures processed <= 1 ==> t == timeSec * 100.0
    ensures timeSec >= 0.0 ==> t >= 0.0
  {
    var d := Denominator(processed) as real;
    ScaledShare(timeSec, d);
    var t := (timeSec / d) * 100.0;
    assert processed <= 1 ==> d == 1.0 && t * d == t;
    t
  }

  /** `EvaluationRunner.run`. `listing` is the directory listing (None when
      the directory cannot be listed), `shuffled` the order the shuffle
      produced, `predict` the plate service and `timeSec` the loop's elapsed
      wall-clock time. */
  method Run(truth: map<string, string>, listing: Option<seq<string>>, shuffled: seq<string>,
             predict: string -> string, timeSec: real)
    returns (o: Outcome)
    requires listing.Some? ==> multiset(shuffled) == multiset(JpgFiles(listing.value))
    ensures truth == map[] <==> o == EmptyGroundTruth
    ensures o == ImagesMissing <==> truth != map[] && listing.None?
    ensures o.Report? ==>
      var ts := TestSet(JpgFiles(listing.value), shuffled);
      && o.testSize == |ts| <= MaxTestImages
      && o.processed == ProcessedCount(ts, truth)
      && o.correct == CorrectCount(ts, truth, predict)
      && o.correct <= o.processed <= o.testSize
      && o.accuracy == Accuracy(o.correct, o.processed)
      && o.timeFor100 == TimeFor100(timeSec, o.processed)
      && o.grade == FinalGrade(o.accuracy, o.timeFor100)
      && 2.0 <= o.grade <= 5.0
  {
    if truth == map[] {
      return EmptyGroundTruth;
    }
    if listing.None? {
      return ImagesMissing;
    }
    var ts := TestSet(JpgFiles(listing.value), shuffled);
    var correct, processed := Tally(ts, truth, predict);
    var accuracy := Accuracy(correct, processed);
    var timeFor100 := TimeFor100(timeSec, processed);
    o := Report(|ts|, processed, correct, accuracy, timeFor100, FinalGrade(accuracy, timeFor100));
  }
}
