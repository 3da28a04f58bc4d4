/**
  The two Python entry points as seen from their standard output.

  ocr_engine.py is a long-lived line server: it loads the reader, prints
  "READY", then answers each request line with exactly one line until end of
  input or an "EXIT" line. ocr_server.py is a one-shot program that takes the
  image path from its command line and prints one line.

  The filesystem and EasyOCR are an oracle `probe` from path to what they do
  with that path.
 */
module Engine {
  import opened PlateText
  import opened Correction
  import opened Selection

  /** What the filesystem and EasyOCR do with one requested path. */
  datatype Probe =
    | Missing                    // `os.path.exists(path)` is false
    | Fails                      // reading or recognising the image raises
    | Texts(texts: seq<string>)  // `reader.readtext(img, detail=0)`

  /** One `sys.stdin.readline()` that returned something. `Line(s)` is a line
      whose text without its terminator is `s` (so `Line("")` is a blank line,
      which is truthy); `Undecodable` is a read that raised. End of input is
      the end of the sequence. */
  datatype Incoming = Line(text: string) | Undecodable

  /** The answer to one request path (ocr_engine.py lines 55-77). An empty path
      never exists on disk. */
  function Respond(path: string, probe: string -> Probe): (out: string)
    ensures out == "ERROR_FILE" || out == "ERROR_PROCESS" || out == "NONE"
            || (IsPlateText(out) && 4 <= |out| <= 8)
    ensures path == "" || probe(path).Missing? ==> out == "ERROR_FILE"
    ensures path != "" && probe(path).Fails? ==> out == "ERROR_PROCESS"
  {
    if path == "" then "ERROR_FILE"
    else match probe(path)
      case Missing => "ERROR_FILE"
      case Fails => "ERROR_PROCESS"
      case Texts(ts) =>
        EnginePlateShape(ts);
        EngineBest(Corrected(Narrow, ts))
  }

  /** A reply starts with "ERROR" exactly when the path is empty, missing or
      unreadable, and is "NONE" exactly when the image was read and no text
      qualified; a plate reading is neither. */
  lemma RespondClassifies(path: string, probe: string -> Probe)
    ensures StartsWith(Respond(path, probe), "ERROR") <==> path == "" || !probe(path).Texts?
    ensures Respond(path, probe) == "NONE" <==>
      path != "" && probe(path).Texts? && EngineBest(Corrected(Narrow, probe(path).texts)) == "NONE"
  {
    if path != "" && probe(path).Texts? {
      EngineBestNotError(probe(path).texts);
    }
  }

  /** Whether one read ends the loop: a line that strips to "EXIT". */
  predicate IsExit(item: Incoming) {
    item.Line? && Trim(PythonStrip, item.text) == "EXIT"
  }

  /** The single line written for a read that does not end the loop. */
  function Answer(item: Incoming, probe: string -> Probe): string {
    match item
    case Undecodable => "ERROR_PROCESS"
    case Line(text) => Respond(Trim(PythonStrip, text), probe)
  }

  /** The `while True` loop (lines 46-81): everything written after "READY". */
  function Serve(input: seq<Incoming>, probe: string -> Probe): seq<string> {
    if |input| == 0 then []
    else if IsExit(input[0]) then []
    else [Answer(input[0], probe)] + Serve(input[1..], probe)
  }

  /** The whole engine run: nothing when the reader fails to load (the script
      exits with status 1), otherwise "READY" followed by the loop's output. */
  function EngineRun(readerLoads: bool, input: seq<Incoming>, probe: string -> Probe): (out: seq<string>)
    ensures readerLoads <==> |out| > 0
    ensures readerLoads ==> out[0] == "READY" && out[1..] == Serve(input, probe)
  {
    if readerLoads then ["READY"] + Serve(input, probe) else []
  }

  /** Number of reads before the first one that ends the loop. */
  function ReadsBeforeExit(input: seq<Incoming>): (n: nat)
    ensures n <= |input|
    ensures forall i :: 0 <= i < n ==> !IsExit(input[i])
    ensures n < |input| ==> IsExit(input[n])
  {
    if |input| == 0 || IsExit(input[0]) then 0 else 1 + ReadsBeforeExit(input[1..])
  }

  /** Every read before the first "EXIT" gets exactly one answer, in order, and
      nothing after it is answered. */
  lemma {:induction false} OneAnswerPerRequest(input: seq<Incoming>, probe: string -> Probe)
    ensures |Serve(input, probe)| == ReadsBeforeExit(input)
    ensures forall i :: 0 <= i < ReadsBeforeExit(input) ==>
      Serve(input, probe)[i] == Answer(input[i], probe)
  {
    if |input| > 0 && !IsExit(input[0]) {
      OneAnswerPerRequest(input[1..], probe);
    }
  }

  /** A blank line does not end the loop: it is answered "ERROR_FILE". */
  lemma BlankLineIsAnswered(rest: seq<Incoming>, probe: string -> Probe)
    ensures Serve([Line("")] + rest, probe) == ["ERROR_FILE"] + Serve(rest, probe)
  {
    assert !IsExit(Line(""));
    assert ([Line("")] + rest)[1..] == rest;
  }

  /** Input after an "EXIT" line is never read. */
  lemma {:induction false} NothingAfterExit(before: seq<Incoming>, exitLine: string, after: seq<Incoming>, probe: string -> Probe)
    requires Trim(PythonStrip, exitLine) == "EXIT"
    ensures Serve(before + [Line(exitLine)] + after, probe) == Serve(before + [Line(exitLine)], probe)
  {
    if |before| == 0 {
      assert (before + [Line(exitLine)] + after)[0] == Line(exitLine);
      assert (before + [Line(exitLine)])[0] == Line(exitLine);
    } else {
      assert (before + [Line(exitLine)] + after)[1..] == before[1..] + [Line(exitLine)] + after;
      assert (before + [Line(exitLine)])[1..] == before[1..] + [Line(exitLine)];
      NothingAfterExit(before[1..], exitLine, after, probe);
    }
  }

  /** What ocr_server.py does with the image it was asked about. */
  datatype ServerRun =
    | Unreadable                 // `cv2.imread` returned None
    | Regions(raws: seq<string>) // the re-read text of each region EasyOCR found
    | Crash(message: string)     // loading the reader or recognising raised

  /** ocr_server.py run with the arguments `args` (its `sys.argv[1:]`): one
      line, "ERROR_ARGS" when no image path was given. */
  function ServerRunOutput(args: seq<string>, run: ServerRun): (out: seq<string>)
    ensures |out| == 1
    ensures |args| == 0 ==> out == ["ERROR_ARGS"]
  {
    if |args| == 0 then ["ERROR_ARGS"]
    else match run
      case Unreadable => ["ERROR_READ"]
      case Regions(raws) => [ServerBest(Corrected(Full, raws))]
      case Crash(message) => ["ERROR: " + message]
  }

  /** The full table turns every 'D' from index 2 onward into '0', so a text
      corrected by ocr_server.py never has a 'D' there. */
  lemma ServerCorrectionHasNoLateD(detected: string, i: nat)
    requires 2 <= i < |ServerCorrection(detected)|
    ensures ServerCorrection(detected)[i] != 'D'
  {
    SimpleCorrectionPointwise(Full, detected);
  }

  /** The plate ocr_server.py picks is never the text "READY". */
  lemma ServerPlateIsNotReady(raws: seq<string>)
    ensures ServerBest(Corrected(Full, raws)) != "READY"
  {
    var cs := Corrected(Full, raws);
    var r := ServerBest(cs);
    if r != "NONE" {
      var k :| 0 <= k < |cs| && cs[k] == r;
      ServerReadingIsNotReady(raws[k]);
    }
  }

  lemma ServerReadingIsNotReady(detected: string)
    ensures SimpleCorrection(Full, detected) != "READY"
  {
    if |ServerCorrection(detected)| == 5 {
      ServerCorrectionHasNoLateD(detected, 3);
      assert "READY"[3] == 'D';
    }
  }

  /** ocr_server.py never prints "READY", whatever it is given: its one line is
      an error, "NONE", or a corrected plate, and "READY" carries a 'D' at
      index 3 that the full table would have rewritten. */
  lemma ServerNeverReady(args: seq<string>, run: ServerRun)
    ensures ServerRunOutput(args, run)[0] != "READY"
  {
    if |args| > 0 {
      match run
      case Regions(raws) => ServerPlateIsNotReady(raws);
      case Crash(message) => assert ("ERROR: " + message)[0] == 'E';
      case Unreadable =>
    }
  }
}
