/**
  The two Java clients of the Python engine, PlateProcessingService and
  PythonOcrService, as pure step functions over an abstract channel: the
  lines the engine will still produce on its merged stdout/stderr, and the
  log of lines the client has written to the engine's stdin.
 */
module Clients {
  import opened Wrappers
  import opened PlateText

  /** One `reader.readLine()` that did not hit end of stream: a line, or an
      IOException. End of stream (`null`) is the end of the sequence. */
  datatype Read = Got(line: string) | ReadFails

  /** A client after `init`. `hasWriter` is false when `init` never ran;
      `alive` is false once the process has been destroyed. */
  datatype Session = Session(hasWriter: bool, alive: bool, pending: seq<Read>, sent: seq<string>)

  /** A bean whose `init` never ran: no process, no writer. */
  const Unstarted := Session(false, false, [], [])

  datatype StartupFailure =
    | LaunchFailed                    // `ProcessBuilder.start` threw
    | HandshakeFailed(first: Option<string>) // first line was null or not "READY"
    | HandshakeIo                     // reading the first line threw

  datatype Started = Ready(session: Session) | Failed(reason: StartupFailure)

  /** `init` of both services (PlateProcessingService lines 19-41,
      PythonOcrService lines 17-38): launch, read one line, accept only "READY". */
  function Init(launched: bool, output: seq<Read>): (r: Started)
    ensures r.Ready? <==> launched && |output| > 0 && output[0] == Got("READY")
    ensures r.Ready? ==> r.session == Session(true, true, output[1..], [])
  {
    if !launched then Failed(LaunchFailed)
    else if |output| == 0 then Failed(HandshakeFailed(None))
    else match output[0]
      case ReadFails => Failed(HandshakeIo)
      case Got(line) =>
        if line == "READY" then Ready(Session(true, true, output[1..], []))
        else Failed(HandshakeFailed(Some(line)))
  }

  /** The result of one request and the session after it. */
  datatype Exchange = Exchange(result: string, session: Session)

  /** The session after one request line was written and one reply was read
      (or end of stream was met). */
  function AfterRequest(s: Session, request: string): Session {
    s.(sent := s.sent + [request], pending := if |s.pending| == 0 then [] else s.pending[1..])
  }

  /** The reply a request reads: `None` for end of stream. */
  function NextReply(s: Session): Option<Read> {
    if |s.pending| == 0 then None else Some(s.pending[0])
  }

  /** PlateProcessingService's mapping of a reply line: "NONE" and any line
      beginning "ERROR" become "", anything else is returned as it is. */
  function PlateReply(line: string): (r: string)
    ensures r == "" <==> line == "" || line == "NONE" || StartsWith(line, "ERROR")
    ensures r != "" ==> r == line
  {
    if line == "NONE" || StartsWith(line, "ERROR") then "" else line
  }

  /** `PlateProcessingService.processImage` (lines 43-64). */
  function ProcessImage(s: Session, absolutePath: string, fileExists: bool, writeSucceeds: bool): (x: Exchange)
    ensures !fileExists || !s.hasWriter || !writeSucceeds ==> x == Exchange("", s)
    ensures fileExists && s.hasWriter && writeSucceeds ==>
      && x.session == AfterRequest(s, absolutePath)
      && x.result == match NextReply(s)
           case None => ""
           case Some(ReadFails) => ""
           case Some(Got(line)) => PlateReply(line)
    ensures x.session.hasWriter == s.hasWriter && x.session.alive == s.alive
  {
    if !fileExists || !s.hasWriter then Exchange("", s)
    else if !writeSucceeds then Exchange("", s)
    else
      var after := AfterRequest(s, absolutePath);
      match NextReply(s)
      case None => Exchange("", after)
      case Some(ReadFails) => Exchange("", after)
      case Some(Got(line)) => Exchange(PlateReply(line), after)
  }

  /** `PythonOcrService.analyzeImage` (lines 40-57). */
  function AnalyzeImage(s: Session, imagePath: string, writeSucceeds: bool): (x: Exchange)
    ensures !s.hasWriter ==> x == Exchange("ERROR_NO_ENGINE", s)
    ensures s.hasWriter && !writeSucceeds ==> x == Exchange("ERROR_IO", s)
    ensures s.hasWriter && writeSucceeds ==>
      && x.session == AfterRequest(s, imagePath)
      && x.result == match NextReply(s)
           case None => "ERROR_NULL"
           case Some(ReadFails) => "ERROR_IO"
           case Some(Got(line)) => Trim(JavaTrim, line)
    ensures x.session.hasWriter == s.hasWriter && x.session.alive == s.alive
  {
    if !s.hasWriter then Exchange("ERROR_NO_ENGINE", s)
    else if !writeSucceeds then Exchange("ERROR_IO", s)
    else
      var after := AfterRequest(s, imagePath);
      match NextReply(s)
      case None => Exchange("ERROR_NULL", after)
      case Some(ReadFails) => Exchange("ERROR_IO", after)
      case Some(Got(line)) => Exchange(Trim(JavaTrim, line), after)
  }

  /** `cleanup` of both services (PlateProcessingService lines 66-80,
      PythonOcrService lines 59-71). It never fails; it writes "EXIT" only when
      there is a writer, and a failed write skips the `destroy` that follows
      it in the same `try`. */
  function Cleanup(s: Session, writeSucceeds: bool): (r: Session)
    ensures r.pending == s.pending && r.hasWriter == s.hasWriter
    ensures s.hasWriter && writeSucceeds ==> r.sent == s.sent + ["EXIT"] && !r.alive
    ensures s.hasWriter && !writeSucceeds ==> r == s
    ensures !s.hasWriter ==> r.sent == s.sent
  {
    if s.hasWriter then
      if writeSucceeds then s.(sent := s.sent + ["EXIT"], alive := false) else s
    else s.(alive := false)
  }

  /** A batch of `analyzeImage` calls, one after another. `writes[i]` says
      whether writing the i-th path reaches the process: a write into the pipe
      of a process that has exited throws. */
  datatype Batch = Batch(results: seq<string>, session: Session)

  /** The paths whose write succeeded, in order. */
  function Delivered(paths: seq<string>, writes: seq<bool>): (d: seq<string>)
    requires |writes| == |paths|
    ensures |d| <= |paths|
    ensures (forall i :: 0 <= i < |writes| ==> writes[i]) ==> d == paths
    ensures (forall i :: 0 <= i < |writes| ==> !writes[i]) ==> d == []
  {
    if |paths| == 0 then []
    else (if writes[0] then [paths[0]] else []) + Delivered(paths[1..], writes[1..])
  }

  function AnalyzeAll(s: Session, paths: seq<string>, writes: seq<bool>): (b: Batch)
    requires |writes| == |paths|
    ensures |b.results| == |paths|
    ensures b.session.hasWriter == s.hasWriter
    ensures s.hasWriter ==> b.session.sent == s.sent + Delivered(paths, writes)
    ensures !s.hasWriter ==> b.session == s
    decreases |paths|
  {
    if |paths| == 0 then Batch([], s)
    else
      var x := AnalyzeImage(s, paths[0], writes[0]);
      var rest := AnalyzeAll(x.session, paths[1..], writes[1..]);
      assert Delivered(paths, writes)
          == (if writes[0] then [paths[0]] else []) + Delivered(paths[1..], writes[1..]);
      Batch([x.result] + rest.results, rest.session)
  }

  /** Requests are serialised: when every write succeeds, the i-th path is
      answered by the i-th pending reply line, trimmed. */
  lemma {:induction false} AnalyzeAllPairsInOrder(s: Session, paths: seq<string>, writes: seq<bool>, replies: seq<string>)
    requires |writes| == |paths| && forall i :: 0 <= i < |writes| ==> writes[i]
    requires s.hasWriter && |replies| >= |paths| && |s.pending| >= |paths|
    requires forall i :: 0 <= i < |paths| ==> s.pending[i] == Got(replies[i])
    ensures forall i :: 0 <= i < |paths| ==>
      AnalyzeAll(s, paths, writes).results[i] == Trim(JavaTrim, replies[i])
    decreases |paths|
  {
    if |paths| > 0 {
      var x := AnalyzeImage(s, paths[0], true);
      assert x.result == Trim(JavaTrim, replies[0]);
      assert x.session.pending == s.pending[1..];
      forall i | 0 <= i < |paths| - 1
        ensures x.session.pending[i] == Got(replies[1..][i])
      {
        assert s.pending[i + 1] == Got(replies[i + 1]);
      }
      AnalyzeAllPairsInOrder(x.session, paths[1..], writes[1..], replies[1..]);
    }
  }
}
