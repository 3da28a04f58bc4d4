/**
  The Java clients connected to the Python scripts they launch.
  PlateProcessingService starts ocr_server.py (PlateProcessingService.java
  line 23); PythonOcrService starts ocr_engine.py (PythonOcrService.java
  line 21). Each line one side writes is a line the other side reads; the
  model does not split or join lines, so request paths are taken to contain
  no line terminator.
 */
module Wiring {
  import opened Wrappers
  import opened PlateText
  import opened Correction
  import opened Selection
  import opened Engine
  import opened Clients

  /** The engine's output lines as the Java reader receives them. */
  function AsReads(lines: seq<string>): (rs: seq<Read>)
    ensures |rs| == |lines|
    ensures forall i :: 0 <= i < |lines| ==> rs[i] == Got(lines[i])
  {
    seq(|lines|, i requires 0 <= i < |lines| => Got(lines[i]))
  }

  /** The Java writer's lines as the engine's `readline` receives them. */
  function AsIncoming(lines: seq<string>): (items: seq<Incoming>)
    ensures |items| == |lines|
    ensures forall i :: 0 <= i < |lines| ==> items[i] == Line(lines[i])
  {
    seq(|lines|, i requires 0 <= i < |lines| => Line(lines[i]))
  }

  /** PlateProcessingService's handshake always fails against ocr_server.py:
      that script prints a single line, never "READY" (with no argument, as
      launched, the line is "ERROR_ARGS"). */
  lemma PlateServiceHandshakeFails(args: seq<string>, run: ServerRun)
    ensures Init(true, AsReads(ServerRunOutput(args, run))).Failed?
    ensures Init(true, AsReads(ServerRunOutput([], run))) == Failed(HandshakeFailed(Some("ERROR_ARGS")))
  {
    ServerNeverReady(args, run);
  }

  /** PythonOcrService's handshake succeeds against ocr_engine.py exactly when
      the engine's reader loads. */
  lemma EngineHandshake(readerLoads: bool, input: seq<Incoming>, probe: string -> Probe)
    ensures Init(true, AsReads(EngineRun(readerLoads, input, probe))).Ready? <==> readerLoads
  {
  }

  /** Responses carry no white space at their ends, so the client's `trim`
      leaves them alone. */
  lemma ResponseIsTrimmed(path: string, probe: string -> Probe)
    ensures Trim(JavaTrim, Respond(path, probe)) == Respond(path, probe)
  {
    var r := Respond(path, probe);
    if IsPlateText(r) {
      TrimOfPlateText(JavaTrim, r);
    } else {
      assert r[0] == 'E' || r[0] == 'N';
      assert r[|r| - 1] == 'E' || r[|r| - 1] == 'S';
      TrimOfTrimmed(JavaTrim, r);
    }
  }

  /** The engine's replies to a session that sends `paths` and then "EXIT". */
  lemma {:induction false} EngineRepliesToPaths(paths: seq<string>, probe: string -> Probe)
    requires forall i :: 0 <= i < |paths| ==> Trim(PythonStrip, paths[i]) != "EXIT"
    ensures var replies := Serve(AsIncoming(paths + ["EXIT"]), probe);
      && |replies| == |paths|
      && forall i :: 0 <= i < |paths| ==> replies[i] == Respond(Trim(PythonStrip, paths[i]), probe)
  {
    var input := AsIncoming(paths + ["EXIT"]);
    assert forall i :: 0 <= i < |paths| ==> !IsExit(input[i]);
    assert IsExit(input[|paths|]) by {
      assert input[|paths|] == Line("EXIT");
      TrimOfPlateText(PythonStrip, "EXIT");
    }
    ReadsBeforeExitIs(input, |paths|);
    OneAnswerPerRequest(input, probe);
  }

  lemma {:induction false} ReadsBeforeExitIs(input: seq<Incoming>, n: nat)
    requires n < |input| && IsExit(input[n])
    requires forall i :: 0 <= i < n ==> !IsExit(input[i])
    ensures ReadsBeforeExit(input) == n
  {
    if n > 0 {
      assert !IsExit(input[0]);
      ReadsBeforeExitIs(input[1..], n - 1);
    }
  }

  /** Against ocr_engine.py with a loaded reader, `init` succeeds and leaves
      the engine's replies pending. */
  lemma EngineSessionStarts(input: seq<Incoming>, probe: string -> Probe)
    ensures Init(true, AsReads(EngineRun(true, input, probe)))
         == Ready(Session(true, true, AsReads(Serve(input, probe)), []))
  {
    var out := EngineRun(true, input, probe);
    assert AsReads(out)[1..] == AsReads(Serve(input, probe));
  }

  /** PlateProcessingService launched against the line server ocr_engine.py
      instead: the handshake passes and `processImage` returns the engine's
      plate for the path, or "" for every error and for "NONE". No plate the
      engine reads is mistaken for an error. */
  lemma PlateServiceOnEngine(path: string, rest: seq<Incoming>, probe: string -> Probe)
    requires Trim(PythonStrip, path) != "EXIT"
    ensures var started := Init(true, AsReads(EngineRun(true, [Line(path)] + rest, probe)));
      && started.Ready?
      && var result := ProcessImage(started.session, path, true, true).result;
      && result == PlateReply(Respond(Trim(PythonStrip, path), probe))
      && (result == "" || (IsPlateText(result) && 4 <= |result| <= 8))
      && var p := Trim(PythonStrip, path);
      && (p != "" && probe(p).Texts? ==>
            var best := EngineBest(Corrected(Narrow, probe(p).texts));
            result == if best == "NONE" then "" else best)
  {
    var input := [Line(path)] + rest;
    var p := Trim(PythonStrip, path);
    EngineSessionStarts(input, probe);
    assert !IsExit(input[0]);
    assert Serve(input, probe)[0] == Respond(p, probe);
    if p != "" && probe(p).Texts? {
      PlateReplyOfReading(p, probe);
    }
  }

  /** What `processImage` makes of the engine's reply to a readable image:
      the chosen plate, or "" when none qualified. */
  lemma PlateReplyOfReading(p: string, probe: string -> Probe)
    requires p != "" && probe(p).Texts?
    ensures var best := EngineBest(Corrected(Narrow, probe(p).texts));
      PlateReply(Respond(p, probe)) == if best == "NONE" then "" else best
  {
    RespondClassifies(p, probe);
  }

  /** The outcome of each write in a batch sent to ocr_engine.py: every write
      succeeds until the engine has read a line that strips to "EXIT". The
      engine then exits, and a write into the pipe of a process that has
      exited throws. */
  function EngineWrites(paths: seq<string>): (ws: seq<bool>)
    ensures |ws| == |paths|
  {
    if |paths| == 0 then []
    else if IsExit(Line(paths[0])) then [true] + seq(|paths| - 1, _ => false)
    else [true] + EngineWrites(paths[1..])
  }

  /** Without an "EXIT" path the engine runs throughout the batch. */
  lemma {:induction false} EngineWritesAllSucceed(paths: seq<string>)
    requires forall i :: 0 <= i < |paths| ==> Trim(PythonStrip, paths[i]) != "EXIT"
    ensures forall i :: 0 <= i < |paths| ==> EngineWrites(paths)[i]
  {
    if |paths| > 0 {
      assert !IsExit(Line(paths[0]));
      EngineWritesAllSucceed(paths[1..]);
    }
  }

  /** With an "EXIT" path after `before`, the writes up to and including that
      path succeed and every later one fails. */
  lemma {:induction false} EngineWritesAroundExit(before: seq<string>, exitPath: string, after: seq<string>)
    requires forall i :: 0 <= i < |before| ==> Trim(PythonStrip, before[i]) != "EXIT"
    requires Trim(PythonStrip, exitPath) == "EXIT"
    ensures forall i :: 0 <= i <= |before| ==> EngineWrites(before + [exitPath] + after)[i]
    ensures forall i :: |before| < i < |before| + 1 + |after| ==> !EngineWrites(before + [exitPath] + after)[i]
  {
    var paths := before + [exitPath] + after;
    if |before| == 0 {
      assert paths[0] == exitPath;
      assert IsExit(Line(paths[0]));
    } else {
      assert paths[0] == before[0];
      assert !IsExit(Line(paths[0]));
      assert paths[1..] == before[1..] + [exitPath] + after;
      EngineWritesAroundExit(before[1..], exitPath, after);
      var ws, ws' := EngineWrites(paths), EngineWrites(before[1..] + [exitPath] + after);
      assert ws == [true] + ws';
      forall i | 0 <= i <= |before| ensures ws[i] {
        if i > 0 { assert ws[i] == ws'[i - 1]; }
      }
      forall i | |before| < i < |ws| ensures !ws[i] {
        assert ws[i] == ws'[i - 1];
      }
    }
  }

  /** The compatible pair: PythonOcrService talking to ocr_engine.py. After the
      handshake, the i-th `analyzeImage` returns the engine's answer to the i-th
      path, and `cleanup` leaves the engine having read exactly the paths and
      then "EXIT". */
  lemma EngineSessionAnswersInOrder(paths: seq<string>, probe: string -> Probe)
    requires forall i :: 0 <= i < |paths| ==> Trim(PythonStrip, paths[i]) != "EXIT"
    ensures var started := Init(true, AsReads(EngineRun(true, AsIncoming(paths + ["EXIT"]), probe)));
      && started.Ready?
      && var batch := AnalyzeAll(started.session, paths, EngineWrites(paths));
      && (forall i :: 0 <= i < |paths| ==>
            batch.results[i] == Respond(Trim(PythonStrip, paths[i]), probe))
      && Cleanup(batch.session, true).sent == paths + ["EXIT"]
  {
    var input := AsIncoming(paths + ["EXIT"]);
    EngineSessionStarts(input, probe);
    EngineBatchAnswers(paths, probe);
  }

  /** The batch part of the lemma above, on the session `init` leaves. */
  lemma EngineBatchAnswers(paths: seq<string>, probe: string -> Probe)
    requires forall i :: 0 <= i < |paths| ==> Trim(PythonStrip, paths[i]) != "EXIT"
    ensures var s := Session(true, true, AsReads(Serve(AsIncoming(paths + ["EXIT"]), probe)), []);
      && var batch := AnalyzeAll(s, paths, EngineWrites(paths));
      && (forall i :: 0 <= i < |paths| ==>
            batch.results[i] == Respond(Trim(PythonStrip, paths[i]), probe))
      && batch.session.sent == paths
  {
    var replies := Serve(AsIncoming(paths + ["EXIT"]), probe);
    var ws := EngineWrites(paths);
    EngineWritesAllSucceed(paths);
    EngineRepliesToPaths(paths, probe);
    var s := Session(true, true, AsReads(replies), []);
    AnalyzeAllPairsInOrder(s, paths, ws, replies);
    var batch := AnalyzeAll(s, paths, ws);
    forall i | 0 <= i < |paths|
      ensures batch.results[i] == Respond(Trim(PythonStrip, paths[i]), probe)
    {
      ResponseIsTrimmed(Trim(PythonStrip, paths[i]), probe);
    }
    assert Delivered(paths, ws) == paths;
  }

  /** Once the engine's output has ended, a request whose write still gets
      through reads end of stream ("ERROR_NULL") and one whose write fails
      gives "ERROR_IO". */
  lemma {:induction false} ClosedEngineAnswers(s: Session, paths: seq<string>, writes: seq<bool>)
    requires |writes| == |paths|
    requires s.hasWriter && s.pending == []
    ensures forall i :: 0 <= i < |paths| ==>
      AnalyzeAll(s, paths, writes).results[i] == if writes[i] then "ERROR_NULL" else "ERROR_IO"
    decreases |paths|
  {
    if |paths| > 0 {
      ClosedEngineAnswers(AnalyzeImage(s, paths[0], writes[0]).session, paths[1..], writes[1..]);
    }
  }

  /** A batch splits into its two halves. */
  lemma {:induction false} AnalyzeAllSplit(s: Session, xs: seq<string>, wx: seq<bool>, ys: seq<string>, wy: seq<bool>)
    requires |wx| == |xs| && |wy| == |ys|
    ensures AnalyzeAll(s, xs + ys, wx + wy).results
         == AnalyzeAll(s, xs, wx).results + AnalyzeAll(AnalyzeAll(s, xs, wx).session, ys, wy).results
    decreases |xs|
  {
    if |xs| == 0 {
      assert xs + ys == ys && wx + wy == wy;
    } else {
      assert (xs + ys)[0] == xs[0] && (wx + wy)[0] == wx[0];
      assert (xs + ys)[1..] == xs[1..] + ys && (wx + wy)[1..] == wx[1..] + wy;
      AnalyzeAllSplit(AnalyzeImage(s, xs[0], wx[0]).session, xs[1..], wx[1..], ys, wy);
    }
  }

  /** Each request whose write succeeds consumes one pending reply; a failed
      write consumes none. */
  lemma {:induction false} AnalyzeAllConsumes(s: Session, xs: seq<string>, ws: seq<bool>)
    requires |ws| == |xs|
    requires s.hasWriter
    ensures var k := |Delivered(xs, ws)|;
      AnalyzeAll(s, xs, ws).session.pending == if k <= |s.pending| then s.pending[k..] else []
    decreases |xs|
  {
    if |xs| > 0 {
      var next := AnalyzeImage(s, xs[0], ws[0]).session;
      AnalyzeAllConsumes(next, xs[1..], ws[1..]);
      var k := |Delivered(xs, ws)|;
      var k' := |Delivered(xs[1..], ws[1..])|;
      if ws[0] && k <= |s.pending| {
        assert k == k' + 1;
        assert next.pending[k'..] == s.pending[k..];
      }
    }
  }

  /** A request path that strips to "EXIT" stops the engine: that request
      reads end of stream and gives "ERROR_NULL", and every later write fails,
      so every later request gives "ERROR_IO". The engine reads only the
      paths up to the one that stops it. */
  lemma ExitPathStopsEngine(before: seq<string>, exitPath: string, after: seq<string>, probe: string -> Probe)
    requires forall i :: 0 <= i < |before| ==> Trim(PythonStrip, before[i]) != "EXIT"
    requires Trim(PythonStrip, exitPath) == "EXIT"
    ensures var paths := before + [exitPath] + after;
      var started := Init(true, AsReads(EngineRun(true, AsIncoming(before + [exitPath]), probe)));
      && started.Ready?
      && var results := AnalyzeAll(started.session, paths, EngineWrites(paths)).results;
      && results[|before|] == "ERROR_NULL"
      && forall i :: |before| < i < |paths| ==> results[i] == "ERROR_IO"
  {
    var n := |before|;
    var input := AsIncoming(before + [exitPath]);
    assert forall i :: 0 <= i < n ==> !IsExit(input[i]);
    assert IsExit(input[n]);
    ReadsBeforeExitIs(input, n);
    OneAnswerPerRequest(input, probe);
    EngineSessionStarts(input, probe);
    BatchAroundExit(Session(true, true, AsReads(Serve(input, probe)), []), before, exitPath, after);
  }

  /** The batch part of the lemma above, on any session holding one pending
      reply per path before the "EXIT" path. */
  lemma BatchAroundExit(s: Session, before: seq<string>, exitPath: string, after: seq<string>)
    requires forall i :: 0 <= i < |before| ==> Trim(PythonStrip, before[i]) != "EXIT"
    requires Trim(PythonStrip, exitPath) == "EXIT"
    requires s.hasWriter && |s.pending| == |before|
    ensures var paths := before + [exitPath] + after;
      var results := AnalyzeAll(s, paths, EngineWrites(paths)).results;
      && results[|before|] == "ERROR_NULL"
      && forall i :: |before| < i < |paths| ==> results[i] == "ERROR_IO"
  {
    var paths := before + [exitPath] + after;
    var ws := EngineWrites(paths);
    var n := |before|;
    var rest := [exitPath] + after;
    assert paths == before + rest;
    EngineWritesAroundExit(before, exitPath, after);
    var wb, wr := ws[..n], ws[n..];
    assert ws == wb + wr;
    assert forall i :: 0 <= i < |wb| ==> wb[i] by {
      assert forall i :: 0 <= i < |wb| ==> wb[i] == ws[i];
    }
    assert forall i :: 0 <= i < |wr| ==> (wr[i] <==> i == 0) by {
      assert forall i :: 0 <= i < |wr| ==> wr[i] == ws[n + i];
    }
    DeliverThenClose(s, before, wb, rest, wr);
  }

  /** A batch whose first writes all succeed, each answered by a pending
      reply, and whose later writes all fail after one more that succeeds. */
  lemma {:induction false} DeliverThenClose(s: Session, xs: seq<string>, wx: seq<bool>, ys: seq<string>, wy: seq<bool>)
    requires |wx| == |xs| && |wy| == |ys|
    requires forall i :: 0 <= i < |wx| ==> wx[i]
    requires forall i :: 0 <= i < |wy| ==> (wy[i] <==> i == 0)
    requires s.hasWriter && |s.pending| == |xs|
    ensures |ys| > 0 ==> AnalyzeAll(s, xs + ys, wx + wy).results[|xs|] == "ERROR_NULL"
    ensures forall i :: |xs| < i < |xs| + |ys| ==> AnalyzeAll(s, xs + ys, wx + wy).results[i] == "ERROR_IO"
    decreases |xs|
  {
    if |xs| == 0 {
      assert xs + ys == ys && wx + wy == wy;
      ClosedEngineAnswers(s, ys, wy);
    } else {
      var next := AnalyzeImage(s, xs[0], true).session;
      assert (xs + ys)[0] == xs[0] && (wx + wy)[0] == wx[0];
      assert (xs + ys)[1..] == xs[1..] + ys && (wx + wy)[1..] == wx[1..] + wy;
      DeliverThenClose(next, xs[1..], wx[1..], ys, wy);
      var tail := AnalyzeAll(next, xs[1..] + ys, wx[1..] + wy).results;
      assert AnalyzeAll(s, xs + ys, wx + wy).results[1..] == tail;
    }
  }
}
