# AutoPlateOCR core in Dafny

AutoPlateOCR reads Polish licence plates. Python scripts drive EasyOCR.
A Java application launches one of those scripts as a child process and
talks to it one line at a time. It scores the readings against CVAT
annotations and turns accuracy and speed into a grade.

This project models the string, tree and counter logic of that system:

- **Plate text** (`plate_text.dfy`, module `PlateText`):
  - `clean_text_strict`, shared by the three scripts;
  - the Java `[^A-Z0-9]` filter and `equalsIgnoreCase`;
  - Java `trim` and Python `strip`.
- **Correction** (`correction.dfy`, `Correction`):
  - the positional substitution tables;
  - the simple `smart_correction` of `ocr_server.py` (full table) and `ocr_engine.py` (narrow table).
- **Ground-truth-aided correction** (`ocr_correction.dfy`, `OcrCorrection`): from `ocr.py`:
  - `smart_correction`, with its PL rule, prefix repair, override and cut;
  - `choose_better` and the choice among the three readings;
  - `analyze_character_errors`.
- **Selection** (`selection.dfy`, `Selection`): the longest-candidate loops of both scripts.
- **Engine** (`engine.dfy`, `Engine`):
  - `ocr_engine.py` as a line server: READY, then one answer per request until EOF or EXIT;
  - `ocr_server.py` as a one-shot program.
- **Clients** (`clients.dfy`, `Clients`): `PlateProcessingService` and `PythonOcrService` as pure step functions. Each works over the lines the child process will still produce and a log of the lines written to it.
- **Wiring** (`wiring.dfy`, `Wiring`): each client connected to the script it launches.
- **Annotations** (`annotations.dfy`, `Annotations`): `DatasetHelper.loadGroundTruthMap` over an element-tree datatype.
- **Evaluation** (`evaluation.dfy`, `Evaluation`): `EvaluationRunner.run`, covering the test-set cap, the skip rule, the counters, and the accuracy and time formulas.
- **Grading** (`grading.dfy`, `Grading`):
  - `GradingService.calculateFinalGrade`;
  - the unclamped, half-to-even `calculate_final_grade` of `ocr.py`.

`wrappers.dfy` holds the `Option` type.

These outside effects become parameters:

- **EasyOCR and the filesystem**: an oracle from path to `Missing`, `Fails` or the recognised texts.
- **Directory listing and shuffle**: the listing, and the order the shuffle produced.
- **Plate service in the evaluation**: a function from image name to predicted text.
- **Elapsed time**: a real number.

Facts about the code that the model follows:

- **Matching**: a prediction counts only on exact equality after cleaning. There is no tolerant matcher.
- **Annotation loader**:
  - it reads only `image`/`box`/`attribute name="plate number"`;
  - it has no second schema and no `label` attribute path;
  - it does not strip directories from file names;
  - it accepts an image with no `name` attribute under the empty key.
- **Responses**: `PlateProcessingService` returns them untrimmed. Only `PythonOcrService` trims.
- **Grade time term**: the Java grade clamps it at both ends. The Python grade does not clamp it at all.
- **Override in `ocr.py`**: the condition on an uncertain last character never changes the outcome, so the override depends only on the expected text (`OcrCorrection.OverrideWithExpected`).

Some behaviours of the code, all proved:

- **"NONE" sentinel** (`Selection.SentinelCollision`): in `ocr_engine.py`, a genuine reading "NONE" is treated as the sentinel and replaced by the next 4-character text.
- **Dead repair branches** (`OcrCorrection.DigitLetterBranchIsDead`, `OcrCorrection.InnerLoopIsDead`): two branches of the `ocr.py` prefix repair can never change the text.
- **Cleanup on a failed write** (`Clients.Cleanup`): when writing EXIT throws, the clients skip the `destroy` that follows it.
- **No plate reads as an error** (`Correction.NoPlateStartsWithError`, `Wiring.PlateServiceOnEngine`): `PlateProcessingService` maps every reply that begins with "ERROR" to "". A corrected plate never begins with "ERROR": the mixed-zone table turns an 'O' at index 3 into '0'. So no genuine plate is dropped.
- **Requests after an EXIT path** (`Wiring.ExitPathStopsEngine`): a request path that strips to "EXIT" stops `ocr_engine.py`. That request reads end of stream and gets ERROR_NULL. Every later write fails, so every later request gets ERROR_IO.

## Model

| member | source | states |
|---|---|---|
| PlateText.Take | ocr_server.py:42 | the cut keeps at most n characters and is a prefix of the text |
| PlateText.TakeKeeps | ocr.py:126-127 | cutting keeps the A-Z0-9 alphabet and any prefix no longer than the cut |
| PlateText.Upper | ocr.py:43 | upper-casing keeps the length and maps every a-z to A-Z, leaving other characters alone |
| PlateText.KeepPlateChars | src/main/java/com/example/autoplateocr/EvaluationRunner.java:56-57 | the output holds only A-Z0-9 characters, never more than the input; an A-Z0-9 character occurs in it exactly when it occurs in the input; A-Z0-9 text passes unchanged |
| PlateText.KeepPlateCharsAppend | src/main/java/com/example/autoplateocr/EvaluationRunner.java:56 | the filter distributes over concatenation, so it keeps the surviving characters in order |
| PlateText.CleanStrict | ocr.py:39-43 | empty input gives ""; the result holds only A-Z0-9 and is never longer; every character whose upper-case form is A-Z0-9 appears upper-cased in it, lower-case letters included; A-Z0-9 text is unchanged |
| PlateText.CleanStrictDrawsFromInput | ocr.py:43 | every character of the cleaned text is the upper-case form of an input character |
| PlateText.CleanStrictOfChar | ocr.py:42-43 | one character is kept, upper-cased, exactly when its upper-case form is A-Z0-9, and dropped otherwise |
| PlateText.CleanStrictAppend | ocr.py:39-43 | cleaning distributes over concatenation, so it keeps the surviving characters in order |
| PlateText.CleanStrictIdempotent | ocr_engine.py:12-14 | cleaning twice equals cleaning once |
| PlateText.UpperOfPlateText | ocr_server.py:15-17 | upper-casing leaves A-Z0-9 text unchanged |
| PlateText.LowerCaseIsKeptByPythonDroppedByJava | src/main/java/com/example/autoplateocr/EvaluationRunner.java:56-57 | a lower-case letter is upper-cased and kept by clean_text_strict but dropped by the Java filter |
| PlateText.EqualsIgnoreCaseOnPlateText | src/main/java/com/example/autoplateocr/EvaluationRunner.java:61 | on A-Z0-9 strings equalsIgnoreCase holds exactly when the strings are equal |
| PlateText.TrimStartRemovesLeadingSpace | src/main/java/com/example/autoplateocr/service/PythonOcrService.java:51 | trimming the start leaves a text that is empty or starts with a non-space, and drops only spaces |
| PlateText.TrimEndRemovesTrailingSpace | ocr_engine.py:52 | trimming the end leaves a text that is empty or ends with a non-space, and drops only spaces |
| PlateText.TrimmedEnds | src/main/java/com/example/autoplateocr/utils/DatasetHelper.java:41 | a trimmed text neither starts nor ends with white space |
| PlateText.TrimOfTrimmed | src/main/java/com/example/autoplateocr/service/PythonOcrService.java:51 | a text without white space at either end is its own trim |
| PlateText.TrimOfPlateText | src/main/java/com/example/autoplateocr/service/PythonOcrService.java:51 | A-Z0-9 text passes through either trim unchanged |
| PlateText.TrimIdempotent | src/main/java/com/example/autoplateocr/utils/DatasetHelper.java:41 | trimming twice equals trimming once, for both white-space notions |
| Correction.Substitute | ocr.py:61-79 | the substitution keeps the length and rewrites each character by the table of its zone |
| Correction.SubstituteChangesOnlyListed | ocr.py:63-77 | a position changes exactly when its character is listed for its zone; letter-zone changes give capital letters, mixed-zone changes give '0' |
| Correction.SubstituteClearsSources | ocr_server.py:24-40 | afterwards the letter zone holds no listed digit and the mixed zone no listed letter |
| Correction.SubstitutePreservesAlphabet | ocr_server.py:24-40 | substituting A-Z0-9 text gives A-Z0-9 text |
| Correction.SubstituteIdempotent | ocr_server.py:24-42 | applying a table twice equals applying it once |
| Correction.NarrowKeepsUnlisted | ocr_engine.py:23-30 | the engine's table never rewrites D, 2, 4 or 6 |
| Correction.FullAfterNarrow | ocr_engine.py:20-32 | the full table after the narrow one equals the full table alone |
| Correction.StripPL | ocr_engine.py:18 | one leading "PL" is removed when present, otherwise the text is unchanged |
| Correction.SimpleCorrection | ocr_server.py:19-42 | the simple correction gives at most 8 characters, all A-Z0-9 |
| Correction.ServerCorrection | ocr_server.py:20-42 | ocr_server.py's correction gives at most 8 A-Z0-9 characters |
| Correction.EngineCorrection | ocr_engine.py:16-32 | ocr_engine.py's correction gives at most 8 A-Z0-9 characters |
| Correction.SimpleCorrectionPointwise | ocr_engine.py:17-32 | the result is the cleaned text without its "PL", substituted position by position and cut to 8 |
| Correction.DoubledPLLeavesOne | ocr_server.py:21-22 | "PL" is stripped once whatever the length, so "PLPL..." still corrects to a text starting with "PL" |
| Correction.NoPlateStartsWithError | ocr_engine.py:28-32 | a corrected text never starts with "ERROR", under either table, because index 3 never holds 'O' |
| Correction.MixedZoneDDiffers | ocr_server.py:36-40 | a 'D' at index 2 to 7 becomes '0' on the server and stays 'D' in the engine |
| OcrCorrection.PrefixesAreLetters | ocr.py:49-53 | every Polish prefix code consists of capital letters |
| OcrCorrection.FirstIndex | ocr.py:89-100 | the prefix search finds the first code with the letter in the given slot, and finds none exactly when no code has it |
| OcrCorrection.DigitLetterBranchIsDead | ocr.py:88-92 | the digit-then-letter branch never changes the detection |
| OcrCorrection.InnerLoopIsDead | ocr.py:102-107 | the loop under the "no code starts with the letter" guard finds no code, so it never fires |
| OcrCorrection.LetterDigitBranch | ocr.py:94-107 | the letter-then-digit branch prepends the first letter of the first code ending in the detection's first letter, else nothing |
| OcrCorrection.PrependLetters | ocr.py:91-113 | prepending capital letters to A-Z0-9 text keeps the alphabet and the text as suffix |
| OcrCorrection.RepairAddition | ocr.py:81-113 | the repair prepends zero, one or two capital letters and changes nothing else |
| OcrCorrection.RepairOnlyPrepends | ocr.py:81-113 | the repaired text ends with the detection, is at most 2 longer, and its added prefix is capital letters |
| OcrCorrection.StripPLIfLonger | ocr.py:58-59 | "PL" is removed exactly when the detection starts with it and is longer than the expected text |
| OcrCorrection.OverrideWithExpected | ocr.py:115-124 | when the expected text has 7 or more characters and starts with three letters, the result starts with those letters and keeps the detection from index 3 on; otherwise the detection is unchanged; the result differs from the detection exactly when the override applies and the detection's first three characters differ from the letters |
| OcrCorrection.OverrideKeepsAlphabet | ocr.py:121-124 | the override keeps A-Z0-9 text A-Z0-9 |
| OcrCorrection.CorrectCleaned | ocr.py:58-124 | on cleaned inputs the PL rule, substitution, repair and override give A-Z0-9 text starting with the expected three letters when the override applies |
| OcrCorrection.SmartCorrection | ocr.py:45-129 | the result has at most 8 A-Z0-9 characters and starts with the cleaned expected text's first three letters when it has 7 or more characters and three leading letters |
| OcrCorrection.ChooseBetter | ocr.py:258-264 | returns one of its inputs, an input equal to the expected text when there is one (a first), else one with maximal score, and a on a tie |
| OcrCorrection.PickReading | ocr.py:202-267 | a primary reading longer than 3 is kept; otherwise one of the three readings is returned, and it is the expected text whenever one of them equals it |
| OcrCorrection.DiffPositionsSpec | ocr.py:309-312 | the listed positions are exactly the differing indices, strictly increasing |
| OcrCorrection.NoDiffPositionsIffEqual | ocr.py:309-312 | equal-length texts have no differing position exactly when they are equal |
| OcrCorrection.ConfusionsAtDiffPositions | ocr.py:310-312 | the k-th confusion entry names the characters at the k-th differing position |
| OcrCorrection.AnalyzeCharacterErrors | ocr.py:305-312 | nothing for different lengths; otherwise one "t->d" entry per differing index in index order, empty exactly when the texts are equal |
| Selection.ServerWinner | ocr_server.py:114-117 | none is chosen exactly when no text has 4 to 9 characters; otherwise the chosen text qualifies, is a longest qualifying text, and is strictly longer than every earlier qualifying text |
| Selection.ServerBest | ocr_server.py:119 | the result is "NONE" or a qualifying text, and "NONE" when none qualifies |
| Selection.EngineWinner | ocr_engine.py:67-73 | every qualifying text is no longer than the best; the best is "NONE" exactly when every qualifying text is "NONE"; earlier non-"NONE" qualifying texts are strictly shorter |
| Selection.EngineBest | ocr_engine.py:66-73 | the best plate is "NONE" or a qualifying text, no shorter than any qualifying text |
| Selection.ServerPlateShape | ocr_server.py:112-119 | the server's answer is "NONE" or an A-Z0-9 text of 4 to 8 characters |
| Selection.EnginePlateShape | ocr_engine.py:68-76 | the engine's best plate is "NONE" or an A-Z0-9 text of 4 to 8 characters |
| Selection.SentinelCollision | ocr_engine.py:72-73 | a reading "NONE" followed by "ABCD" gives "ABCD" in the engine and "NONE" on the server |
| Selection.EngineBestNotError | ocr_engine.py:66-76 | the engine's chosen plate never starts with "ERROR" |
| Engine.Respond | ocr_engine.py:55-81 | an empty or missing path gives ERROR_FILE, a failing one ERROR_PROCESS, otherwise "NONE" or a 4 to 8 character plate |
| Engine.RespondClassifies | ocr_engine.py:55-81 | an answer starts with "ERROR" exactly when the path is empty, missing or unreadable, and is "NONE" exactly when the image was read and no text qualified |
| Engine.EngineRun | ocr_engine.py:35-46 | output is empty exactly when the reader fails to load; otherwise "READY" comes first, before any answer |
| Engine.ReadsBeforeExit | ocr_engine.py:49-53 | counts the reads before the first line that strips to EXIT |
| Engine.OneAnswerPerRequest | ocr_engine.py:46-81 | the loop writes exactly one answer per read before the first EXIT, in order |
| Engine.BlankLineIsAnswered | ocr_engine.py:49-58 | a blank line does not end the loop and is answered ERROR_FILE |
| Engine.NothingAfterExit | ocr_engine.py:52-53 | input after an EXIT line is never read |
| Engine.ServerRunOutput | ocr_server.py:121-134 | the one-shot program prints one line, ERROR_ARGS when no path is given |
| Engine.ServerCorrectionHasNoLateD | ocr_server.py:36-42 | the server's corrected text has no 'D' from index 2 on |
| Engine.ServerPlateIsNotReady | ocr_server.py:114-119 | the server's chosen text is never "READY" |
| Engine.ServerReadingIsNotReady | ocr_server.py:20-42 | no text the server corrects is "READY" |
| Engine.ServerNeverReady | ocr_server.py:121-134 | the one-shot program never prints "READY" |
| Clients.Init | src/main/java/com/example/autoplateocr/service/PlateProcessingService.java:18-41 | start-up succeeds exactly when the process launched and its first line is "READY"; the session then holds the remaining lines |
| Clients.PlateReply | src/main/java/com/example/autoplateocr/service/PlateProcessingService.java:55-58 | the reply maps to "" exactly for "", "NONE" or a line starting "ERROR"; any other line is returned verbatim |
| Clients.ProcessImage | src/main/java/com/example/autoplateocr/service/PlateProcessingService.java:43-64 | a missing file, no writer or a failed write gives "" and leaves the session as it was; otherwise one request, and end of stream or a failed read gives "" |
| Clients.AnalyzeImage | src/main/java/com/example/autoplateocr/service/PythonOcrService.java:40-57 | no writer gives ERROR_NO_ENGINE, a failed write ERROR_IO; otherwise one request, end of stream ERROR_NULL, a failed read ERROR_IO, else the trimmed line |
| Clients.Cleanup | src/main/java/com/example/autoplateocr/service/PlateProcessingService.java:66-80 | EXIT is written and the process stopped when there is a writer and the write succeeds; a failed write leaves the session, process included, as it was; without a writer nothing is written |
| Clients.AnalyzeAll | src/main/java/com/example/autoplateocr/service/PythonOcrService.java:40-56 | a batch gives one result per path and logs, in order, exactly the paths whose write succeeded; without a writer nothing changes |
| Clients.Delivered | src/main/java/com/example/autoplateocr/service/PythonOcrService.java:44-46 | the delivered paths are all of them when every write succeeds and none when every write fails |
| Clients.AnalyzeAllPairsInOrder | src/main/java/com/example/autoplateocr/service/PythonOcrService.java:40-51 | when every write succeeds, the i-th request is answered by the i-th pending line, trimmed |
| Wiring.PlateServiceHandshakeFails | src/main/java/com/example/autoplateocr/service/PlateProcessingService.java:23-36 | launched against ocr_server.py the handshake always fails, with first line ERROR_ARGS when no argument is given |
| Wiring.EngineHandshake | src/main/java/com/example/autoplateocr/service/PythonOcrService.java:21-33 | against ocr_engine.py the handshake succeeds exactly when the engine's reader loads |
| Wiring.ResponseIsTrimmed | src/main/java/com/example/autoplateocr/service/PythonOcrService.java:51 | the engine's answers have no white space at either end, so the client's trim leaves them unchanged |
| Wiring.EngineRepliesToPaths | ocr_engine.py:46-77 | for paths followed by EXIT, the engine gives one answer per path: the answer to the stripped path |
| Wiring.ReadsBeforeExitIs | ocr_engine.py:49-53 | the loop stops at the first EXIT line, at whatever index it sits |
| Wiring.EngineSessionStarts | src/main/java/com/example/autoplateocr/service/PythonOcrService.java:28-33 | after the handshake the session holds exactly the engine's answers |
| Wiring.EngineSessionAnswersInOrder | src/main/java/com/example/autoplateocr/service/PythonOcrService.java:40-71 | with no EXIT path, every write reaches the engine; the i-th analyzeImage returns the engine's answer to the i-th path, and cleanup leaves the engine having read the paths then EXIT |
| Wiring.EngineBatchAnswers | src/main/java/com/example/autoplateocr/service/PythonOcrService.java:40-56 | on the session the handshake leaves, the batch gives the engine's answer to each path and logs exactly the paths |
| Wiring.ClosedEngineAnswers | src/main/java/com/example/autoplateocr/service/PythonOcrService.java:44-55 | once no reply is pending, a request whose write succeeds gets ERROR_NULL and one whose write fails gets ERROR_IO |
| Wiring.AnalyzeAllConsumes | src/main/java/com/example/autoplateocr/service/PythonOcrService.java:44-48 | each request whose write succeeds consumes one pending reply; a failed write consumes none |
| Wiring.AnalyzeAllSplit | src/main/java/com/example/autoplateocr/service/PythonOcrService.java:40-56 | a batch's results are those of its first part followed by those of the rest, run on the session the first part leaves |
| Wiring.ExitPathStopsEngine | ocr_engine.py:52-53 | a request path that strips to EXIT stops the engine: that request gets ERROR_NULL and every later one ERROR_IO |
| Wiring.EngineWritesAllSucceed | ocr_engine.py:49-53 | with no path that strips to EXIT, the engine keeps reading and every write succeeds |
| Wiring.EngineWritesAroundExit | ocr_engine.py:49-53 | the writes up to and including the first EXIT path succeed and every later write fails |
| Wiring.BatchAroundExit | src/main/java/com/example/autoplateocr/service/PythonOcrService.java:44-55 | with one pending reply per path before the EXIT path, that path gets ERROR_NULL and every later one ERROR_IO |
| Wiring.DeliverThenClose | src/main/java/com/example/autoplateocr/service/PythonOcrService.java:44-55 | writes that succeed against pending replies, then one that succeeds with none pending, then failing writes: ERROR_NULL at the first request past the replies and ERROR_IO after it |
| Wiring.PlateServiceOnEngine | src/main/java/com/example/autoplateocr/service/PlateProcessingService.java:23-58 | launched against ocr_engine.py, the handshake passes and processImage returns the engine's plate for a readable image, "" when no text qualified, and "" for errors |
| Wiring.PlateReplyOfReading | src/main/java/com/example/autoplateocr/service/PlateProcessingService.java:55-58 | for a readable image the mapped reply is the engine's chosen plate, or "" when that is NONE |
| Annotations.ByTag | src/main/java/com/example/autoplateocr/utils/DatasetHelper.java:25 | the search returns only elements with the requested tag |
| Annotations.ByTagComplete | src/main/java/com/example/autoplateocr/utils/DatasetHelper.java:25 | a node is found exactly when it is an element with the tag somewhere in the forest, at any depth |
| Annotations.ByTagAppend | src/main/java/com/example/autoplateocr/utils/DatasetHelper.java:25-27 | the search keeps document order over a forest |
| Annotations.ElementsByTag | src/main/java/com/example/autoplateocr/utils/DatasetHelper.java:31-35 | an element's search returns only descendants with the tag |
| Annotations.Images | src/main/java/com/example/autoplateocr/utils/DatasetHelper.java:25 | the document-level search yields image elements, the root included |
| Annotations.ImagesComplete | src/main/java/com/example/autoplateocr/utils/DatasetHelper.java:25 | a node is found exactly when it is an image element that is the root or lies under it |
| Annotations.LoadGroundTruthMap | src/main/java/com/example/autoplateocr/utils/DatasetHelper.java:15-56 | a parse failure yields the empty map |
| Annotations.ImageEntryIsTrimmedPlate | src/main/java/com/example/autoplateocr/utils/DatasetHelper.java:31-48 | an image without a box contributes nothing; an entry is keyed by the name attribute and holds a non-blank trimmed plate |
| Annotations.PlateNumberIsTrimmed | src/main/java/com/example/autoplateocr/utils/DatasetHelper.java:41 | the plate number is its own trim |
| Annotations.PlateNumberIsFirstMatch | src/main/java/com/example/autoplateocr/utils/DatasetHelper.java:35-44 | the plate is the trimmed text of the first "plate number" attribute, "" when there is none |
| Annotations.StoredValuesAreTrimmed | src/main/java/com/example/autoplateocr/utils/DatasetHelper.java:46-47 | every stored value is non-blank and trimmed |
| Annotations.StoreStep | src/main/java/com/example/autoplateocr/utils/DatasetHelper.java:46-47 | one more image changes only the entry it names |
| Annotations.StoreKeys | src/main/java/com/example/autoplateocr/utils/DatasetHelper.java:27-48 | a name is a key exactly when some image with that name contributes an entry |
| Annotations.StoreLastWins | src/main/java/com/example/autoplateocr/utils/DatasetHelper.java:47 | the stored value comes from the last image naming the key |
| Annotations.LoadedMapShape | src/main/java/com/example/autoplateocr/utils/DatasetHelper.java:15-57 | for a parsed document the keys are the contributing image names and the values non-blank trimmed plates |
| Annotations.NamelessImageIsStoredUnderEmptyName | src/main/java/com/example/autoplateocr/utils/DatasetHelper.java:29-47 | an image without a name attribute is stored under the empty file name |
| Grading.RoundHalfUp | src/main/java/com/example/autoplateocr/service/GradingService.java:21 | Math.round gives the nearest integer, ties upward |
| Grading.RoundHalfEven | ocr.py:322 | Python's round gives a nearest integer, the even one on a tie |
| Grading.ClampedTimeNorm | src/main/java/com/example/autoplateocr/service/GradingService.java:15-16 | the time term lies in [0, 1] and is the linear one between 10 and 60 seconds |
| Grading.FinalGrade | src/main/java/com/example/autoplateocr/service/GradingService.java:8-22 | 2.0 when gated; a half step within a quarter of the raw grade, ties up; in [2, 5] for accuracy at most 100; 5.0 for accuracy 100 within 10 seconds |
| Grading.FinalGradeMonotone | src/main/java/com/example/autoplateocr/service/GradingService.java:13-21 | more accuracy in less time never lowers the grade |
| Grading.PythonGrade | ocr.py:314-322 | 2.0 when gated; otherwise a half step within a quarter of the unclamped raw grade |
| Grading.GradesAgreeOffTies | ocr.py:318-322 | with 10 seconds or more and no tie, the two grades agree |
| Grading.TieBreaksDiffer | ocr.py:322 | on the tie 8.5 the service gives 4.5 and the script 4.0 |
| Grading.UnclampedTimeDiffers | ocr.py:319 | at 65 percent in 0 seconds the service gives 3.0 and the script 3.5 |
| Evaluation.JpgFiles | src/main/java/com/example/autoplateocr/EvaluationRunner.java:36 | the candidates are exactly the listed names ending in ".jpg" |
| Evaluation.TestSet | src/main/java/com/example/autoplateocr/EvaluationRunner.java:37-42 | exactly min(n, 100) images, drawn from the candidates, all of them when there are at most 100 |
| Evaluation.MatchesIsCleanEquality | src/main/java/com/example/autoplateocr/EvaluationRunner.java:56-63 | a prediction counts exactly when the cleaned texts are equal and non-empty |
| Evaluation.ProcessedCountBounds | src/main/java/com/example/autoplateocr/EvaluationRunner.java:51 | processed is at most the test set, all of it exactly when every image is annotated, 0 exactly when none is |
| Evaluation.CorrectAtMostProcessed | src/main/java/com/example/autoplateocr/EvaluationRunner.java:61-64 | correct never exceeds processed |
| Evaluation.Tally | src/main/java/com/example/autoplateocr/EvaluationRunner.java:50-65 | the loop counts the annotated images and the matching ones, correct at most processed at most the test set |
| Evaluation.Denominator | src/main/java/com/example/autoplateocr/EvaluationRunner.java:70 | the denominator is at least 1 and is the processed count when that is positive |
| Evaluation.Accuracy | src/main/java/com/example/autoplateocr/EvaluationRunner.java:70-72 | accuracy times the processed count is 100 times the correct count; it lies in [0, 100], is 0 exactly when nothing is correct and 100 exactly when all of at least one processed image are |
| Evaluation.TimeFor100 | src/main/java/com/example/autoplateocr/EvaluationRunner.java:70-73 | the time times the processed count (1 when none) is 100 times the elapsed time; with at most one processed image it is the elapsed time times 100; never negative for a non-negative time |
| Evaluation.Run | src/main/java/com/example/autoplateocr/EvaluationRunner.java:23-83 | an empty map stops the run; a missing directory fails it; otherwise the report holds the counts of the test set and a grade in [2, 5] |

## Findings

| source | as written | input that shows it | evidently intended | confidence | as-written member | corrected member |
|---|---|---|---|---|---|---|
| src/main/java/com/example/autoplateocr/service/PlateProcessingService.java:23 | launches ocr_server.py. That script takes the image path from its command line and prints a single line (ocr_server.py:121-134). | any start-up: with no argument, as launched, the first line is "ERROR_ARGS", so `init` throws | launch the line server ocr_engine.py, which prints READY and answers one path per line | high; not executed | Wiring.PlateServiceHandshakeFails | Wiring.PlateServiceOnEngine |

## Left out

- OpenCV and EasyOCR work (`cut_blue_strip`, the image parts of `process_plate_image` and `process_single_image`, `reader.readtext`): foreign library calls. Their output is an arbitrary sequence of strings, and a read failure is a `Fails` or `Unreadable` case.
- `run_test_mode` and `load_data_from_xml` in ocr.py: filesystem checks, log files, debug directories and random shuffling, none of which this model covers.
- Process spawning, stream objects, `printStackTrace`, Spring lifecycle annotations: the channel is a sequence of lines each way.
- Merged stderr: the clients merge stderr into stdout. Diagnostic lines the Python side writes are not modelled, so the replies are only the lines the scripts print.
- Line framing: paths and replies are taken to contain no line terminator.
- An exception message that spans several lines in `ERROR: ...` from ocr_server.py is treated as one line.
- Spring start-up after a failed `init`: `init` throws, and the application context never starts the evaluation. The model only records the failure.
- `synchronized` and any concurrency: requests are modelled one after another.
- Engine exit timing: once `ocr_engine.py` has read an EXIT line, it is taken to have exited before the next write, so that write fails. A write that slips into the pipe before the process ends, and then reads end of stream, is not modelled.
- Wall-clock time and shuffle randomness: both are parameters. The shuffle is any permutation of the candidates.
- The evaluation's plate service is a function parameter. `Clients.ProcessImage` models that service on its own.
- `getTextContent` concatenates text nodes only. Comments, processing instructions and CDATA are not modelled, and neither is `normalize`, which does not change text content.
- Python's `None` argument to `clean_text_strict` is treated like "", which it matches.
- IEEE-754 rounding: both grades are computed over exact reals, with `Floor(x + 1/2)` for `Math.round` and half to even for Python's `round`.
- OcrController, QueueConsumer, RabbitConfig, LicensePlateRecord: HTTP, queue and persistence plumbing with no logic of their own.
- PlateText.Upper: only the ASCII case mapping is modelled. Python's full Unicode `str.upper` also maps letters such as 'ß' or 'ﬁ' to several characters and some non-ASCII letters to ASCII ones (e.g. 'ı' to 'I'); these are not modelled.
- PlateText.CleanStrict: inherits the ASCII-only upper-casing of `PlateText.Upper`.
- Engine.ServerRunOutput: states only the one-line shape and the ERROR_ARGS case; what the line holds otherwise is stated by `Selection.ServerPlateShape` and `Engine.ServerNeverReady`.
