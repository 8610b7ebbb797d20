/** The error-line scanner of `AdoSdkBuildErrorService.GetBuildErrorsAsync`: over the lines
    of one build log, every line that mentions "error" becomes a finding, paired with the
    run of indented or `at ` lines that follows it. `ExtractErrors` is the specification;
    `ScanLog` is the source's `for` loop, with its inner `while` loop in `CollectTrace`,
    proved equal to it. */
module LogScan {
  import opened Wrappers
  import opened Text

  /** The `BuildErrorDetail` record: the matched line and its stack trace, if any. */
  datatype BuildErrorDetail = BuildErrorDetail(errorMessage: string, stackTrace: Option<string>)

  const ErrorWord: string := "error"
  const TraceSeparator: string := "\n"

  /** A line is an error line when it contains "error", ordinal and ignoring case: when
      "error" matches, letter by letter up to case, at some position of the line. */
  predicate IsErrorLine(line: string)
    ensures IsErrorLine(line) <==> exists k :: OccursAt(line, ErrorWord, k)
  {
    ContainsIgnoreCaseSpec(line, ErrorWord);
    ContainsIgnoreCase(line, ErrorWord)
  }

  /** A line continues a stack trace when it starts with a space, or starts with `at `
      once its leading white space is trimmed: when `at ` follows a white-space-only
      prefix of the line. */
  predicate IsTraceLine(line: string)
    ensures IsTraceLine(line) <==>
      StartsWith(line, " ") || exists k :: 0 <= k <= |line| && AtAfterWhiteSpace(line, k)
  {
    TrimmedAt(line);
    StartsWith(line, " ") || StartsWith(TrimStart(line), "at ")
  }

  /** `line` holds only white space before index `k`, and `at ` from there. */
  predicate AtAfterWhiteSpace(line: string, k: nat)
    requires k <= |line|
  {
    IsWhiteSpaceOnly(line[..k]) && StartsWith(line[k..], "at ")
  }

  /** The trimmed line starts with `at ` exactly when `at ` follows a white-space-only
      prefix; that prefix is then all that `TrimStart` removes. */
  lemma TrimmedAt(line: string)
    ensures StartsWith(TrimStart(line), "at ") <==> exists k :: 0 <= k <= |line| && AtAfterWhiteSpace(line, k)
  {
    var r := TrimStart(line);
    var m := |line| - |r|;
    TrimStartSpec(line);
    if StartsWith(r, "at ") {
      assert AtAfterWhiteSpace(line, m);
    }
    forall k | 0 <= k <= |line| && AtAfterWhiteSpace(line, k)
      ensures StartsWith(r, "at ")
    {
      TrimmedAtPrefix(line, k);
    }
  }

  /** A white-space-only prefix followed by `at ` is exactly what `TrimStart` removes. */
  lemma TrimmedAtPrefix(line: string, k: nat)
    requires k <= |line| && AtAfterWhiteSpace(line, k)
    ensures TrimStart(line) == line[k..]
  {
    assert line[k] == 'a' && !IsWhiteSpace('a');
    TrimStartStopsAt(line, k);
  }

  /** `TrimStart` removes a white-space-only prefix up to the first other character. */
  lemma {:induction false} TrimStartStopsAt(s: string, k: nat)
    requires k < |s| && IsWhiteSpaceOnly(s[..k]) && !IsWhiteSpace(s[k])
    ensures TrimStart(s) == s[k..]
  {
    if k > 0 {
      assert IsWhiteSpace(s[..k][0]);
      assert s[1..][..k - 1] == s[..k][1..];
      TrimStartStopsAt(s[1..], k - 1);
    }
  }

  /** The run of trace lines that starts at index `j`, as the inner loop gathers it: a
      stretch of consecutive lines beginning at `j`. */
  function TraceRun(lines: seq<string>, j: nat): (run: seq<string>)
    requires j <= |lines|
    ensures j + |run| <= |lines| && run == lines[j..j + |run|]
    decreases |lines| - j
  {
    if j < |lines| && IsTraceLine(lines[j]) then [lines[j]] + TraceRun(lines, j + 1) else []
  }

  /** `TraceRun(lines, j)` is the maximal run of trace lines from `j`: the lines
      `lines[j..e]` for the first `e` at or after `j` that is the end of the log or a line
      that is not a trace line. */
  lemma {:induction false} TraceRunIsMaximalRun(lines: seq<string>, j: nat)
    requires j <= |lines|
    ensures var run := TraceRun(lines, j);
      && (forall k :: 0 <= k < |run| ==> IsTraceLine(run[k]))
      && (j + |run| < |lines| ==> !IsTraceLine(lines[j + |run|]))
    decreases |lines| - j
  {
    if j < |lines| && IsTraceLine(lines[j]) {
      TraceRunIsMaximalRun(lines, j + 1);
    }
  }

  /** A finding is well formed when its message is an error line and its stack trace,
      when present, is not the empty string. */
  predicate WellFormed(d: BuildErrorDetail) {
    IsErrorLine(d.errorMessage) && d.stackTrace != Some("")
  }

  /** The finding for the error line at index `i`. */
  function Finding(lines: seq<string>, i: nat): (d: BuildErrorDetail)
    requires i < |lines| && IsErrorLine(lines[i])
    ensures WellFormed(d)
    ensures d.errorMessage == lines[i]
    ensures d.stackTrace.None? <==> TraceRun(lines, i + 1) == []
  {
    var run := TraceRun(lines, i + 1);
    if run == [] then
      BuildErrorDetail(lines[i], None)
    else
      assert run[0] != [] by {
        TraceRunIsMaximalRun(lines, i + 1);
        assert IsTraceLine(run[0]);
      }
      BuildErrorDetail(lines[i], Some(Join(run, TraceSeparator)))
  }

  /** The findings for the lines from index `i` on, in line order. */
  function ExtractFrom(lines: seq<string>, i: nat): (findings: seq<BuildErrorDetail>)
    requires i <= |lines|
    ensures |findings| <= |lines| - i
    ensures forall k :: 0 <= k < |findings| ==> WellFormed(findings[k])
    decreases |lines| - i
  {
    if i == |lines| then []
    else if IsErrorLine(lines[i]) then [Finding(lines, i)] + ExtractFrom(lines, i + 1)
    else ExtractFrom(lines, i + 1)
  }

  /** The findings of one log. */
  function ExtractErrors(lines: seq<string>): (findings: seq<BuildErrorDetail>)
    ensures |findings| <= |lines|
    ensures forall k :: 0 <= k < |findings| ==> WellFormed(findings[k])
  {
    ExtractFrom(lines, 0)
  }

  /** The indices, from `i` on, of the error lines, in increasing order. */
  function ErrorIndicesFrom(lines: seq<string>, i: nat): (idx: seq<nat>)
    requires i <= |lines|
    ensures forall k :: 0 <= k < |idx| ==> i <= idx[k] < |lines| && IsErrorLine(lines[idx[k]])
    ensures forall k, l :: 0 <= k < l < |idx| ==> idx[k] < idx[l]
    ensures forall n :: i <= n < |lines| && IsErrorLine(lines[n]) ==> n in idx
    decreases |lines| - i
  {
    if i == |lines| then []
    else if IsErrorLine(lines[i]) then [i] + ErrorIndicesFrom(lines, i + 1)
    else ErrorIndicesFrom(lines, i + 1)
  }

  lemma {:induction false} ExtractFromIndices(lines: seq<string>, i: nat)
    requires i <= |lines|
    ensures var idx := ErrorIndicesFrom(lines, i);
      && |ExtractFrom(lines, i)| == |idx|
      && forall k :: 0 <= k < |idx| ==> ExtractFrom(lines, i)[k] == Finding(lines, idx[k])
    decreases |lines| - i
  {
    if i < |lines| {
      ExtractFromIndices(lines, i + 1);
      var rest, restIdx := ExtractFrom(lines, i + 1), ErrorIndicesFrom(lines, i + 1);
      if IsErrorLine(lines[i]) {
        assert ExtractFrom(lines, i) == [Finding(lines, i)] + rest;
        assert ErrorIndicesFrom(lines, i) == [i] + restIdx;
      } else {
        assert ExtractFrom(lines, i) == rest;
        assert ErrorIndicesFrom(lines, i) == restIdx;
      }
    }
  }

  /** One finding per error line, in line order, even when that line also sits in the
      stack trace of an earlier finding: the k-th finding belongs to the k-th error line,
      its message is that line verbatim, and its stack trace is absent exactly when the
      line is not followed by a trace line, and otherwise is the maximal run of trace lines
      after it joined with "\n". */
  lemma OneFindingPerErrorLine(lines: seq<string>)
    ensures var findings, idx := ExtractErrors(lines), ErrorIndicesFrom(lines, 0);
      && |findings| == |idx|
      && (forall n :: 0 <= n < |lines| ==> (IsErrorLine(lines[n]) <==> n in idx))
      && (forall k, l :: 0 <= k < l < |idx| ==> idx[k] < idx[l])
      && forall k :: 0 <= k < |idx| ==>
           var run := TraceRun(lines, idx[k] + 1);
           && findings[k].errorMessage == lines[idx[k]]
           && findings[k].stackTrace == if run == [] then None else Some(Join(run, TraceSeparator))
  {
    ExtractFromIndices(lines, 0);
  }

  /** Every error line has its finding among the findings of the log. */
  lemma FindingIsReported(lines: seq<string>, n: nat)
    requires n < |lines| && IsErrorLine(lines[n])
    ensures Finding(lines, n) in ExtractErrors(lines)
  {
    var idx := ErrorIndicesFrom(lines, 0);
    ExtractFromIndices(lines, 0);
    assert n in idx;
    var k :| 0 <= k < |idx| && idx[k] == n;
    assert ExtractErrors(lines)[k] == Finding(lines, n);
  }

  /** A trace line that mentions "error" is reported twice: inside the stack trace of the
      finding before it and as a finding of its own. */
  lemma OverlappingFindings(lines: seq<string>, i: nat, n: nat)
    requires i < n < |lines|
    requires IsErrorLine(lines[i]) && IsErrorLine(lines[n])
    requires n < i + 1 + |TraceRun(lines, i + 1)|
    ensures Finding(lines, i) in ExtractErrors(lines)
    ensures Finding(lines, n) in ExtractErrors(lines)
    ensures lines[n] in TraceRun(lines, i + 1)
  {
    FindingIsReported(lines, i);
    FindingIsReported(lines, n);
    TraceRunIsMaximalRun(lines, i + 1);
    assert TraceRun(lines, i + 1)[n - i - 1] == lines[n];
  }

  /** When no log line holds a line break, the stack trace splits back into exactly the
      lines that follow the error line, with no gap, up to the first line that is not a
      trace line. */
  lemma TraceIsContiguousRun(lines: seq<string>, i: nat)
    requires i < |lines| && IsErrorLine(lines[i])
    requires forall n :: 0 <= n < |lines| ==> '\n' !in lines[n]
    requires Finding(lines, i).stackTrace.Some?
    ensures i + 1 < RunEnd(lines, i + 1) <= |lines|
    ensures Split(Finding(lines, i).stackTrace.value, '\n') == lines[i + 1..RunEnd(lines, i + 1)]
    ensures forall n :: i + 1 <= n < RunEnd(lines, i + 1) ==> IsTraceLine(lines[n])
    ensures RunEnd(lines, i + 1) < |lines| ==> !IsTraceLine(lines[RunEnd(lines, i + 1)])
  {
    var run := TraceRun(lines, i + 1);
    assert run == lines[i + 1..RunEnd(lines, i + 1)];
    assert run != [];
    RunEndBounds(lines, i + 1);
    TraceSplitsBack(lines, i);
  }

  /** `TraceRunIsMaximalRun` by log index: every line before `RunEnd` is a trace line, and
      the line at `RunEnd`, if any, is not. */
  lemma RunEndBounds(lines: seq<string>, j: nat)
    requires j <= |lines|
    ensures forall n :: j <= n < RunEnd(lines, j) ==> IsTraceLine(lines[n])
    ensures RunEnd(lines, j) < |lines| ==> !IsTraceLine(lines[RunEnd(lines, j)])
  {
    var run := TraceRun(lines, j);
    TraceRunIsMaximalRun(lines, j);
    forall n | j <= n < RunEnd(lines, j) ensures IsTraceLine(lines[n]) {
      assert run[n - j] == lines[n];
    }
  }

  /** The index just past the run of trace lines that starts at `j`. */
  function RunEnd(lines: seq<string>, j: nat): (e: nat)
    requires j <= |lines|
    ensures j <= e <= |lines|
  {
    j + |TraceRun(lines, j)|
  }

  /** The stack trace of the error line at `i` splits back into its run of trace lines. */
  lemma TraceSplitsBack(lines: seq<string>, i: nat)
    requires i < |lines| && IsErrorLine(lines[i])
    requires forall n :: 0 <= n < |lines| ==> '\n' !in lines[n]
    requires Finding(lines, i).stackTrace.Some?
    ensures Split(Finding(lines, i).stackTrace.value, '\n') == TraceRun(lines, i + 1)
  {
    var run := TraceRun(lines, i + 1);
    TraceRunIsMaximalRun(lines, i + 1);
    forall k | 0 <= k < |run| ensures '\n' !in run[k] {
      assert run[k] == lines[i + 1 + k];
    }
    SplitJoin(run, '\n');
  }

  /** One step of `ExtractFrom`: the finding of line `i`, if it is an error line, then the rest. */
  lemma ExtractFromStep(lines: seq<string>, i: nat)
    requires i < |lines|
    ensures ExtractFrom(lines, i)
      == (if IsErrorLine(lines[i]) then [Finding(lines, i)] else []) + ExtractFrom(lines, i + 1)
  {
  }

  /** One step of `TraceRun`: a trace line, then the run after it. */
  lemma TraceRunStep(lines: seq<string>, j: nat)
    requires j < |lines| && IsTraceLine(lines[j])
    ensures TraceRun(lines, j) == [lines[j]] + TraceRun(lines, j + 1)
  {
  }

  /** The run is empty at the end of the log and at a line that is not a trace line. */
  lemma TraceRunEnd(lines: seq<string>, j: nat)
    requires j <= |lines|
    requires !(j < |lines| && IsTraceLine(lines[j]))
    ensures TraceRun(lines, j) == []
  {
  }

  /** The source's scan of one log: a `for` loop over the line index with an inner `while`
      that gathers the stack trace. */
  method ScanLog(lines: seq<string>) returns (errorDetails: seq<BuildErrorDetail>)
    ensures errorDetails == ExtractErrors(lines)
  {
    errorDetails := [];
    for i := 0 to |lines|
      invariant errorDetails + ExtractFrom(lines, i) == ExtractErrors(lines)
    {
      var line := lines[i];
      ExtractFromStep(lines, i);
      if IsErrorLine(line) {
        var stackTraceLines := CollectTrace(lines, i + 1);
        var detail := BuildErrorDetail(line, if |stackTraceLines| > 0 then Some(Join(stackTraceLines, TraceSeparator)) else None);
        assert detail == Finding(lines, i);
        assert errorDetails + [detail] + ExtractFrom(lines, i + 1)
          == errorDetails + ([detail] + ExtractFrom(lines, i + 1));
        errorDetails := errorDetails + [detail];
      }
    }
  }

  /** The inner `while` loop: gathers the trace lines from index `start` on. */
  method CollectTrace(lines: seq<string>, start: nat) returns (stackTraceLines: seq<string>)
    requires start <= |lines|
    ensures stackTraceLines == TraceRun(lines, start)
  {
    stackTraceLines := [];
    var j := start;
    while j < |lines| && IsTraceLine(lines[j])
      invariant start <= j <= |lines|
      invariant TraceRun(lines, start) == stackTraceLines + TraceRun(lines, j)
    {
      TraceRunStep(lines, j);
      stackTraceLines := stackTraceLines + [lines[j]];
      j := j + 1;
    }
    TraceRunEnd(lines, j);
  }

  /** A line that is neither indented nor an `at ` line ends the trace: the unindented line
      `done` is neither part of the trace nor a finding. */
  lemma TraceStopsAtUnindentedLine(lines: seq<string>)
    requires lines == ["error: X", "  at foo", "  at bar", "done"]
    ensures ExtractErrors(lines) == [BuildErrorDetail("error: X", Some("  at foo" + "\n" + "  at bar"))]
  {
    assert IsErrorLine(lines[0]) by {
      assert OccursAt(lines[0], ErrorWord, 0);
    }
    UnindentedExampleTail(lines);
    UnindentedExampleTrace(lines);
    assert Join([lines[1], lines[2]], TraceSeparator) == lines[1] + TraceSeparator + lines[2];
  }

  /** The lines after the error line of `TraceStopsAtUnindentedLine` do not mention "error". */
  lemma UnindentedExampleTail(lines: seq<string>)
    requires lines == ["error: X", "  at foo", "  at bar", "done"]
    ensures ExtractFrom(lines, 1) == []
  {
    FooIsNoErrorLine();
    BarIsNoErrorLine();
    DoneIsNoErrorLine();
    assert ExtractFrom(lines, 3) == [];
    assert ExtractFrom(lines, 2) == [];
  }

  /** The trace of the error line of `TraceStopsAtUnindentedLine` is its two `  at` lines. */
  lemma UnindentedExampleTrace(lines: seq<string>)
    requires lines == ["error: X", "  at foo", "  at bar", "done"]
    ensures TraceRun(lines, 1) == [lines[1], lines[2]]
  {
    NotTraceLine("done");
    assert TraceRun(lines, 3) == [];
    assert TraceRun(lines, 2) == [lines[2]];
  }

  /** Two adjacent error lines, neither indented: two findings, neither with a trace. */
  lemma AdjacentErrorLines(lines: seq<string>)
    requires lines == ["error: X", "next error: Y"]
    ensures ExtractErrors(lines)
      == [BuildErrorDetail("error: X", None), BuildErrorDetail("next error: Y", None)]
  {
    assert IsErrorLine(lines[0]) by {
      assert OccursAt(lines[0], ErrorWord, 0);
    }
    assert IsErrorLine(lines[1]) by {
      assert OccursAt(lines[1], ErrorWord, 5);
    }
    assert TraceRun(lines, 1) == [] by {
      NotTraceLine(lines[1]);
    }
    assert ExtractFrom(lines, 1) == [Finding(lines, 1)];
  }

  /** The match is a substring match that ignores case: "errortown" and "Build ERROR" are
      error lines. */
  lemma SubstringMatchIgnoringCase()
    ensures IsErrorLine("errortown")
    ensures IsErrorLine("Build ERROR")
  {
    assert OccursAt("errortown", ErrorWord, 0);
    assert OccursAt("Build ERROR", ErrorWord, 6);
  }

  /** Only a space counts as indentation: a tab-indented line continues a trace only when
      it is an `at ` line. */
  lemma TabIndentedLines()
    ensures !IsTraceLine("\tfoo")
    ensures IsTraceLine("\tat foo")
  {
    assert TrimStart("\tfoo") == "foo" by {
      assert "\tfoo"[1..] == "foo";
    }
    assert TrimStart("\tat foo") == "at foo" by {
      assert "\tat foo"[1..] == "at foo";
    }
  }

  /** A line that starts with a character other than white space or `a` is not a trace line. */
  lemma NotTraceLine(line: string)
    requires line != [] && !IsWhiteSpace(line[0]) && line[0] != 'a'
    ensures !IsTraceLine(line)
  {
    assert TrimStart(line) == line;
  }

  // The three lines of the example, each checked on its own: a call on a literal line
  // costs far less in a lemma of its own than inside the lemma about the whole log.
  lemma FooIsNoErrorLine() ensures !IsErrorLine("  at foo") { LacksLetterOfError("  at foo", 1); }
  lemma BarIsNoErrorLine() ensures !IsErrorLine("  at bar") { LacksLetterOfError("  at bar", 0); }
  lemma DoneIsNoErrorLine() ensures !IsErrorLine("done") { LacksLetterOfError("done", 1); }

  /** A line that lacks one of the letters of "error", in either case, is not an error line. */
  lemma LacksLetterOfError(line: string, p: nat)
    requires p < |ErrorWord|
    requires forall k :: 0 <= k < |line| ==> line[k] != ErrorWord[p] && line[k] as int != ErrorWord[p] as int - 32
    ensures !IsErrorLine(line)
  {
    forall k | 0 <= k && k + |ErrorWord| <= |line| ensures !OccursAt(line, ErrorWord, k) {
      assert line[k..k + |ErrorWord|][p] == line[k + p];
    }
  }
}
