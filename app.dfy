/**
 * public/app.js: `truncate`, the viewer's own copy of `parseJSONL` (no fallback
 * post-pass, reasoning read only from array summaries), and the playback position kept
 * in `state.currentIndex` by `setActiveStep`, `next`, `prev` and `loadSession`.
 */
module App {
  import opened Wrappers
  import opened Payloads
  import opened Reducer

  // ---- truncate ----

  /** The `len` that `truncate` uses when called with one argument. */
  const DefaultTruncateLength: int := 120

  /** `s.slice(0, end)`: a negative end counts back from the end of `s`, and the cut is clamped to `s`. */
  function SlicePrefix(s: string, end: int): (r: string)
    ensures r <= s
    ensures end >= 0 ==> |r| == if end < |s| then end else |s|
    ensures end < 0 ==> |r| == if |s| + end < 0 then 0 else |s| + end
  {
    if end < 0 then (if |s| + end < 0 then [] else s[..|s| + end])
    else if end < |s| then s[..end]
    else s
  }

  /** truncate: a text longer than `len` keeps its first `len - 3` characters and gains "...". */
  function Truncate(text: string, len: int): (r: string)
    ensures text == "" ==> r == ""
    ensures |text| <= len ==> r == text
    ensures |text| > len >= 3 ==> |r| == len && r[..len - 3] == text[..len - 3] && r[len - 3..] == "..."
    ensures text != "" && |text| > len ==> |r| >= 3 && r[|r| - 3..] == "..." && r[..|r| - 3] <= text
  {
    if text == "" then ""
    else if |text| > len then SlicePrefix(text, len - 3) + "..."
    else text
  }

  /** `truncate(text)`, as the step table calls it: never longer than the default length. */
  function TruncateDefault(text: string): (r: string)
    ensures |r| <= DefaultTruncateLength
    ensures |text| <= DefaultTruncateLength ==> r == text
    ensures |text| > DefaultTruncateLength ==>
              |r| == DefaultTruncateLength && r[..DefaultTruncateLength - 3] == text[..DefaultTruncateLength - 3]
  {
    Truncate(text, DefaultTruncateLength)
  }

  /** Below three, `len - 3` is a negative slice end: the result is longer than `len`. */
  lemma TruncateBelowThreeCountsFromTheEnd()
    ensures Truncate("abcdef", 2) == "abcde..."
  {
    assert SlicePrefix("abcdef", -1) == "abcde";
  }

  // ---- parseJSONL, the viewer's copy ----

  /**
   * parseJSONL as the viewer has it: the same loop over the lines as the command line
   * tool, reading reasoning only from an array summary, and no post-pass.
   */
  method ParseJsonl(events: seq<Event>, createdAt: string) returns (session: Session)
    ensures session == Session(DefaultTitle, createdAt, Reduce(AppDialect, events))
  {
    var steps: seq<Step> := [];
    var current: Option<Step> := None;
    var stepIndex: nat := 0;
    var callIndex: map<string, nat> := map[];
    for n := 0 to |events|
      invariant State(current, steps, stepIndex, callIndex) == Run(AppDialect, Init, events[..n])
    {
      var e := events[n];
      ghost var before := State(current, steps, stepIndex, callIndex);
      if e.UserMessage? {
        if current.Some? {
          steps := steps + [current.value];
        }
        stepIndex := stepIndex + 1;
        current := Some(Step(StepId(stepIndex), Or(e.timestamp, e.payloadTimestamp), Or(e.message, e.text), "", "", "", []));
      } else if current.Some? {
        var c := current.value;
        match e {
          case AgentMessage(message) =>
            if c.agentSummary == "" && message != "" {
              current := Some(c.(agentSummary := message));
            }
          case ResponseMessage(content, text) =>
            current := Some(c.(agentOutput := c.agentOutput + ExtractContentText(Either(content, text))));
          case Reasoning(summary) =>
            if c.reasoningSummary == "" && summary.SummaryList? {
              current := Some(c.(reasoningSummary := FirstTextEntry(summary.entries)));
            }
          case FunctionCall(name, arguments, callId) =>
            current := Some(c.(tools := c.tools + [Tool(name, arguments, callId, "", Pending)]));
            if callId != "" {
              callIndex := callIndex[callId := |current.value.tools| - 1];
            }
          case FunctionCallOutput(callId, output) =>
            if callId in callIndex && callIndex[callId] < |c.tools| {
              var idx := callIndex[callId];
              current := Some(c.(tools := c.tools[idx := c.tools[idx].(output := output, status := Ok)]));
            }
          case _ =>
        }
      }
      assert State(current, steps, stepIndex, callIndex) == Apply(AppDialect, before, e);
      RunSnoc(AppDialect, Init, events[..n], e);
      assert events[..n + 1] == events[..n] + [e];
    }
    assert events[..|events|] == events;
    if current.Some? {
      steps := steps + [current.value];
    }
    session := Session(DefaultTitle, createdAt, steps);
  }

  /** A string summary leaves the viewer's reasoning empty, where the command line tool copies it. */
  lemma StringSummaryIgnoredByViewer()
    ensures Reduce(AppDialect, [UserMessage("", "", "go", ""), Reasoning(SummaryString("plan"))])[0].reasoningSummary == ""
    ensures Reduce(CliDialect, [UserMessage("", "", "go", ""), Reasoning(SummaryString("plan"))])[0].reasoningSummary == "plan"
  {
    var u, r := UserMessage("", "", "go", ""), Reasoning(SummaryString("plan"));
    forall d: Dialect
      ensures Run(d, Init, [u, r])
              == State(Some(OpenStep(1, "", "", "go", "").(reasoningSummary := ReasoningOf(d, SummaryString("plan")))), [], 1, map[])
    {
      assert Run(d, Init, [u]) == State(Some(OpenStep(1, "", "", "go", "")), [], 1, map[]) by {
        RunSnoc(d, Init, [], u);
        assert [] + [u] == [u];
      }
      RunSnoc(d, Init, [u], r);
      assert [u] + [r] == [u, r];
    }
  }

  /** Without the post-pass a step with only user text keeps empty reasoning. */
  lemma ViewerSynthesisesNothing(u: string)
    ensures |Reduce(AppDialect, [UserMessage("", "", u, "")])| == 1
    ensures Reduce(AppDialect, [UserMessage("", "", u, "")])[0].reasoningSummary == ""
  {
    RunSnoc(AppDialect, Init, [], UserMessage("", "", u, ""));
    assert [] + [UserMessage("", "", u, "")] == [UserMessage("", "", u, "")];
  }

  // ---- the playback position ----

  /** What the position can be: a step index, or 0 while there are no steps. */
  predicate InRange(i: int, count: nat) {
    0 <= i && (i < count || i == 0)
  }

  /** setActiveStep: move to `index` when it names a step, else stay at `i`. */
  function Settle(i: int, index: int, count: nat): (r: int)
    ensures InRange(i, count) ==> InRange(r, count)
    ensures r == index <==> 0 <= index < count || index == i
    ensures r == index || r == i
  {
    if index < 0 || index >= count then i else index
  }

  /** next: one step forward unless already at the last step. */
  function NextIndex(i: int, count: nat): (r: int)
    ensures InRange(i, count) ==> InRange(r, count) && (r == i + 1 <==> i < count - 1) && (r == i <==> i >= count - 1)
  {
    if i < count - 1 then Settle(i, i + 1, count) else i
  }

  /** prev: one step back, no further than the first step. */
  function PrevIndex(i: int, count: nat): (r: int)
    ensures InRange(i, count) ==> InRange(r, count) && (i > 0 ==> r == i - 1) && (i == 0 ==> r == 0)
  {
    Settle(i, if i - 1 < 0 then 0 else i - 1, count)
  }

  /** However the position is moved, it stays on a step (or at 0 with no steps). */
  lemma NavigationStaysInRange(i: int, index: int, count: nat)
    requires InRange(i, count)
    ensures InRange(Settle(i, index, count), count)
    ensures InRange(NextIndex(i, count), count)
    ensures InRange(PrevIndex(i, count), count)
    ensures NextIndex(i, count) <= (if count > 0 then count - 1 else 0)
    ensures PrevIndex(i, count) >= 0
  {
  }

  /** prev undoes next, except at the last step where next does nothing. */
  lemma PrevUndoesNext(i: int, count: nat)
    requires InRange(i, count) && i < count - 1
    ensures NextIndex(i, count) == i + 1
    ensures PrevIndex(NextIndex(i, count), count) == i
  {
  }

  /** next undoes prev, except at the first step where prev does nothing. */
  lemma NextUndoesPrev(i: int, count: nat)
    requires InRange(i, count) && i > 0
    ensures PrevIndex(i, count) == i - 1
    ensures NextIndex(PrevIndex(i, count), count) == i
  {
  }

  /** The position after `k` calls of next. */
  function Advance(i: int, count: nat, k: nat): int {
    if k == 0 then i else NextIndex(Advance(i, count, k - 1), count)
  }

  /** Repeated next walks forward one step at a time and stops on the last step. */
  lemma {:induction false} AdvanceStopsAtLastStep(i: int, count: nat, k: nat)
    requires InRange(i, count)
    ensures Advance(i, count, k) == if count == 0 then i else if i + k < count - 1 then i + k else count - 1
  {
    if k > 0 {
      AdvanceStopsAtLastStep(i, count, k - 1);
      var j := Advance(i, count, k - 1);
      assert Advance(i, count, k) == NextIndex(j, count);
      if count > 0 && i + k - 1 < count - 1 {
        assert j == i + k - 1;
        assert NextIndex(j, count) == i + k;
      }
    }
  }

  /** The viewer's steps and the index of the step on show. */
  class Player {
    var steps: seq<Step>
    var currentIndex: int

    ghost predicate Valid()
      reads this
    {
      InRange(currentIndex, |steps|)
    }

    /** The initial `state`: no steps, position 0. */
    constructor ()
      ensures Valid()
      ensures steps == [] && currentIndex == 0
    {
      steps := [];
      currentIndex := 0;
    }

    /** setActiveStep, also what the scrubber calls with its parsed value. */
    method SetActiveStep(index: int)
      requires Valid()
      modifies this
      ensures Valid()
      ensures steps == old(steps)
      ensures currentIndex == Settle(old(currentIndex), index, |steps|)
      ensures 0 <= index < |steps| ==> currentIndex == index
      ensures !(0 <= index < |steps|) ==> currentIndex == old(currentIndex)
    {
      if index < 0 || index >= |steps| {
        return;
      }
      currentIndex := index;
    }

    method Next()
      requires Valid()
      modifies this
      ensures Valid()
      ensures steps == old(steps)
      ensures currentIndex == NextIndex(old(currentIndex), |steps|)
    {
      if currentIndex < |steps| - 1 {
        SetActiveStep(currentIndex + 1);
      }
    }

    method Prev()
      requires Valid()
      modifies this
      ensures Valid()
      ensures steps == old(steps)
      ensures currentIndex == PrevIndex(old(currentIndex), |steps|)
    {
      SetActiveStep(if currentIndex - 1 < 0 then 0 else currentIndex - 1);
    }

    /** loadSession: the session's steps when it has an array of them, else none; back to the first step. */
    method LoadSession(sessionSteps: Option<seq<Step>>)
      modifies this
      ensures Valid()
      ensures steps == if sessionSteps.Some? then sessionSteps.value else []
      ensures currentIndex == 0
    {
      steps := if sessionSteps.Some? then sessionSteps.value else [];
      currentIndex := 0;
    }
  }
}
