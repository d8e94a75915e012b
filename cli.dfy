/**
 * cli.js: `parseJSONL` with its fallback post-pass, and the pure helpers `unique`
 * and `generateReasoning` that synthesise a reasoning line for a step that has none.
 */
module Cli {
  import opened Wrappers
  import opened Payloads
  import opened Reducer

  // ---- unique: `[...new Set(arr)]` ----

  /** Each value once, in the order a Set first receives it. */
  function Unique(xs: seq<string>): (r: seq<string>)
    ensures forall i, j :: 0 <= i < j < |r| ==> r[i] != r[j]
    ensures forall x :: x in r <==> x in xs
    ensures |r| <= |xs|
  {
    if xs == [] then []
    else
      var u := Unique(xs[..|xs| - 1]);
      var x := xs[|xs| - 1];
      if x in u then u else u + [x]
  }

  /** The position of the first occurrence of `x`. */
  function FirstIndex(xs: seq<string>, x: string): (i: nat)
    requires x in xs
    ensures i < |xs| && xs[i] == x
    ensures forall j :: 0 <= j < i ==> xs[j] != x
  {
    if xs[0] == x then 0 else 1 + FirstIndex(xs[1..], x)
  }

  lemma {:induction false} FirstIndexSnoc(xs: seq<string>, x: string, y: string)
    requires y in xs
    ensures FirstIndex(xs + [x], y) == FirstIndex(xs, y)
  {
    if xs[0] != y {
      assert (xs + [x])[1..] == xs[1..] + [x];
      FirstIndexSnoc(xs[1..], x, y);
    }
  }

  /** `unique` keeps the order of first occurrences. */
  lemma {:induction false} UniqueKeepsFirstOccurrenceOrder(xs: seq<string>)
    ensures forall i, j :: 0 <= i < j < |Unique(xs)| ==> FirstIndex(xs, Unique(xs)[i]) < FirstIndex(xs, Unique(xs)[j])
  {
    if xs != [] {
      var init, x := xs[..|xs| - 1], xs[|xs| - 1];
      assert xs == init + [x];
      UniqueKeepsFirstOccurrenceOrder(init);
      var u := Unique(init);
      forall y | y in u ensures FirstIndex(xs, y) == FirstIndex(init, y) {
        FirstIndexSnoc(init, x, y);
      }
      if x !in u {
        assert FirstIndex(xs, x) == |init|;
      }
    }
  }

  // ---- the pieces of generateReasoning ----

  /** `.filter(Boolean)` on strings: drop the empty ones, keep the order. */
  function NonEmpty(xs: seq<string>): (r: seq<string>)
    ensures forall x :: x in r <==> x in xs && x != ""
    ensures multiset(r) == multiset(xs)["" := 0]
  {
    if xs == [] then []
    else
      var rest := NonEmpty(xs[..|xs| - 1]);
      assert xs == xs[..|xs| - 1] + [xs[|xs| - 1]];
      if xs[|xs| - 1] != "" then rest + [xs[|xs| - 1]] else rest
  }

  /**
   * Filtering splits over concatenation: the kept values appear in their original order,
   * and a single value is kept exactly when it is not empty.
   */
  lemma {:induction false} NonEmptyAppend(a: seq<string>, b: seq<string>)
    ensures NonEmpty(a + b) == NonEmpty(a) + NonEmpty(b)
    ensures |b| == 1 ==> NonEmpty(b) == if b[0] != "" then b else []
  {
    if b == [] {
      assert a + b == a;
    } else {
      var init, x := b[..|b| - 1], b[|b| - 1];
      assert (a + b)[..|a + b| - 1] == a + init;
      assert (a + b)[|a + b| - 1] == x;
      NonEmptyAppend(a, init);
      var kept := if x != "" then [x] else [];
      assert NonEmpty(a + b) == NonEmpty(a + init) + kept;
      assert NonEmpty(b) == NonEmpty(init) + kept;
      assert NonEmpty(a) + NonEmpty(init) + kept == NonEmpty(a) + (NonEmpty(init) + kept);
      if |b| == 1 {
        assert init == [];
      }
    }
  }

  /** Filtering a list without repeats gives a list without repeats. */
  lemma {:induction false} NonEmptyKeepsDistinct(xs: seq<string>)
    requires forall i, j :: 0 <= i < j < |xs| ==> xs[i] != xs[j]
    ensures forall i, j :: 0 <= i < j < |NonEmpty(xs)| ==> NonEmpty(xs)[i] != NonEmpty(xs)[j]
  {
    if xs != [] {
      var init, x := xs[..|xs| - 1], xs[|xs| - 1];
      NonEmptyKeepsDistinct(init);
      forall k | 0 <= k < |init| ensures init[k] != x {
        assert init[k] == xs[k];
      }
      assert x !in init;
    }
  }

  /** Filtering keeps relative order: two kept values come from positions in the same order. */
  lemma {:induction false} NonEmptyKeepsOrder(xs: seq<string>, i: nat, j: nat)
    requires i < j < |NonEmpty(xs)|
    ensures exists p, q :: 0 <= p < q < |xs| && xs[p] == NonEmpty(xs)[i] && xs[q] == NonEmpty(xs)[j]
  {
    var init := xs[..|xs| - 1];
    var rest := NonEmpty(init);
    if j < |rest| {
      NonEmptyKeepsOrder(init, i, j);
      var p, q :| 0 <= p < q < |init| && init[p] == rest[i] && init[q] == rest[j];
      assert xs[p] == init[p] && xs[q] == init[q];
    } else {
      assert NonEmpty(xs)[i] == rest[i] && rest[i] in init;
      var p :| 0 <= p < |init| && init[p] == rest[i];
      assert xs[p] == init[p];
      assert NonEmpty(xs)[j] == xs[|xs| - 1];
    }
  }

  /** `xs.join(sep)` */
  function Join(xs: seq<string>, sep: string): (r: string)
    ensures xs == [] ==> r == ""
    ensures xs != [] ==> xs[0] <= r
    ensures |xs| >= 2 ==> xs[0] + sep <= r
  {
    if xs == [] then "" else if |xs| == 1 then xs[0] else xs[0] + sep + Join(xs[1..], sep)
  }

  /** `s.replace(/\.$/, "")`: at most one final full stop removed. */
  function StripFinalDot(s: string): (r: string)
    ensures r <= s && |s| <= |r| + 1
    ensures r == s <==> s == "" || s[|s| - 1] != '.'
    ensures r != s ==> r + "." == s
  {
    if s != [] && s[|s| - 1] == '.' then s[..|s| - 1] else s
  }

  /** The user text quoted by the last fallback: cut to 77 characters and "..." when longer than 80. */
  function Clip(s: string): (r: string)
    ensures |s| <= 80 ==> r == s
    ensures |s| > 80 ==> |r| == 80 && r[..77] == s[..77] && r[77..] == "..."
  {
    if |s| > 80 then s[..77] + "..." else s
  }

  function ToolNamesAll(tools: seq<Tool>): (r: seq<string>)
    ensures |r| == |tools|
  {
    seq(|tools|, i requires 0 <= i < |tools| => tools[i].name)
  }

  /** `unique(step.tools.map((t) => t.name)).filter(Boolean)`: each non-empty tool name once. */
  function ToolNames(tools: seq<Tool>): (r: seq<string>)
    ensures forall i, j :: 0 <= i < j < |r| ==> r[i] != r[j]
    ensures forall x :: x in r <==> x in ToolNamesAll(tools) && x != ""
  {
    NonEmptyKeepsDistinct(Unique(ToolNamesAll(tools)));
    NonEmpty(Unique(ToolNamesAll(tools)))
  }

  /** The tool names are listed in the order of each name's first call. */
  lemma ToolNamesInCallOrder(tools: seq<Tool>)
    ensures forall i, j :: 0 <= i < j < |ToolNames(tools)| ==>
      FirstIndex(ToolNamesAll(tools), ToolNames(tools)[i]) < FirstIndex(ToolNamesAll(tools), ToolNames(tools)[j])
  {
    var names := ToolNamesAll(tools);
    var u, r := Unique(names), ToolNames(tools);
    UniqueKeepsFirstOccurrenceOrder(names);
    forall i, j | 0 <= i < j < |r| ensures FirstIndex(names, r[i]) < FirstIndex(names, r[j]) {
      NonEmptyKeepsOrder(u, i, j);
      var p, q :| 0 <= p < q < |u| && u[p] == r[i] && u[q] == r[j];
    }
  }

  predicate SomeToolNamed(tools: seq<Tool>) {
    exists i :: 0 <= i < |tools| && tools[i].name != ""
  }

  lemma ToolNamesNonEmpty(tools: seq<Tool>)
    ensures ToolNames(tools) != [] <==> SomeToolNamed(tools)
  {
    var names := ToolNamesAll(tools);
    if SomeToolNamed(tools) {
      var i :| 0 <= i < |tools| && tools[i].name != "";
      assert names[i] in names;
      assert names[i] in ToolNames(tools);
    }
    if ToolNames(tools) != [] {
      var x := ToolNames(tools)[0];
      assert x in names && x != "";
      var i :| 0 <= i < |names| && names[i] == x;
      assert tools[i].name != "";
    }
  }

  /** The `parts` array of generateReasoning. */
  function ReasoningParts(step: Step): seq<string> {
    var names := ToolNames(step.tools);
    var parts := (if names != [] then ["Used tools: " + Join(names, ", ")] else [])
               + (if step.agentSummary != "" then [StripFinalDot(step.agentSummary)] else []);
    if parts == [] && step.userText != "" then ["Responded to: \"" + Clip(step.userText) + "\""] else parts
  }

  /**
   * generateReasoning: tool names first, then the agent summary, and only when both are
   * missing a quotation of the user's text; the result ends in a full stop exactly when
   * there was anything to say.
   */
  function GenerateReasoning(step: Step): (r: string)
    ensures r != "" <==> SomeToolNamed(step.tools) || step.agentSummary != "" || step.userText != ""
    ensures r != "" ==> r[|r| - 1] == '.'
    ensures SomeToolNamed(step.tools) && step.agentSummary == "" ==>
              r == "Used tools: " + Join(ToolNames(step.tools), ", ") + "."
    ensures SomeToolNamed(step.tools) && step.agentSummary != "" ==>
              r == "Used tools: " + Join(ToolNames(step.tools), ", ") + ". " + StripFinalDot(step.agentSummary) + "."
    ensures !SomeToolNamed(step.tools) && step.agentSummary != "" ==> r == StripFinalDot(step.agentSummary) + "."
    ensures !SomeToolNamed(step.tools) && step.agentSummary == "" && step.userText != ""
            ==> r == "Responded to: \"" + Clip(step.userText) + "\"."
  {
    PartsCases(step);
    var parts := ReasoningParts(step);
    if parts == [] then ""
    else
      JoinPair(parts, ". ");
      var r := Join(parts, ". ") + ".";
      assert r != "" && r[|r| - 1] == '.';
      r
  }

  /** Which parts generateReasoning collects, case by case. */
  lemma PartsCases(step: Step)
    ensures var parts, summary := ReasoningParts(step), StripFinalDot(step.agentSummary);
      && (SomeToolNamed(step.tools) ==>
            parts == ["Used tools: " + Join(ToolNames(step.tools), ", ")] + (if step.agentSummary != "" then [summary] else []))
      && (!SomeToolNamed(step.tools) && step.agentSummary != "" ==> parts == [summary])
      && (!SomeToolNamed(step.tools) && step.agentSummary == "" && step.userText != "" ==>
            parts == ["Responded to: \"" + Clip(step.userText) + "\""])
      && (!SomeToolNamed(step.tools) && step.agentSummary == "" && step.userText == "" ==> parts == [])
  {
    ToolNamesNonEmpty(step.tools);
  }

  /** Joining one or two parts. */
  lemma JoinPair(xs: seq<string>, sep: string)
    ensures |xs| == 1 ==> Join(xs, sep) == xs[0]
    ensures |xs| == 2 ==> Join(xs, sep) == xs[0] + sep + xs[1]
  {
    if |xs| == 2 {
      assert xs[1..] == [xs[1]];
    }
  }

  // ---- the two examples of the fallback ----

  lemma ToolNamesOfRepeatedCalls(tools: seq<Tool>)
    requires tools == [Tool("grep", "", "", "", Pending), Tool("grep", "", "", "", Pending), Tool("ls", "", "", "", Pending)]
    ensures ToolNames(tools) == ["grep", "ls"]
  {
    var names := ToolNamesAll(tools);
    assert names == ["grep", "grep", "ls"];
    assert names[..1] == ["grep"] && names[..2] == ["grep", "grep"];
    assert Unique(names[..1]) == ["grep"] by {
      assert names[..1][..0] == [];
    }
    assert Unique(names[..2]) == ["grep"] by {
      assert names[..2][..1] == names[..1];
    }
    assert Unique(names) == ["grep", "ls"] by {
      assert names[..2] == names[..|names| - 1];
    }
    var u := ["grep", "ls"];
    assert NonEmpty(u[..1]) == ["grep"] by {
      assert u[..1][..0] == [];
    }
    assert u[..|u| - 1] == u[..1];
  }

  lemma FallbackListsEachToolOnce()
    ensures GenerateReasoning(Step("t1", "", "", "", "", "", [Tool("grep", "", "", "", Pending),
                                                             Tool("grep", "", "", "", Pending),
                                                             Tool("ls", "", "", "", Pending)]))
            == "Used tools: grep, ls."
  {
    var tools := [Tool("grep", "", "", "", Pending), Tool("grep", "", "", "", Pending), Tool("ls", "", "", "", Pending)];
    ToolNamesOfRepeatedCalls(tools);
    assert tools[0].name != "";
    GrepLsSentence();
  }

  lemma GrepLsSentence()
    ensures "Used tools: " + Join(["grep", "ls"], ", ") + "." == "Used tools: grep, ls."
  {
    JoinPair(["grep", "ls"], ", ");
    assert "grep" + ", " + "ls" == "grep, ls";
  }

  lemma FallbackQuotesLongUserText()
    ensures GenerateReasoning(Step("t1", "", seq(100, _ => 'A'), "", "", "", []))
            == "Responded to: \"" + seq(77, _ => 'A') + "...\"."
  {
    var u, a77 := seq(100, _ => 'A'), seq(77, _ => 'A');
    assert !SomeToolNamed([]);
    assert u[..77] == a77;
    assert Clip(u) == a77 + "...";
    assert "Responded to: \"" + (a77 + "...") + "\"." == "Responded to: \"" + a77 + "...\".";
  }

  // ---- parseJSONL with the post-pass ----

  /** The post-pass: a step still without reasoning gets the synthesised one. */
  function Fill(step: Step): (r: Step)
    ensures r == step.(reasoningSummary := r.reasoningSummary)
    ensures step.reasoningSummary != "" ==> r == step
    ensures r.reasoningSummary != ""
            <==> step.reasoningSummary != "" || SomeToolNamed(step.tools) || step.agentSummary != "" || step.userText != ""
  {
    if step.reasoningSummary == "" then step.(reasoningSummary := GenerateReasoning(step)) else step
  }

  /** The steps cli.js's `parseJSONL` returns. */
  function Transform(events: seq<Event>): (r: seq<Step>)
    ensures |r| == |Reduce(CliDialect, events)|
    ensures forall i :: 0 <= i < |r| ==>
      var raw := Reduce(CliDialect, events)[i];
      r[i] == raw.(reasoningSummary := r[i].reasoningSummary) && (raw.reasoningSummary != "" ==> r[i] == raw)
  {
    var raw := Reduce(CliDialect, events);
    seq(|raw|, i requires 0 <= i < |raw| => Fill(raw[i]))
  }

  /**
   * The post-pass changes nothing but empty reasoning, and leaves no step without reasoning
   * that has a named tool, an agent summary or a user text; steps keep their ids t1, t2, ...
   */
  lemma TransformFillsReasoning(events: seq<Event>)
    ensures |Transform(events)| == |Reduce(CliDialect, events)| == CountUserMessages(events)
    ensures forall i :: 0 <= i < |Transform(events)| ==>
      var raw, st := Reduce(CliDialect, events)[i], Transform(events)[i];
      && st.id == StepId(i + 1)
      && st == raw.(reasoningSummary := st.reasoningSummary)
      && (raw.reasoningSummary != "" ==> st.reasoningSummary == raw.reasoningSummary)
      && (raw.reasoningSummary != "" || SomeToolNamed(raw.tools) || raw.agentSummary != "" || raw.userText != ""
          <==> st.reasoningSummary != "")
  {
    StepIds(CliDialect, events);
  }

  /** The worked example after the post-pass. */
  lemma FixBugScenarioWithFallback()
    ensures Transform([UserMessage("", "", "fix bug", ""), FunctionCall("grep", "", "c1"),
                       FunctionCallOutput("c1", "3 matches"), AgentMessage("Found it"),
                       UserMessage("", "", "done", "")])
         == [Step("t1", "", "fix bug", "Found it", "Used tools: grep. Found it.", "", [Tool("grep", "", "c1", "3 matches", Ok)]),
             Step("t2", "", "done", "", "Responded to: \"done\".", "", [])]
  {
    FixBugScenario(CliDialect);
    FixBugReasoning();
    QuotesShortUserText("done");
    assert "Responded to: \"" + "done" + "\"." == "Responded to: \"done\".";
    var tools := [Tool("grep", "", "c1", "3 matches", Ok)];
    var raw := [Step("t1", "", "fix bug", "Found it", "", "", tools), Step("t2", "", "done", "", "", "", [])];
    assert Fill(raw[0]) == raw[0].(reasoningSummary := "Used tools: grep. Found it.");
    assert Fill(raw[1]) == raw[1].(reasoningSummary := "Responded to: \"done\".");
  }

  /** The reasoning the post-pass writes for the first step of the worked example. */
  lemma FixBugReasoning()
    ensures GenerateReasoning(Step("t1", "", "fix bug", "Found it", "", "", [Tool("grep", "", "c1", "3 matches", Ok)]))
         == "Used tools: grep. Found it."
  {
    var tools := [Tool("grep", "", "c1", "3 matches", Ok)];
    ToolNamesOfOneCall(tools);
    assert tools[0].name != "";
    GrepFoundItSentence();
  }

  lemma GrepFoundItSentence()
    ensures "Used tools: " + Join(["grep"], ", ") + ". " + StripFinalDot("Found it") + "." == "Used tools: grep. Found it."
  {
    assert StripFinalDot("Found it") == "Found it";
    assert "Used tools: " + "grep" + ". " + "Found it" + "." == "Used tools: grep. Found it.";
  }

  lemma ToolNamesOfOneCall(tools: seq<Tool>)
    requires tools == [Tool("grep", "", "c1", "3 matches", Ok)]
    ensures ToolNames(tools) == ["grep"]
  {
    assert ToolNamesAll(tools) == ["grep"];
    assert ["grep"][..0] == [];
    assert Unique(["grep"]) == ["grep"];
    assert NonEmpty(["grep"]) == ["grep"];
  }

  /** A step with only a short user text is answered by quoting it whole. */
  lemma QuotesShortUserText(u: string)
    requires u != "" && |u| <= 80
    ensures GenerateReasoning(Step("t2", "", u, "", "", "", [])) == "Responded to: \"" + u + "\"."
  {
    assert !SomeToolNamed([]);
  }

  /**
   * parseJSONL: one pass over the lines keeping the open step, the finished steps, the
   * step counter and the call_id table, then a pass filling in missing reasoning.
   */
  method ParseJsonl(events: seq<Event>, createdAt: string) returns (session: Session)
    ensures session == Session(DefaultTitle, createdAt, Transform(events))
  {
    var steps: seq<Step> := [];
    var current: Option<Step> := None;
    var stepIndex: nat := 0;
    var callIndex: map<string, nat> := map[];
    for n := 0 to |events|
      invariant State(current, steps, stepIndex, callIndex) == Run(CliDialect, Init, events[..n])
    {
      var e := events[n];
      ghost var before := State(current, steps, stepIndex, callIndex);
      if e.UserMessage? {
        if current.Some? {
          steps := steps + [current.value];
        }
        stepIndex := stepIndex + 1;
        current := Some(Step(StepId(stepIndex), Or(e.timestamp, e.payloadTimestamp), Or(e.message, e.text), "", "", "", []));
      } else if current.Some? {
        var c := current.value;
        match e {
          case AgentMessage(message) =>
            if c.agentSummary == "" && message != "" {
              current := Some(c.(agentSummary := message));
            }
          case ResponseMessage(content, text) =>
            current := Some(c.(agentOutput := c.agentOutput + ExtractContentText(Either(content, text))));
          case Reasoning(summary) =>
            if c.reasoningSummary == "" {
              current := Some(c.(reasoningSummary := ParseReasoningSummary(summary)));
            }
          case FunctionCall(name, arguments, callId) =>
            current := Some(c.(tools := c.tools + [Tool(name, arguments, callId, "", Pending)]));
            if callId != "" {
              callIndex := callIndex[callId := |current.value.tools| - 1];
            }
          case FunctionCallOutput(callId, output) =>
            if callId in callIndex && callIndex[callId] < |c.tools| {
              var idx := callIndex[callId];
              current := Some(c.(tools := c.tools[idx := c.tools[idx].(output := output, status := Ok)]));
            }
          case _ =>
        }
      }
      assert State(current, steps, stepIndex, callIndex) == Apply(CliDialect, before, e);
      RunSnoc(CliDialect, Init, events[..n], e);
      assert events[..n + 1] == events[..n] + [e];
    }
    assert events[..|events|] == events;
    if current.Some? {
      steps := steps + [current.value];
    }
    assert steps == Reduce(CliDialect, events);
    steps := FillMissingReasoning(steps);
    assert steps == Transform(events);
    session := Session(DefaultTitle, createdAt, steps);
  }

  /** The post-pass of parseJSONL: each step without reasoning gets the generated one, in place. */
  method FillMissingReasoning(raw: seq<Step>) returns (steps: seq<Step>)
    ensures |steps| == |raw|
    ensures forall j :: 0 <= j < |raw| ==> steps[j] == Fill(raw[j])
  {
    steps := raw;
    for n := 0 to |steps|
      invariant |steps| == |raw|
      invariant forall j :: 0 <= j < n ==> steps[j] == Fill(raw[j])
      invariant forall j :: n <= j < |raw| ==> steps[j] == raw[j]
    {
      assert steps[n] == raw[n];
      if steps[n].reasoningSummary == "" {
        var reasoning := GenerateReasoning(steps[n]);
        assert steps[n].(reasoningSummary := reasoning) == Fill(raw[n]);
        steps := steps[n := steps[n].(reasoningSummary := reasoning)];
      } else {
        assert steps[n] == Fill(raw[n]);
      }
    }
  }
}
