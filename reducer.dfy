/**
 * The log-to-step reducer shared by `parseJSONL` in cli.js and in public/app.js.
 *
 * Each line of the log is given here already parsed and classified as an `Event`.
 * The reducer is a left fold of `Apply` over the events; `Reduce` closes the last
 * open step at end of input. The two copies in the source differ only in how they
 * read a reasoning summary, which `Dialect` selects; the fallback post-pass of
 * cli.js lives in module Cli.
 */
module Reducer {
  import opened Wrappers
  import opened Payloads

  /** One line of the log, classified by its `type` and its `payload.type`. */
  datatype Event =
    | UserMessage(timestamp: string, payloadTimestamp: string, message: string, text: string)
    | AgentMessage(message: string)
    | ResponseMessage(content: Content, textContent: Content)
    | Reasoning(summary: Summary)
    | FunctionCall(name: string, arguments: string, callId: string)
    | FunctionCallOutput(callId: string, output: string)
    | NullRecord      // a line that parses to JSON `null`
    | Unparseable     // a blank line or one that is not JSON
    | Other           // any other record

  datatype Status = Pending | Ok

  datatype Tool = Tool(name: string, arguments: string, callId: string, output: string, status: Status)

  datatype Step = Step(
    id: string,
    timestamp: string,
    userText: string,
    agentSummary: string,
    reasoningSummary: string,
    agentOutput: string,
    tools: seq<Tool>)

  /** The session object returned by both `parseJSONL` copies. */
  datatype Session = Session(title: string, createdAt: string, steps: seq<Step>)

  const DefaultTitle: string := "Playback"

  /** Which copy of `parseJSONL` is meant: they read reasoning summaries differently. */
  datatype Dialect = CliDialect | AppDialect

  /** The loop's variables: `current`, `steps`, `stepIndex` and the `callIndex` Map. */
  datatype State = State(current: Option<Step>, steps: seq<Step>, stepIndex: nat, callIndex: map<string, nat>)

  const Init: State := State(None, [], 0, map[])

  // ---- step ids: `t${stepIndex}` ----

  function DigitChar(d: nat): char
    requires d < 10
  {
    (48 + d) as char
  }

  /** The decimal rendering of a number, as a JavaScript template literal produces it. */
  function Decimal(n: nat): (r: string)
    ensures |r| >= 1
    ensures n >= 10 ==> |r| >= 2
    decreases n
  {
    if n < 10 then [DigitChar(n)] else Decimal(n / 10) + [DigitChar(n % 10)]
  }

  /** Different numbers render differently, so step ids never collide. */
  lemma {:induction false} DecimalInjective(a: nat, b: nat)
    requires Decimal(a) == Decimal(b)
    ensures a == b
    decreases a
  {
    if a < 10 && b < 10 {
      assert DigitChar(a) == Decimal(a)[0] == Decimal(b)[0] == DigitChar(b);
      assert (DigitChar(a) as int) == 48 + a;
    } else if a >= 10 && b >= 10 {
      var da, db := Decimal(a), Decimal(b);
      assert da[|da| - 1] == DigitChar(a % 10) && db[|db| - 1] == DigitChar(b % 10);
      assert (DigitChar(a % 10) as int) == 48 + a % 10;
      assert da[..|da| - 1] == Decimal(a / 10) && db[..|db| - 1] == Decimal(b / 10);
      DecimalInjective(a / 10, b / 10);
    }
  }

  function StepId(n: nat): string {
    "t" + Decimal(n)
  }

  lemma StepIdInjective(a: nat, b: nat)
    requires StepId(a) == StepId(b)
    ensures a == b
  {
    assert Decimal(a) == StepId(a)[1..] == StepId(b)[1..] == Decimal(b);
    DecimalInjective(a, b);
  }

  // ---- one event ----

  /** The step a `user_message` opens. */
  function OpenStep(n: nat, timestamp: string, payloadTimestamp: string, message: string, text: string): (r: Step)
    ensures r.id == StepId(n) && r.tools == []
    ensures r.agentSummary == "" && r.reasoningSummary == "" && r.agentOutput == ""
    ensures r.userText == "" <==> message == "" && text == ""
  {
    Step(StepId(n), Or(timestamp, payloadTimestamp), Or(message, text), "", "", "", [])
  }

  function ReasoningOf(d: Dialect, summary: Summary): string {
    match d
    case CliDialect => ParseReasoningSummary(summary)
    case AppDialect => FindReasoningSummary(summary)
  }

  /** The text a `message` response item adds to `agent_output`. */
  function MessageTextOf(content: Content, text: Content): string {
    ExtractContentText(Either(content, text))
  }

  /**
   * One turn of the loop body. A `user_message` closes the open step exactly as the end of
   * input does and opens the next one; nothing else closes a step or moves the counter, and
   * only a `function_call` touches the call_id table, which is never cleared.
   */
  function Apply(d: Dialect, s: State, e: Event): (r: State)
    ensures s.steps <= r.steps
    ensures r.stepIndex == s.stepIndex + (if e.UserMessage? then 1 else 0)
    ensures e.UserMessage? ==> r.steps == Finish(s) && r.current.Some? && r.current.value.tools == []
    ensures !e.UserMessage? ==> r.steps == s.steps && r.current.Some? == s.current.Some?
    ensures !e.FunctionCall? ==> r.callIndex == s.callIndex
  {
    if e.UserMessage? then
      var closed := if s.current.Some? then s.steps + [s.current.value] else s.steps;
      State(Some(OpenStep(s.stepIndex + 1, e.timestamp, e.payloadTimestamp, e.message, e.text)),
            closed, s.stepIndex + 1, s.callIndex)
    else if s.current.None? then s
    else
      var c := s.current.value;
      match e
      case AgentMessage(m) =>
        s.(current := Some(c.(agentSummary := Or(c.agentSummary, m))))
      case ResponseMessage(content, text) =>
        s.(current := Some(c.(agentOutput := c.agentOutput + MessageTextOf(content, text))))
      case Reasoning(summary) =>
        s.(current := Some(c.(reasoningSummary := Or(c.reasoningSummary, ReasoningOf(d, summary)))))
      case FunctionCall(name, arguments, callId) =>
        s.(current := Some(c.(tools := c.tools + [Tool(name, arguments, callId, "", Pending)])),
           callIndex := if callId != "" then s.callIndex[callId := |c.tools|] else s.callIndex)
      case FunctionCallOutput(callId, output) =>
        if callId in s.callIndex && s.callIndex[callId] < |c.tools| then
          var idx := s.callIndex[callId];
          s.(current := Some(c.(tools := c.tools[idx := c.tools[idx].(output := output, status := Ok)])))
        else s
      case _ => s
  }

  /** The fold over a prefix of the log, starting from state `s`. */
  function Run(d: Dialect, s: State, events: seq<Event>): (r: State)
    ensures s.steps <= r.steps
    ensures r.stepIndex >= s.stepIndex
    decreases |events|
  {
    if events == [] then s else Apply(d, Run(d, s, events[..|events| - 1]), events[|events| - 1])
  }

  /** `if (current) steps.push(current)` at end of input. */
  function Finish(s: State): (r: seq<Step>)
    ensures s.steps <= r
    ensures |r| == |s.steps| + (if s.current.Some? then 1 else 0)
    ensures s.current.Some? ==> r[|s.steps|] == s.current.value
  {
    if s.current.Some? then s.steps + [s.current.value] else s.steps
  }

  /** The steps `parseJSONL` returns, before the cli.js post-pass. */
  function Reduce(d: Dialect, events: seq<Event>): (r: seq<Step>)
    ensures |r| == CountUserMessages(events)
  {
    RunNumbered(d, events);
    FinishNumbered(Run(d, Init, events));
    Finish(Run(d, Init, events))
  }

  // ---- specification views of a log ----

  function CountUserMessages(events: seq<Event>): nat {
    if events == [] then 0
    else CountUserMessages(events[..|events| - 1]) + (if events[|events| - 1].UserMessage? then 1 else 0)
  }

  function CountResults(events: seq<Event>): nat {
    if events == [] then 0
    else CountResults(events[..|events| - 1]) + (if events[|events| - 1].FunctionCallOutput? then 1 else 0)
  }

  /** The in-order concatenation of the text of every `message` response item. */
  function MessageText(events: seq<Event>): string {
    if events == [] then ""
    else
      var e := events[|events| - 1];
      MessageText(events[..|events| - 1]) + (if e.ResponseMessage? then MessageTextOf(e.content, e.textContent) else "")
  }

  /** The messages of the `agent_message` events, in order. */
  function AgentMessages(events: seq<Event>): seq<string> {
    if events == [] then []
    else
      var e := events[|events| - 1];
      AgentMessages(events[..|events| - 1]) + (if e.AgentMessage? then [e.message] else [])
  }

  /** The text each `reasoning` item yields, in order. */
  function ReasoningTexts(d: Dialect, events: seq<Event>): seq<string> {
    if events == [] then []
    else
      var e := events[|events| - 1];
      ReasoningTexts(d, events[..|events| - 1]) + (if e.Reasoning? then [ReasoningOf(d, e.summary)] else [])
  }

  /** The tools the `function_call` events create, in order, each still pending. */
  function CalledTools(events: seq<Event>): seq<Tool> {
    if events == [] then []
    else
      var e := events[|events| - 1];
      CalledTools(events[..|events| - 1]) + (if e.FunctionCall? then [Tool(e.name, e.arguments, e.callId, "", Pending)] else [])
  }

  /** A tool as it was when called: its result cleared. */
  function AsCalled(t: Tool): Tool {
    t.(output := "", status := Pending)
  }

  function AsCalledAll(tools: seq<Tool>): (r: seq<Tool>)
    ensures |r| == |tools|
  {
    seq(|tools|, i requires 0 <= i < |tools| => AsCalled(tools[i]))
  }

  /** The first non-empty string of a sequence, or "" when all are empty. */
  function FirstNonEmpty(xs: seq<string>): (r: string)
    ensures r == "" <==> forall i :: 0 <= i < |xs| ==> xs[i] == ""
    ensures r != "" ==> exists i :: 0 <= i < |xs| && xs[i] == r && forall j :: 0 <= j < i ==> xs[j] == ""
  {
    if xs == [] then ""
    else if xs[0] != "" then xs[0]
    else
      var r := FirstNonEmpty(xs[1..]);
      assert forall i :: 1 <= i < |xs| ==> xs[i] == xs[1..][i - 1];
      r
  }

  lemma {:induction false} FirstNonEmptySnoc(xs: seq<string>, x: string)
    ensures FirstNonEmpty(xs + [x]) == Or(FirstNonEmpty(xs), x)
  {
    if xs == [] {
      assert [x][1..] == [];
    } else {
      assert (xs + [x])[1..] == xs[1..] + [x];
      FirstNonEmptySnoc(xs[1..], x);
    }
  }

  // ---- the fold over concatenated logs ----

  lemma {:induction false} RunAppend(d: Dialect, s: State, a: seq<Event>, b: seq<Event>)
    ensures Run(d, s, a + b) == Run(d, Run(d, s, a), b)
    decreases |b|
  {
    if b == [] {
      assert a + b == a;
    } else {
      assert (a + b)[..|a + b| - 1] == a + b[..|b| - 1];
      assert (a + b)[|a + b| - 1] == b[|b| - 1];
      RunAppend(d, s, a, b[..|b| - 1]);
    }
  }

  // ---- step numbering ----

  /** The loop's invariant: every closed step `i` has id t(i+1), the open one the newest id. */
  ghost predicate Numbered(s: State) {
    && |s.steps| + (if s.current.Some? then 1 else 0) == s.stepIndex
    && (s.current.None? ==> s.stepIndex == 0)
    && (s.current.Some? ==> s.current.value.id == StepId(s.stepIndex))
    && forall i :: 0 <= i < |s.steps| ==> s.steps[i].id == StepId(i + 1)
  }

  lemma {:induction false} RunNumbered(d: Dialect, events: seq<Event>)
    ensures Numbered(Run(d, Init, events))
    ensures Run(d, Init, events).stepIndex == CountUserMessages(events)
    decreases |events|
  {
    if events != [] {
      RunNumbered(d, events[..|events| - 1]);
    }
  }

  /** Closing the open step of a numbered state numbers every step by its position. */
  lemma FinishNumbered(s: State)
    requires Numbered(s)
    ensures |Finish(s)| == s.stepIndex
    ensures forall i :: 0 <= i < |Finish(s)| ==> Finish(s)[i].id == StepId(i + 1)
  {
  }

  /** one step per `user_message`, in order, step `i` having id "t" + (i + 1); ids are distinct. */
  lemma StepIds(d: Dialect, events: seq<Event>)
    ensures |Reduce(d, events)| == CountUserMessages(events)
    ensures forall i :: 0 <= i < |Reduce(d, events)| ==> Reduce(d, events)[i].id == StepId(i + 1)
    ensures forall i, j :: 0 <= i < j < |Reduce(d, events)| ==> Reduce(d, events)[i].id != Reduce(d, events)[j].id
  {
    RunNumbered(d, events);
    FinishNumbered(Run(d, Init, events));
    var r := Reduce(d, events);
    forall i, j | 0 <= i < j < |r| ensures r[i].id != r[j].id {
      if r[i].id == r[j].id {
        StepIdInjective(i + 1, j + 1);
      }
    }
  }

  /** Without a step open, every event but `user_message` leaves the state as it is. */
  lemma IgnoredWhileClosed(d: Dialect, s: State, e: Event)
    requires s.current.None? && !e.UserMessage?
    ensures Apply(d, s, e) == s
  {
  }

  /** A log without `user_message` events produces no step at all. */
  lemma {:induction false} NoUserMessageNoState(d: Dialect, events: seq<Event>)
    requires CountUserMessages(events) == 0
    ensures Run(d, Init, events) == Init
    ensures Reduce(d, events) == []
    decreases |events|
  {
    if events != [] {
      NoUserMessageNoState(d, events[..|events| - 1]);
    }
  }

  /** Events before the first `user_message` are dropped: they neither open a step nor register a call. */
  lemma LeadingEventsDropped(d: Dialect, pre: seq<Event>, rest: seq<Event>)
    requires CountUserMessages(pre) == 0
    ensures Reduce(d, pre + rest) == Reduce(d, rest)
  {
    RunAppend(d, Init, pre, rest);
    NoUserMessageNoState(d, pre);
  }

  // ---- one step, from its `user_message` to the next ----

  /** How the open step relates to the events seen since it opened. */
  ghost predicate Accumulated(d: Dialect, c: Step, c': Step, seg: seq<Event>) {
    && c'.id == c.id && c'.timestamp == c.timestamp && c'.userText == c.userText
    && c'.agentOutput == c.agentOutput + MessageText(seg)
    && c'.agentSummary == Or(c.agentSummary, FirstNonEmpty(AgentMessages(seg)))
    && c'.reasoningSummary == Or(c.reasoningSummary, FirstNonEmpty(ReasoningTexts(d, seg)))
    && AsCalledAll(c'.tools) == AsCalledAll(c.tools) + CalledTools(seg)
    && (CountResults(seg) == 0 ==> c'.tools == c.tools + CalledTools(seg))
  }

  lemma OrAssoc(a: string, b: string, c: string)
    ensures Or(Or(a, b), c) == Or(a, Or(b, c))
  {
  }

  /** Within a step, later events never close it, renumber it or touch the closed steps. */
  lemma {:induction false} SegmentKeepsStep(d: Dialect, s: State, seg: seq<Event>)
    requires s.current.Some? && CountUserMessages(seg) == 0
    ensures Run(d, s, seg).current.Some?
    ensures Run(d, s, seg).steps == s.steps && Run(d, s, seg).stepIndex == s.stepIndex
    ensures Run(d, s, seg).current.value.id == s.current.value.id
    ensures Run(d, s, seg).current.value.timestamp == s.current.value.timestamp
    ensures Run(d, s, seg).current.value.userText == s.current.value.userText
    decreases |seg|
  {
    if seg != [] {
      SegmentKeepsStep(d, s, seg[..|seg| - 1]);
    }
  }

  /** `agent_output` only grows, by the text of each `message` item in turn. */
  lemma {:induction false} SegmentOutput(d: Dialect, s: State, seg: seq<Event>)
    requires s.current.Some? && CountUserMessages(seg) == 0
    ensures Run(d, s, seg).current.Some?
    ensures Run(d, s, seg).current.value.agentOutput == s.current.value.agentOutput + MessageText(seg)
    decreases |seg|
  {
    SegmentKeepsStep(d, s, seg);
    if seg != [] {
      var init, e := seg[..|seg| - 1], seg[|seg| - 1];
      SegmentOutput(d, s, init);
      SegmentKeepsStep(d, s, init);
      var p := Run(d, s, init);
      assert !e.UserMessage? && CountUserMessages(init) == 0;
      var extra := if e.ResponseMessage? then MessageTextOf(e.content, e.textContent) else "";
      assert Run(d, s, seg).current.value.agentOutput == p.current.value.agentOutput + extra;
      assert MessageText(seg) == MessageText(init) + extra;
      assert s.current.value.agentOutput + MessageText(init) + extra == s.current.value.agentOutput + MessageText(seg);
    }
  }

  /** `agent_summary` is the first non-empty agent message, unless it was already set. */
  lemma {:induction false} SegmentSummary(d: Dialect, s: State, seg: seq<Event>)
    requires s.current.Some? && CountUserMessages(seg) == 0
    ensures Run(d, s, seg).current.Some?
    ensures Run(d, s, seg).current.value.agentSummary == Or(s.current.value.agentSummary, FirstNonEmpty(AgentMessages(seg)))
    decreases |seg|
  {
    SegmentKeepsStep(d, s, seg);
    if seg != [] {
      var init, e := seg[..|seg| - 1], seg[|seg| - 1];
      SegmentSummary(d, s, init);
      SegmentKeepsStep(d, s, init);
      if e.AgentMessage? {
        FirstNonEmptySnoc(AgentMessages(init), e.message);
        OrAssoc(s.current.value.agentSummary, FirstNonEmpty(AgentMessages(init)), e.message);
      } else {
        assert AgentMessages(seg) == AgentMessages(init);
      }
    }
  }

  /** `reasoning_summary` is the first non-empty reasoning text, unless it was already set. */
  lemma {:induction false} SegmentReasoning(d: Dialect, s: State, seg: seq<Event>)
    requires s.current.Some? && CountUserMessages(seg) == 0
    ensures Run(d, s, seg).current.Some?
    ensures Run(d, s, seg).current.value.reasoningSummary
         == Or(s.current.value.reasoningSummary, FirstNonEmpty(ReasoningTexts(d, seg)))
    decreases |seg|
  {
    SegmentKeepsStep(d, s, seg);
    if seg != [] {
      var init, e := seg[..|seg| - 1], seg[|seg| - 1];
      SegmentReasoning(d, s, init);
      SegmentKeepsStep(d, s, init);
      if e.Reasoning? {
        var x := ReasoningOf(d, e.summary);
        assert ReasoningTexts(d, seg) == ReasoningTexts(d, init) + [x];
        assert Run(d, s, seg).current.value.reasoningSummary == Or(Run(d, s, init).current.value.reasoningSummary, x);
        FirstNonEmptySnoc(ReasoningTexts(d, init), x);
        OrAssoc(s.current.value.reasoningSummary, FirstNonEmpty(ReasoningTexts(d, init)), x);
      } else {
        assert ReasoningTexts(d, seg) == ReasoningTexts(d, init);
      }
    }
  }

  /** tools are only appended, one per call; a result changes only a tool's output and status. */
  lemma {:induction false} SegmentTools(d: Dialect, s: State, seg: seq<Event>)
    requires s.current.Some? && CountUserMessages(seg) == 0
    ensures Run(d, s, seg).current.Some?
    ensures AsCalledAll(Run(d, s, seg).current.value.tools) == AsCalledAll(s.current.value.tools) + CalledTools(seg)
    ensures CountResults(seg) == 0 ==> Run(d, s, seg).current.value.tools == s.current.value.tools + CalledTools(seg)
    decreases |seg|
  {
    SegmentKeepsStep(d, s, seg);
    if seg != [] {
      var init, e := seg[..|seg| - 1], seg[|seg| - 1];
      SegmentTools(d, s, init);
      SegmentKeepsStep(d, s, init);
      ToolsAfter(d, Run(d, s, init), e);
    }
  }

  /** One event's effect on the open step's tools. */
  lemma ToolsAfter(d: Dialect, p: State, e: Event)
    requires p.current.Some? && !e.UserMessage?
    ensures Apply(d, p, e).current.Some?
    ensures var called := if e.FunctionCall? then [Tool(e.name, e.arguments, e.callId, "", Pending)] else [];
      AsCalledAll(Apply(d, p, e).current.value.tools) == AsCalledAll(p.current.value.tools) + called
    ensures !e.FunctionCallOutput? ==>
      Apply(d, p, e).current.value.tools == p.current.value.tools + (if e.FunctionCall? then [Tool(e.name, e.arguments, e.callId, "", Pending)] else [])
  {
    var tp := p.current.value.tools;
    var tq := Apply(d, p, e).current.value.tools;
    if e.FunctionCall? {
      var t := Tool(e.name, e.arguments, e.callId, "", Pending);
      assert tq == tp + [t];
      assert AsCalledAll(tq) == AsCalledAll(tp) + [t];
    } else {
      assert AsCalledAll(tq) == AsCalledAll(tp);
      if !e.FunctionCallOutput? {
        assert tq == tp + [];
      }
    }
  }

  lemma SegmentAccumulates(d: Dialect, s: State, seg: seq<Event>)
    requires s.current.Some? && CountUserMessages(seg) == 0
    ensures Run(d, s, seg).current.Some?
    ensures Run(d, s, seg).steps == s.steps && Run(d, s, seg).stepIndex == s.stepIndex
    ensures Accumulated(d, s.current.value, Run(d, s, seg).current.value, seg)
  {
    SegmentKeepsStep(d, s, seg);
    SegmentOutput(d, s, seg);
    SegmentSummary(d, s, seg);
    SegmentReasoning(d, s, seg);
    SegmentTools(d, s, seg);
  }

  /**
   * The step opened by `u` and closed by the next `user_message` (or by the end
   * of input) is step number k + 1, where k counts the earlier `user_message` events; it
   * keeps the first non-empty agent message and reasoning text, the in-order text of all
   * messages, and one tool per call, in call order.
   */
  lemma SegmentBecomesStep(d: Dialect, pre: seq<Event>, u: Event, seg: seq<Event>, post: seq<Event>)
    requires u.UserMessage? && CountUserMessages(seg) == 0
    requires post == [] || post[0].UserMessage?
    ensures CountUserMessages(pre) < |Reduce(d, pre + [u] + seg + post)|
    ensures var st := Reduce(d, pre + [u] + seg + post)[CountUserMessages(pre)];
      && st.id == StepId(CountUserMessages(pre) + 1)
      && st.timestamp == Or(u.timestamp, u.payloadTimestamp)
      && st.userText == Or(u.message, u.text)
      && st.agentOutput == MessageText(seg)
      && st.agentSummary == FirstNonEmpty(AgentMessages(seg))
      && st.reasoningSummary == FirstNonEmpty(ReasoningTexts(d, seg))
      && AsCalledAll(st.tools) == CalledTools(seg)
      && (CountResults(seg) == 0 ==> st.tools == CalledTools(seg))
  {
    var k := CountUserMessages(pre);
    RunNumbered(d, pre);
    var s0 := Run(d, Init, pre);
    var s1 := Apply(d, s0, u);
    assert |s1.steps| == k;
    assert (pre + [u])[..|pre + [u]| - 1] == pre;
    assert Run(d, Init, pre + [u]) == s1;
    SegmentAccumulates(d, s1, seg);
    RunAppend(d, Init, pre + [u], seg);
    var s2 := Run(d, Init, pre + [u] + seg);
    assert s2 == Run(d, s1, seg);
    assert AsCalledAll(s1.current.value.tools) == [];
    RunAppend(d, Init, pre + [u] + seg, post);
    StepClosed(d, s2, post);
  }

  /** The open step is the next step of the result once the input ends or the next `user_message` arrives. */
  lemma StepClosed(d: Dialect, s: State, post: seq<Event>)
    requires s.current.Some?
    requires post == [] || post[0].UserMessage?
    ensures |s.steps| < |Finish(Run(d, s, post))|
    ensures Finish(Run(d, s, post))[|s.steps|] == s.current.value
  {
    if post != [] {
      var s1 := Apply(d, s, post[0]);
      assert s1.steps == s.steps + [s.current.value];
      RunAppend(d, s, [post[0]], post[1..]);
      assert [post[0]] + post[1..] == post;
      assert [post[0]][..0] == [];
      assert Run(d, s, [post[0]]) == s1;
    }
  }

  // ---- tool calls and their results ----

  /** A `function_call` appends one pending tool and, for a non-empty call_id, (re)registers it at that index. */
  lemma CallAppendsPendingTool(d: Dialect, s: State, name: string, arguments: string, callId: string)
    requires s.current.Some?
    ensures var r := Apply(d, s, FunctionCall(name, arguments, callId));
      && r.current.Some?
      && r.current.value.tools == s.current.value.tools + [Tool(name, arguments, callId, "", Pending)]
      && r.callIndex == (if callId != "" then s.callIndex[callId := |s.current.value.tools|] else s.callIndex)
      && r.steps == s.steps
  {
  }

  /** A result whose call_id is registered at an index of the open step's tools fills in that tool. */
  lemma ResultFillsOpenStepTool(d: Dialect, s: State, callId: string, output: string)
    requires s.current.Some? && callId in s.callIndex && s.callIndex[callId] < |s.current.value.tools|
    ensures var r := Apply(d, s, FunctionCallOutput(callId, output)); var idx := s.callIndex[callId];
      && r.current.Some?
      && r.current.value.tools[idx] == s.current.value.tools[idx].(output := output, status := Ok)
      && (forall j :: 0 <= j < |s.current.value.tools| && j != idx ==> r.current.value.tools[j] == s.current.value.tools[j])
      && |r.current.value.tools| == |s.current.value.tools|
      && r.current.value == s.current.value.(tools := r.current.value.tools)
      && r.steps == s.steps && r.stepIndex == s.stepIndex && r.callIndex == s.callIndex
  {
  }

  /** A result with an unknown call_id, or one registered past the open step's tools, changes nothing. */
  lemma UnmatchedResultDropped(d: Dialect, s: State, callId: string, output: string)
    requires s.current.None? || callId !in s.callIndex || s.callIndex[callId] >= |s.current.value.tools|
    ensures Apply(d, s, FunctionCallOutput(callId, output)) == s
  {
  }

  /** Lines that are not JSON, not a known record, or JSON `null` are skipped. */
  lemma UnrecognisedLinesSkipped(d: Dialect, s: State, e: Event)
    requires e.Unparseable? || e.Other? || e.NullRecord?
    ensures Apply(d, s, e) == s
  {
  }

  // ---- concrete logs ----

  lemma RunSnoc(d: Dialect, s: State, a: seq<Event>, e: Event)
    ensures Run(d, s, a + [e]) == Apply(d, Run(d, s, a), e)
  {
    assert (a + [e])[..|a + [e]| - 1] == a;
  }

  /** The opening of the worked example: a call and its answer within step t1. */
  lemma FixBugOpening(d: Dialect)
    ensures Run(d, Init, [UserMessage("", "", "fix bug", ""), FunctionCall("grep", "", "c1"), FunctionCallOutput("c1", "3 matches")])
         == State(Some(Step("t1", "", "fix bug", "", "", "", [Tool("grep", "", "c1", "3 matches", Ok)])), [], 1, map["c1" := 0])
  {
    var e0, e1, e2 := UserMessage("", "", "fix bug", ""), FunctionCall("grep", "", "c1"), FunctionCallOutput("c1", "3 matches");
    var grep := Tool("grep", "", "c1", "", Pending);
    var done := grep.(output := "3 matches", status := Ok);
    var s1 := State(Some(Step("t1", "", "fix bug", "", "", "", [])), [], 1, map[]);
    var s2 := State(Some(Step("t1", "", "fix bug", "", "", "", [grep])), [], 1, map["c1" := 0]);
    assert Run(d, Init, [e0]) == s1 by {
      RunSnoc(d, Init, [], e0);
      assert [] + [e0] == [e0];
      assert StepId(1) == "t1";
    }
    assert Run(d, Init, [e0, e1]) == s2 by {
      RunSnoc(d, Init, [e0], e1);
      assert [e0] + [e1] == [e0, e1];
      assert "c1" != "";
      assert [] + [grep] == [grep];
      assert Apply(d, s1, e1).callIndex == map["c1" := 0];
    }
    RunSnoc(d, Init, [e0, e1], e2);
    assert [e0, e1] + [e2] == [e0, e1, e2];
    assert [grep][0 := done] == [done];
  }

  /** The worked example: a call answered within its step, then a second step left open. */
  lemma FixBugScenario(d: Dialect)
    ensures var r := Reduce(d, [UserMessage("", "", "fix bug", ""), FunctionCall("grep", "", "c1"),
                                FunctionCallOutput("c1", "3 matches"), AgentMessage("Found it"),
                                UserMessage("", "", "done", "")]);
      && |r| == 2
      && r[0] == Step("t1", "", "fix bug", "Found it", "", "", [Tool("grep", "", "c1", "3 matches", Ok)])
      && r[1] == Step("t2", "", "done", "", "", "", [])
  {
    var e0, e1, e2 := UserMessage("", "", "fix bug", ""), FunctionCall("grep", "", "c1"), FunctionCallOutput("c1", "3 matches");
    var e3, e4 := AgentMessage("Found it"), UserMessage("", "", "done", "");
    var done := Tool("grep", "", "c1", "3 matches", Ok);
    var s3 := State(Some(Step("t1", "", "fix bug", "", "", "", [done])), [], 1, map["c1" := 0]);
    var s4 := State(Some(Step("t1", "", "fix bug", "Found it", "", "", [done])), [], 1, map["c1" := 0]);
    var s5 := State(Some(Step("t2", "", "done", "", "", "", [])), [s4.current.value], 2, map["c1" := 0]);
    FixBugOpening(d);
    assert Run(d, Init, [e0, e1, e2, e3]) == s4 by {
      RunSnoc(d, Init, [e0, e1, e2], e3);
      assert [e0, e1, e2] + [e3] == [e0, e1, e2, e3];
    }
    assert Run(d, Init, [e0, e1, e2, e3, e4]) == s5 by {
      RunSnoc(d, Init, [e0, e1, e2, e3], e4);
      assert [e0, e1, e2, e3] + [e4] == [e0, e1, e2, e3, e4];
      assert StepId(2) == "t2";
    }
  }

  /** The opening of the boundary example: step t1 calls grep as c1, then step t2 opens. */
  lemma BoundaryOpening(d: Dialect)
    ensures Run(d, Init, [UserMessage("", "", "a", ""), FunctionCall("grep", "", "c1"), UserMessage("", "", "b", "")])
         == State(Some(OpenStep(2, "", "", "b", "")), [OpenStep(1, "", "", "a", "").(tools := [Tool("grep", "", "c1", "", Pending)])],
                  2, map["c1" := 0])
  {
    var e0, e1, e2 := UserMessage("", "", "a", ""), FunctionCall("grep", "", "c1"), UserMessage("", "", "b", "");
    var grep := Tool("grep", "", "c1", "", Pending);
    var first := OpenStep(1, "", "", "a", "");
    var s1 := State(Some(first), [], 1, map[]);
    var s2 := State(Some(first.(tools := [grep])), [], 1, map["c1" := 0]);
    assert Run(d, Init, [e0]) == s1 by {
      RunSnoc(d, Init, [], e0);
      assert [] + [e0] == [e0];
    }
    assert Run(d, Init, [e0, e1]) == s2 by {
      RunSnoc(d, Init, [e0], e1);
      assert [e0] + [e1] == [e0, e1];
      assert "c1" != "" && [] + [grep] == [grep];
      assert Apply(d, s1, e1).callIndex == map["c1" := 0];
    }
    RunSnoc(d, Init, [e0, e1], e2);
    assert [e0, e1] + [e2] == [e0, e1, e2];
  }

  /** Step t2 calls ls as c2; c1 still points at index 0. */
  lemma BoundarySecondCall(d: Dialect)
    ensures Run(d, Init, [UserMessage("", "", "a", ""), FunctionCall("grep", "", "c1"), UserMessage("", "", "b", ""),
                          FunctionCall("ls", "", "c2")])
         == State(Some(OpenStep(2, "", "", "b", "").(tools := [Tool("ls", "", "c2", "", Pending)])),
                  [OpenStep(1, "", "", "a", "").(tools := [Tool("grep", "", "c1", "", Pending)])],
                  2, map["c1" := 0, "c2" := 0])
  {
    var e0, e1, e2 := UserMessage("", "", "a", ""), FunctionCall("grep", "", "c1"), UserMessage("", "", "b", "");
    var e3 := FunctionCall("ls", "", "c2");
    var grep, ls := Tool("grep", "", "c1", "", Pending), Tool("ls", "", "c2", "", Pending);
    var s3 := State(Some(OpenStep(2, "", "", "b", "")), [OpenStep(1, "", "", "a", "").(tools := [grep])], 2, map["c1" := 0]);
    BoundaryOpening(d);
    RunSnoc(d, Init, [e0, e1, e2], e3);
    assert [e0, e1, e2] + [e3] == [e0, e1, e2, e3];
    assert "c2" != "" && [] + [ls] == [ls];
    assert Apply(d, s3, e3).callIndex == map["c1" := 0, "c2" := 0];
  }

  /** The call_id table is never reset: a result for a call of an earlier step lands in the open step's tool at the same index. */
  lemma ResultCrossesStepBoundary(d: Dialect)
    ensures var r := Reduce(d, [UserMessage("", "", "a", ""), FunctionCall("grep", "", "c1"),
                                UserMessage("", "", "b", ""), FunctionCall("ls", "", "c2"),
                                FunctionCallOutput("c1", "3 matches")]);
      && |r| == 2
      && r[0].tools == [Tool("grep", "", "c1", "", Pending)]
      && r[1].tools == [Tool("ls", "", "c2", "3 matches", Ok)]
  {
    var e0, e1, e2 := UserMessage("", "", "a", ""), FunctionCall("grep", "", "c1"), UserMessage("", "", "b", "");
    var e3, e4 := FunctionCall("ls", "", "c2"), FunctionCallOutput("c1", "3 matches");
    var grep, ls := Tool("grep", "", "c1", "", Pending), Tool("ls", "", "c2", "", Pending);
    var first := OpenStep(1, "", "", "a", "");
    var second := OpenStep(2, "", "", "b", "");
    var s3 := State(Some(second), [first.(tools := [grep])], 2, map["c1" := 0]);
    var s4 := State(Some(second.(tools := [ls])), [first.(tools := [grep])], 2, map["c1" := 0, "c2" := 0]);
    var s5 := s4.(current := Some(second.(tools := [ls.(output := "3 matches", status := Ok)])));
    BoundarySecondCall(d);
    assert Run(d, Init, [e0, e1, e2, e3, e4]) == s5 by {
      RunSnoc(d, Init, [e0, e1, e2, e3], e4);
      assert [e0, e1, e2, e3] + [e4] == [e0, e1, e2, e3, e4];
      assert "c1" in s4.callIndex && s4.callIndex["c1"] == 0;
      assert [ls][0 := ls.(output := "3 matches", status := Ok)] == [ls.(output := "3 matches", status := Ok)];
    }
  }

  /** The opening of the re-registration example: two calls registered under c1 in one step. */
  lemma ReRegistrationOpening(d: Dialect)
    ensures Run(d, Init, [UserMessage("", "", "a", ""), FunctionCall("cat", "", "c1"), FunctionCall("cat", "x", "c1")])
         == State(Some(OpenStep(1, "", "", "a", "").(tools := [Tool("cat", "", "c1", "", Pending), Tool("cat", "x", "c1", "", Pending)])),
                  [], 1, map["c1" := 1])
  {
    var e0, e1, e2 := UserMessage("", "", "a", ""), FunctionCall("cat", "", "c1"), FunctionCall("cat", "x", "c1");
    var t0, t1 := Tool("cat", "", "c1", "", Pending), Tool("cat", "x", "c1", "", Pending);
    var step := OpenStep(1, "", "", "a", "");
    var s1 := State(Some(step), [], 1, map[]);
    var s2 := State(Some(step.(tools := [t0])), [], 1, map["c1" := 0]);
    assert Run(d, Init, [e0]) == s1 by {
      RunSnoc(d, Init, [], e0);
      assert [] + [e0] == [e0];
    }
    assert Run(d, Init, [e0, e1]) == s2 by {
      RunSnoc(d, Init, [e0], e1);
      assert [e0] + [e1] == [e0, e1];
      assert "c1" != "" && [] + [t0] == [t0];
      assert Apply(d, s1, e1).callIndex == map["c1" := 0];
    }
    RunSnoc(d, Init, [e0, e1], e2);
    assert [e0, e1] + [e2] == [e0, e1, e2];
    assert [t0] + [t1] == [t0, t1];
    assert Apply(d, s2, e2).callIndex == map["c1" := 1];
  }

  /** A call_id registered twice points at the later call; the earlier one stays pending. */
  lemma LaterRegistrationWins(d: Dialect)
    ensures var r := Reduce(d, [UserMessage("", "", "a", ""), FunctionCall("cat", "", "c1"),
                                FunctionCall("cat", "x", "c1"), FunctionCallOutput("c1", "done")]);
      && |r| == 1
      && r[0].tools == [Tool("cat", "", "c1", "", Pending), Tool("cat", "x", "c1", "done", Ok)]
  {
    var e0, e1 := UserMessage("", "", "a", ""), FunctionCall("cat", "", "c1");
    var e2, e3 := FunctionCall("cat", "x", "c1"), FunctionCallOutput("c1", "done");
    var t0, t1 := Tool("cat", "", "c1", "", Pending), Tool("cat", "x", "c1", "", Pending);
    var step := OpenStep(1, "", "", "a", "");
    var s3 := State(Some(step.(tools := [t0, t1])), [], 1, map["c1" := 1]);
    ReRegistrationOpening(d);
    RunSnoc(d, Init, [e0, e1, e2], e3);
    assert [e0, e1, e2] + [e3] == [e0, e1, e2, e3];
    assert "c1" in s3.callIndex && s3.callIndex["c1"] == 1;
    assert [t0, t1][1 := t1.(output := "done", status := Ok)] == [t0, t1.(output := "done", status := Ok)];
  }

  // ---- a line that parses to JSON null ----

  /**
   * One turn of the loop body as written: reading `obj.type` on a line that parses to
   * `null` throws a TypeError (`None`) before anything else is looked at, whether or not
   * a step is open; every other line is one turn of `Apply`.
   */
  function ApplyAsWritten(d: Dialect, s: State, e: Event): Option<State> {
    if e.NullRecord? then None else Some(Apply(d, s, e))
  }

  /** The loop as written: a TypeError in any turn escapes the loop, so `None` propagates. */
  function RunAsWritten(d: Dialect, s: State, events: seq<Event>): Option<State>
    decreases |events|
  {
    if events == [] then Some(s)
    else
      match RunAsWritten(d, s, events[..|events| - 1])
      case None => None
      case Some(p) => ApplyAsWritten(d, p, events[|events| - 1])
  }

  /** The loop as written fails exactly on a log with a `null` line, and otherwise ends where the corrected fold does. */
  lemma {:induction false} RunAsWrittenAborts(d: Dialect, s: State, events: seq<Event>)
    ensures RunAsWritten(d, s, events) == if NullRecord in events then None else Some(Run(d, s, events))
  {
    if events != [] {
      var init, e := events[..|events| - 1], events[|events| - 1];
      assert events == init + [e];
      RunAsWrittenAborts(d, s, init);
    }
  }

  /** `parseJSONL` as written: no steps at all when some line is `null`, else the corrected result. */
  function ReduceAsWritten(d: Dialect, events: seq<Event>): (r: Option<seq<Step>>)
    ensures r.None? <==> NullRecord in events
    ensures r.Some? ==> r.value == Reduce(d, events)
  {
    RunAsWrittenAborts(d, Init, events);
    match RunAsWritten(d, Init, events)
    case None => None
    case Some(st) => Some(Finish(st))
  }

  /** One `null` line loses the whole log as written; the corrected reducer skips it like any unparseable line. */
  lemma NullLineAbortsAsWritten(d: Dialect)
    ensures ReduceAsWritten(d, [UserMessage("", "", "hi", ""), NullRecord]).None?
    ensures Reduce(d, [UserMessage("", "", "hi", ""), NullRecord]) == Reduce(d, [UserMessage("", "", "hi", "")])
    ensures |Reduce(d, [UserMessage("", "", "hi", ""), NullRecord])| == 1
  {
    var e0 := UserMessage("", "", "hi", "");
    RunSnoc(d, Init, [], e0);
    RunSnoc(d, Init, [e0], NullRecord);
    assert [] + [e0] == [e0] && [e0] + [NullRecord] == [e0, NullRecord];
  }
}
