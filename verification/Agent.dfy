/** The agent's observe-think-act loop against an arbitrary LLM and arbitrary tools. */
module Agent {
  import opened Common
  import opened Text
  import opened Transcript

  datatype Completion = Reply(r: Response) | Errored(message: string)

  datatype ToolResult = ToolResult(success: bool, output: string, error: string)

  /** A tool returns a result, or an error with perhaps a result beside it. */
  datatype ToolReply = Ran(result: ToolResult) | Raised(message: string, partial: Option<ToolResult>)

  /** Completions count from one, tool calls within a step from zero. */
  datatype World = World(
    complete: nat -> Completion,
    parses: string -> bool,
    parseError: string -> string,
    known: string -> bool,
    execute: (nat, nat) -> ToolReply)

  datatype Step = Step(thought: string, action: string, actionInput: string, observation: string)

  datatype Result = Result(answer: string, steps: seq<Step>, prompt: int, completion: int, total: int)

  datatype Outcome = Finished(result: Result) | NotConfigured | CompletionFailed(step: nat, message: string)

  const TRUNCATED := "\n... (truncated, use more specific queries for full data)"

  const MAX_STEPS_ANSWER := "Agent reached maximum steps without a final conclusion."

  // ----- one tool call -----

  function Observation(w: World, tc: ToolCall, step: nat, i: nat): string {
    if !w.parses(tc.arguments) then "Error: failed to parse arguments: " + w.parseError(tc.arguments)
    else if !w.known(tc.name) then "Error: unknown tool '" + tc.name + "'"
    else match w.execute(step, i)
      case Raised(message, _) => "Error executing tool: " + message
      case Ran(result) =>
        if !result.success then "Tool returned error: " + result.error + "\n" + result.output
        else if |result.output| > 8000 then result.output[..8000] + TRUNCATED
        else result.output
  }

  /** The result of an executed tool, when there is one. */
  function ResultOf(w: World, tc: ToolCall, step: nat, i: nat): Option<ToolResult> {
    if !w.parses(tc.arguments) || !w.known(tc.name) then None
    else match w.execute(step, i) case Ran(result) => Some(result) case Raised(_, partial) => partial
  }

  /** What the LLM is told: a failed tool's own error replaces the observation. */
  function ToolContent(w: World, tc: ToolCall, step: nat, i: nat): string {
    match ResultOf(w, tc, step, i)
    case None => Observation(w, tc, step, i)
    case Some(result) =>
      if !result.success && result.error != "" then "Error: " + result.error + "\n" + result.output
      else Observation(w, tc, step, i)
  }

  function StepRecord(w: World, r: Response, step: nat, i: nat): Step
    requires i < |r.toolCalls|
  {
    var tc := r.toolCalls[i];
    Step(r.content, tc.name, tc.arguments, Observation(w, tc, step, i))
  }

  function StepRecords(w: World, r: Response, step: nat): (s: seq<Step>)
    ensures |s| == |r.toolCalls|
  {
    seq(|r.toolCalls|, i requires 0 <= i < |r.toolCalls| => StepRecord(w, r, step, i))
  }

  function ToolMessages(w: World, r: Response, step: nat): (s: seq<Message>)
    ensures |s| == |r.toolCalls|
  {
    seq(|r.toolCalls|, i requires 0 <= i < |r.toolCalls| =>
      Tool(r.toolCalls[i].id, ToolContent(w, r.toolCalls[i], step, i)))
  }

  /** The messages one step with tool calls adds. */
  function Block(w: World, r: Response, step: nat): seq<Message> {
    [Assistant(r.content, r.toolCalls)] + ToolMessages(w, r, step)
  }

  // ----- the loop, as a function -----

  datatype Memo = Memo(messages: seq<Message>, steps: seq<Step>, prompt: int, completion: int)

  /** The loop's state after a step with tool calls. */
  function After(w: World, step: nat, m: Memo, r: Response): Memo {
    Memo(m.messages + Block(w, r, step + 1), m.steps + StepRecords(w, r, step + 1),
         m.prompt + r.promptTokens, m.completion + r.completionTokens)
  }

  /** Every Complete request that is made, and how the run ends. */
  datatype Trace = Trace(requests: seq<seq<Message>>, outcome: Outcome)

  function RunFrom(w: World, maxSteps: int, step: nat, m: Memo): Trace
    decreases maxSteps - step
  {
    if step >= maxSteps then
      Trace([], Finished(Result(MAX_STEPS_ANSWER, m.steps, m.prompt, m.completion, m.prompt + m.completion)))
    else match w.complete(step + 1)
      case Errored(message) => Trace([m.messages], CompletionFailed(step + 1, message))
      case Reply(r) =>
        var prompt, completion := m.prompt + r.promptTokens, m.completion + r.completionTokens;
        if r.toolCalls == [] then
          Trace([m.messages], Finished(Result(r.content, m.steps, prompt, completion, prompt + completion)))
        else
          var rest := RunFrom(w, maxSteps, step + 1, After(w, step, m, r));
          Trace([m.messages] + rest.requests, rest.outcome)
  }

  /** What the request after `step` steps leads to. */
  lemma {:induction false} RunUnfolds(w: World, maxSteps: int, step: nat, m: Memo)
    requires step < maxSteps
    ensures var run := RunFrom(w, maxSteps, step, m);
      match w.complete(step + 1)
      case Errored(message) => run.requests == [m.messages] && run.outcome == CompletionFailed(step + 1, message)
      case Reply(r) =>
        if r.toolCalls == [] then
          var prompt, completion := m.prompt + r.promptTokens, m.completion + r.completionTokens;
          run.requests == [m.messages]
          && run.outcome == Finished(Result(r.content, m.steps, prompt, completion, prompt + completion))
        else
          var rest := RunFrom(w, maxSteps, step + 1, After(w, step, m, r));
          run.requests == [m.messages] + rest.requests && run.outcome == rest.outcome
  {}

  lemma {:induction false} RunStops(w: World, maxSteps: int, step: nat, m: Memo)
    requires step >= maxSteps
    ensures RunFrom(w, maxSteps, step, m) ==
      Trace([], Finished(Result(MAX_STEPS_ANSWER, m.steps, m.prompt, m.completion, m.prompt + m.completion)))
  {}

  /** The loop's state after a step with tool calls, from its parts. */
  lemma {:induction false} AfterIs(w: World, step: nat, m: Memo, r: Response)
    ensures After(w, step, m, r)
         == Memo(m.messages + [Assistant(r.content, r.toolCalls)] + ToolMessages(w, r, step + 1),
                 m.steps + StepRecords(w, r, step + 1), m.prompt + r.promptTokens, m.completion + r.completionTokens)
  {
    assert m.messages + [Assistant(r.content, r.toolCalls)] + ToolMessages(w, r, step + 1)
        == m.messages + Block(w, r, step + 1);
  }

  lemma {:induction false} RequestsAssociate(xs: seq<seq<Message>>, x: seq<Message>, rest: seq<seq<Message>>)
    ensures xs + ([x] + rest) == xs + [x] + rest
  {}

  function Opening(systemPrompt: string, userMessage: string): seq<Message> {
    [System(systemPrompt), User(userMessage)]
  }

  // ----- the agent -----

  class Agent {
    const hasProvider: bool
    const systemPrompt: string
    const maxSteps: int

    constructor (hasProvider: bool, systemPrompt: string, maxSteps: int)
      ensures this.hasProvider == hasProvider && this.systemPrompt == systemPrompt
      ensures this.maxSteps == if maxSteps == 0 then 15 else maxSteps
    {
      this.hasProvider := hasProvider;
      this.systemPrompt := systemPrompt;
      this.maxSteps := if maxSteps == 0 then 15 else maxSteps;
    }

    method Execute(w: World, r: Response, step: nat, i: nat) returns (record: Step, message: Message)
      requires i < |r.toolCalls|
      ensures record == StepRecord(w, r, step, i)
      ensures message == ToolMessages(w, r, step)[i]
    {
      var tc := r.toolCalls[i];
      record := Step(r.content, tc.name, tc.arguments, "");
      if !w.parses(tc.arguments) {
        record := record.(observation := "Error: failed to parse arguments: " + w.parseError(tc.arguments));
        return record, Tool(tc.id, record.observation);
      }
      if !w.known(tc.name) {
        record := record.(observation := "Error: unknown tool '" + tc.name + "'");
        return record, Tool(tc.id, record.observation);
      }
      var toolResult := None;
      match w.execute(step, i) {
        case Raised(message, partial) =>
          record := record.(observation := "Error executing tool: " + message);
          toolResult := partial;
        case Ran(result) =>
          toolResult := Some(result);
          if !result.success {
            record := record.(observation := "Tool returned error: " + result.error + "\n" + result.output);
          } else {
            var obs := result.output;
            if |obs| > 8000 {
              obs := obs[..8000] + TRUNCATED;
            }
            record := record.(observation := obs);
          }
      }
      var toolMsgContent := record.observation;
      if toolResult.Some? && !toolResult.value.success && toolResult.value.error != "" {
        toolMsgContent := "Error: " + toolResult.value.error + "\n" + toolResult.value.output;
      }
      message := Tool(tc.id, toolMsgContent);
    }

    /** The calls of one response: a record and a tool message each. */
    method ExecuteAll(w: World, r: Response, step: nat) returns (records: seq<Step>, results: seq<Message>)
      ensures records == StepRecords(w, r, step) && results == ToolMessages(w, r, step)
    {
      records, results := [], [];
      for i := 0 to |r.toolCalls|
        invariant records == StepRecords(w, r, step)[..i] && results == ToolMessages(w, r, step)[..i]
      {
        var record, message := Execute(w, r, step, i);
        records := records + [record];
        results := results + [message];
      }
    }

    method Run(w: World, userMessage: string) returns (requests: seq<seq<Message>>, outcome: Outcome)
      ensures !hasProvider ==> requests == [] && outcome == NotConfigured
      ensures hasProvider ==>
        Trace(requests, outcome) == RunFrom(w, maxSteps, 0, Memo(Opening(systemPrompt, userMessage), [], 0, 0))
    {
      hide Block, StepRecords, ToolMessages, RunFrom, After;
      if !hasProvider {
        return [], NotConfigured;
      }
      var messages := [System(systemPrompt), User(userMessage)];
      var steps: seq<Step> := [];
      var prompt, completion := 0, 0;
      requests := [];
      ghost var all := RunFrom(w, maxSteps, 0, Memo(messages, steps, prompt, completion));
      var step := 0;
      while step < maxSteps
        invariant step >= 0
        invariant requests + RunFrom(w, maxSteps, step, Memo(messages, steps, prompt, completion)).requests
               == all.requests
        invariant RunFrom(w, maxSteps, step, Memo(messages, steps, prompt, completion)).outcome == all.outcome
      {
        ghost var m, asked := Memo(messages, steps, prompt, completion), requests;
        RunUnfolds(w, maxSteps, step, m);
        requests := requests + [messages];
        match w.complete(step + 1)
        case Errored(message) =>
          return requests, CompletionFailed(step + 1, message);
        case Reply(r) =>
          prompt := prompt + r.promptTokens;
          completion := completion + r.completionTokens;
          if r.toolCalls == [] {
            return requests, Finished(Result(r.content, steps, prompt, completion, prompt + completion));
          }
          var records, results := ExecuteAll(w, r, step + 1);
          messages := messages + [Assistant(r.content, r.toolCalls)] + results;
          steps := steps + records;
          AfterIs(w, step, m, r);
          RequestsAssociate(asked, m.messages, RunFrom(w, maxSteps, step + 1, After(w, step, m, r)).requests);
        step := step + 1;
      }
      RunStops(w, maxSteps, step, Memo(messages, steps, prompt, completion));
      outcome := Finished(Result(MAX_STEPS_ANSWER, steps, prompt, completion, prompt + completion));
    }
  }

  // ----- what every run satisfies -----

  /** The response to the request at `i`; requests before the last were all answered. */
  predicate AnsweredWithCalls(w: World, i: nat) {
    w.complete(i + 1).Reply? && w.complete(i + 1).r.toolCalls != []
  }

  /** What is recorded of call `i` of a step, case by case. */
  predicate ObservedAs(w: World, tc: ToolCall, step: nat, i: nat, observation: string) {
    if !w.parses(tc.arguments) then
      observation == "Error: failed to parse arguments: " + w.parseError(tc.arguments)
    else if !w.known(tc.name) then
      observation == "Error: unknown tool '" + tc.name + "'"
    else match w.execute(step, i)
      case Raised(message, _) => observation == "Error executing tool: " + message
      case Ran(result) =>
        if result.success then
          CutAt(result.output, 8000, "\n... (truncated, use more specific queries for full data)", observation)
        else observation == "Tool returned error: " + result.error + "\n" + result.output
  }

  /** What the LLM is told of it: the same, unless the tool itself reported an error. */
  predicate ToldAs(w: World, tc: ToolCall, step: nat, i: nat, content: string) {
    var executed := w.parses(tc.arguments) && w.known(tc.name);
    match w.execute(step, i)
    case Raised(_, Some(result)) =>
      if executed && !result.success && result.error != "" then
        content == "Error: " + result.error + "\n" + result.output
      else ObservedAs(w, tc, step, i, content)
    case Ran(result) =>
      if executed && !result.success && result.error != "" then
        content == "Error: " + result.error + "\n" + result.output
      else ObservedAs(w, tc, step, i, content)
    case Raised(_, None) => ObservedAs(w, tc, step, i, content)
  }

  lemma {:induction false} ObservationIsRead(w: World, tc: ToolCall, step: nat, i: nat)
    ensures ObservedAs(w, tc, step, i, Observation(w, tc, step, i))
    ensures ToldAs(w, tc, step, i, ToolContent(w, tc, step, i))
  {}

  /** One assistant message and one tool message per call, with matching ids in order, and with
      what the call came to. */
  predicate IsBlock(w: World, block: seq<Message>, r: Response, step: nat) {
    && |block| == 1 + |r.toolCalls| && block[0] == Assistant(r.content, r.toolCalls)
    && forall k :: 0 <= k < |r.toolCalls| ==>
         && block[k + 1].Tool? && block[k + 1].callId == r.toolCalls[k].id
         && ToldAs(w, r.toolCalls[k], step, k, block[k + 1].content)
  }

  lemma {:induction false} BlockIsWellFormed(w: World, r: Response, step: nat)
    ensures IsBlock(w, Block(w, r, step), r, step) && WellFormed(Block(w, r, step))
  {
    hide ToldAs, ToolContent;
    var block := Block(w, r, step);
    var results := ToolMessages(w, r, step);
    forall k | 0 <= k < |r.toolCalls|
      ensures ToldAs(w, r.toolCalls[k], step, k, block[k + 1].content)
    {
      assert block[k + 1] == results[k];
      ObservationIsRead(w, r.toolCalls[k], step, k);
    }
    assert block[1..] == results;
    assert results[|r.toolCalls|..] == [];
    PayOwed(Ids(r.toolCalls), results);
  }

  /** The transcript so far: the opening, then well-formed blocks. */
  predicate IsTranscript(systemPrompt: string, userMessage: string, msgs: seq<Message>) {
    Opening(systemPrompt, userMessage) <= msgs && WellFormed(msgs)
  }

  predicate Grows(w: World, msgs: seq<Message>, more: seq<Message>, r: Response, step: nat) {
    msgs <= more && IsBlock(w, more[|msgs|..], r, step)
  }

  /** Request i + 1 is request i and the block of the response to it. */
  predicate ExtendsAt(w: World, requests: seq<seq<Message>>, step: nat, i: nat)
    requires i + 1 < |requests|
  {
    AnsweredWithCalls(w, step + i) && Grows(w, requests[i], requests[i + 1], w.complete(step + i + 1).r, step + i + 1)
  }

  predicate Chain(w: World, requests: seq<seq<Message>>, step: nat)
    decreases requests
  {
    |requests| <= 1 || (ExtendsAt(w, requests, step, 0) && Chain(w, requests[1..], step + 1))
  }

  lemma {:induction false} ChainExtends(w: World, requests: seq<seq<Message>>, step: nat, i: nat)
    requires Chain(w, requests, step) && i + 1 < |requests|
    ensures ExtendsAt(w, requests, step, i)
  {
    if i > 0 {
      ChainExtends(w, requests[1..], step + 1, i - 1);
      assert ExtendsAt(w, requests[1..], step + 1, i - 1);
    }
  }

  lemma {:induction false} TurnKeepsTranscript(w: World, step: nat, m: Memo, r: Response, sys: string, user: string)
    requires IsTranscript(sys, user, m.messages)
    ensures IsTranscript(sys, user, After(w, step, m, r).messages)
    ensures Grows(w, m.messages, After(w, step, m, r).messages, r, step + 1)
  {
    BlockIsWellFormed(w, r, step + 1);
    WellFormedConcat(m.messages, Block(w, r, step + 1));
    assert After(w, step, m, r).messages[|m.messages|..] == Block(w, r, step + 1);
  }

  lemma {:induction false} Requests(w: World, maxSteps: int, step: nat, m: Memo, sys: string, user: string)
    requires IsTranscript(sys, user, m.messages)
    ensures var requests := RunFrom(w, maxSteps, step, m).requests;
      && |requests| <= (if step <= maxSteps then maxSteps - step else 0)
      && (requests != [] ==> requests[0] == m.messages)
      && (forall i :: 0 <= i < |requests| ==> IsTranscript(sys, user, requests[i]))
      && Chain(w, requests, step)
    decreases maxSteps - step
  {
    if step < maxSteps && AnsweredWithCalls(w, step) {
      var r := w.complete(step + 1).r;
      var m' := After(w, step, m, r);
      TurnKeepsTranscript(w, step, m, r, sys, user);
      Requests(w, maxSteps, step + 1, m', sys, user);
      ChainCons(w, m.messages, RunFrom(w, maxSteps, step + 1, m').requests, step);
    }
  }

  lemma {:induction false} ChainCons(w: World, first: seq<Message>, rest: seq<seq<Message>>, step: nat)
    requires Chain(w, rest, step + 1) && AnsweredWithCalls(w, step)
    requires rest != [] ==> Grows(w, first, rest[0], w.complete(step + 1).r, step + 1)
    ensures Chain(w, [first] + rest, step)
  {
    assert ([first] + rest)[1..] == rest;
  }

  /** At every Complete call the messages are System, User, then one block per response so
      far, with what its calls came to; there are at most MaxSteps calls. */
  lemma {:induction false} TranscriptAtEveryRequest(w: World, maxSteps: int, sys: string, user: string)
    ensures var run := RunFrom(w, maxSteps, 0, Memo(Opening(sys, user), [], 0, 0)); var n := |run.requests|;
      && n <= (if maxSteps > 0 then maxSteps else 0)
      && (n > 0 ==> run.requests[0] == [System(sys), User(user)])
      && (forall i :: 0 <= i < n ==> [System(sys), User(user)] <= run.requests[i] && ByPosition(run.requests[i]))
      && (forall i :: 0 <= i < n - 1 ==> ExtendsAt(w, run.requests, 0, i))
  {
    var opening := Opening(sys, user);
    assert opening[1..] == [opening[1]] && [opening[1]][1..] == [];
    assert Scan([], [opening[1]]) == Some([]);
    assert IsTranscript(sys, user, opening);
    Requests(w, maxSteps, 0, Memo(opening, [], 0, 0), sys, user);
    var run := RunFrom(w, maxSteps, 0, Memo(opening, [], 0, 0));
    forall i | 0 <= i < |run.requests|
      ensures opening <= run.requests[i] && ByPosition(run.requests[i])
    {
      assert IsTranscript(sys, user, run.requests[i]);
      WellFormedByPosition(run.requests[i]);
    }
    forall i | 0 <= i < |run.requests| - 1
      ensures ExtendsAt(w, run.requests, 0, i)
    {
      ChainExtends(w, run.requests, 0, i);
    }
  }

  // ----- the result -----

  /** Call `i` of a step, and what the LLM said with it. */
  datatype Made = Made(thought: string, call: ToolCall, step: nat, i: nat)

  function CallsOf(r: Response, step: nat): seq<Made> {
    seq(|r.toolCalls|, i requires 0 <= i < |r.toolCalls| => Made(r.content, r.toolCalls[i], step, i))
  }

  /** The tool calls of the answered requests in [from, to), in order. */
  function CallsMade(w: World, from: nat, to: nat): seq<Made>
    decreases to - from
  {
    if from >= to || w.complete(from + 1).Errored? then []
    else CallsOf(w.complete(from + 1).r, from + 1) + CallsMade(w, from + 1, to)
  }

  function Tokens(w: World, from: nat, to: nat): (int, int)
    decreases to - from
  {
    if from >= to || w.complete(from + 1).Errored? then (0, 0)
    else
      var r, rest := w.complete(from + 1).r, Tokens(w, from + 1, to);
      (r.promptTokens + rest.0, r.completionTokens + rest.1)
  }

  predicate Answered(w: World, k: nat) { w.complete(k).Reply? }

  predicate AnsweredFinally(w: World, k: nat) { Answered(w, k) && w.complete(k).r.toolCalls == [] }

  /** The record of one call. */
  predicate RecordOf(w: World, record: Step, made: Made) {
    && record.thought == made.thought
    && record.action == made.call.name && record.actionInput == made.call.arguments
    && ObservedAs(w, made.call, made.step, made.i, record.observation)
  }

  /** The records are of exactly these calls, in order. */
  predicate Records(w: World, steps: seq<Step>, calls: seq<Made>) {
    && |steps| == |calls|
    && forall i :: 0 <= i < |calls| ==> RecordOf(w, steps[i], calls[i])
  }

  lemma {:induction false} RecordsExtend(w: World, steps: seq<Step>, calls: seq<Made>, r: Response, step: nat)
    requires Records(w, steps, calls)
    ensures Records(w, steps + StepRecords(w, r, step), calls + CallsOf(r, step))
  {
    hide ObservedAs, Observation;
    var records := StepRecords(w, r, step);
    forall i | 0 <= i < |records|
      ensures RecordOf(w, records[i], CallsOf(r, step)[i])
    {
      ObservationIsRead(w, r.toolCalls[i], step, i);
    }
  }

  lemma {:induction false} ResultAccounts(w: World, maxSteps: int, step: nat, m: Memo, before: seq<Made>)
    requires Records(w, m.steps, before)
    ensures var run := RunFrom(w, maxSteps, step, m); var to := step + |run.requests|;
      match run.outcome
      case Finished(r) =>
        && Records(w, r.steps, before + CallsMade(w, step, to))
        && r.prompt == m.prompt + Tokens(w, step, to).0 && r.completion == m.completion + Tokens(w, step, to).1
        && r.total == r.prompt + r.completion
        && (forall k :: step < k <= to ==> Answered(w, k))
        && (if to > step && AnsweredFinally(w, to) then r.answer == w.complete(to).r.content
            else r.answer == MAX_STEPS_ANSWER && to >= maxSteps)
      case CompletionFailed(k, message) => k == to && w.complete(k) == Errored(message)
      case NotConfigured => false
    decreases maxSteps - step
  {
    assert before + [] == before;
    if step < maxSteps && AnsweredWithCalls(w, step) {
      var r := w.complete(step + 1).r;
      var m' := After(w, step, m, r);
      RecordsExtend(w, m.steps, before, r, step + 1);
      ResultAccounts(w, maxSteps, step + 1, m', before + CallsOf(r, step + 1));
      var to := step + |RunFrom(w, maxSteps, step, m).requests|;
      var made := CallsOf(r, step + 1);
      assert before + made + CallsMade(w, step + 1, to) == before + (made + CallsMade(w, step + 1, to));
    } else {
      assert CallsMade(w, step, step) == [];
      assert AnsweredFinally(w, step + 1) ==> CallsMade(w, step, step + 1) == [];
    }
  }

  /** A run that does not fail returns one record per tool call the LLM made, in order, with
      what the call came to, and the token totals of all its responses; a run that fails says
      at which completion. */
  lemma {:induction false} RunAccounts(w: World, maxSteps: int, sys: string, user: string)
    ensures var run := RunFrom(w, maxSteps, 0, Memo(Opening(sys, user), [], 0, 0)); var n := |run.requests|;
      match run.outcome
      case Finished(r) =>
        && Records(w, r.steps, CallsMade(w, 0, n))
        && r.prompt == Tokens(w, 0, n).0 && r.completion == Tokens(w, 0, n).1 && r.total == r.prompt + r.completion
        && (if n > 0 && AnsweredFinally(w, n) then r.answer == w.complete(n).r.content
            else r.answer == "Agent reached maximum steps without a final conclusion." && n >= maxSteps)
      case CompletionFailed(k, message) => k == n && w.complete(n) == Errored(message)
      case NotConfigured => false
  {
    ResultAccounts(w, maxSteps, 0, Memo(Opening(sys, user), [], 0, 0), []);
    var n := |RunFrom(w, maxSteps, 0, Memo(Opening(sys, user), [], 0, 0)).requests|;
    assert [] + CallsMade(w, 0, n) == CallsMade(w, 0, n);
  }
}
