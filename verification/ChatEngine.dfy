/** The chat engine: the store of conversations, and the agent run that streams its events. */
module ChatEngine {
  import opened Common
  import opened Text
  import opened Transcript
  import opened ChatProtocol
  import opened ConversationStore
  import opened Sorting
  import Breaker
  import Memory

  // ----- the world a run meets -----

  datatype LlmOutcome = Reply(r: Response) | Errored(message: string)

  /** One streaming call: the text deltas it streams, how it ends, and whether the request is
      cancelled while waiting to retry after it. */
  datatype Attempt = Attempt(deltas: seq<string>, outcome: LlmOutcome, cancelled: bool)

  datatype ToolOutcome = Ran(success: bool, output: string, error: string) | Raised(message: string)

  /** An arbitrary LLM, arbitrary tools and an arbitrary clock.  Steps and attempts count
      from one, tool calls within a step from zero. */
  datatype World = World(
    attempt: (nat, nat) -> Attempt,
    parses: string -> bool,
    parseError: string -> string,
    known: string -> bool,
    execute: (nat, nat) -> ToolOutcome,
    askedAt: nat -> int,
    failedAt: nat -> int,
    appendedAt: (nat, nat) -> int)

  const RETRYABLE: seq<string> := [
    "429", "rate limit", "Too Many Requests", "访问量过大",
    "500", "502", "503", "Internal Server Error", "Bad Gateway", "Service Unavailable",
    "timeout", "deadline exceeded", "context deadline",
    "connection refused", "connection reset", "EOF", "no such host"
  ]

  predicate IsRetryable(message: string) {
    exists i | 0 <= i < |RETRYABLE| :: Contains(message, RETRYABLE[i])
  }

  function Truncate(s: string, max: nat): string {
    if |s| <= max then s else s[..max] + "..."
  }

  // ----- one run, as a function -----

  datatype Result = Ok(r: Response) | Failed(message: string)

  function Deltas(deltas: seq<string>, step: nat): seq<Action> {
    if deltas == [] then []
    else if deltas[0] == "" then Deltas(deltas[1..], step)
    else [Emit(ThinkingDelta(deltas[0], step))] + Deltas(deltas[1..], step)
  }

  /** The attempts of one LLM call, from attempt `n` on. */
  function Attempts(w: World, step: nat, n: nat): (seq<Action>, Result)
    requires 1 <= n <= MAX_ATTEMPTS
    decreases MAX_ATTEMPTS - n
  {
    var a := w.attempt(step, n);
    var head := [LlmCall] + Deltas(a.deltas, step);
    match a.outcome
    case Reply(r) => (head, Ok(r))
    case Errored(message) =>
      if !IsRetryable(message) then (head, Failed(message))
      else if n == MAX_ATTEMPTS then (head, Failed("after 5 attempts: " + message))
      else if a.cancelled then (head, Failed("context canceled"))
      else var (rest, result) := Attempts(w, step, n + 1); (head + rest, result)
  }

  datatype Observation = Observation(success: bool, output: string, error: string)

  function Observe(w: World, tc: ToolCall, step: nat, i: nat): Observation {
    if !w.parses(tc.arguments) then Observation(false, "", "Failed to parse arguments: " + w.parseError(tc.arguments))
    else if !w.known(tc.name) then Observation(false, "", "Unknown tool: " + tc.name)
    else match w.execute(step, i)
      case Raised(message) => Observation(false, "", message)
      case Ran(success, output, error) =>
        if !success then Observation(false, output, error)
        else if |output| > 8000 then Observation(true, output[..8000] + "\n... (truncated)", "")
        else Observation(true, output, "")
  }

  function ToolContent(o: Observation): string {
    if o.error != "" then "Error: " + o.error + "\n" + o.output else o.output
  }

  function OneCall(w: World, tc: ToolCall, step: nat, i: nat): seq<Action> {
    var o := Observe(w, tc, step, i);
    [Emit(ToolCalled(tc.name, tc.arguments, step)),
     Emit(ToolReturned(tc.name, o.success, Truncate(o.output, 2000), o.error, step)),
     Append(Tool(tc.id, ToolContent(o)), w.appendedAt(step, i + 1))]
  }

  function CallsFrom(w: World, calls: seq<ToolCall>, step: nat, i: nat): seq<Action>
    requires i <= |calls|
    decreases |calls| - i
  {
    if i == |calls| then [] else OneCall(w, calls[i], step, i) + CallsFrom(w, calls, step, i + 1)
  }

  const BREAKER_IS_OPEN := "Circuit breaker is open: too many failures, please wait a moment."
  const CALL_FAILED := "LLM call failed (after 5 retries): "
  const MAX_STEPS_ANSWER := "I've reached the maximum number of analysis steps. Based on my investigation so far, " +
    "I need more specific information to continue. Please provide additional context or narrow the scope."

  datatype RunResult = RunResult(trace: seq<Action>, err: Option<string>, breaker: Breaker.State)

  function Final(content: string, p: Progress, at: int): seq<Action> {
    [Append(Assistant(content, []), at),
     Emit(Answer(content, p.prompt, p.completion, p.prompt + p.completion, p.step)),
     Emit(Done)]
  }

  function Spent(p: Progress, r: Response): Progress {
    Progress(p.step, p.prompt + r.promptTokens, p.completion + r.completionTokens)
  }

  function ToolTurn(w: World, r: Response, step: nat): seq<Action> {
    (if r.content != "" then [Emit(Thinking(r.content, step))] else [])
    + [Append(Assistant(r.content, r.toolCalls), w.appendedAt(step, 0))]
    + CallsFrom(w, r.toolCalls, step, 0)
  }

  datatype Onward = Stop(err: Option<string>) | Continue(p: Progress)

  datatype StepResult = StepResult(trace: seq<Action>, next: Onward, breaker: Breaker.State)

  /** What a response leads to: the final answer, or its tool calls. */
  function Respond(w: World, p: Progress, r: Response): (seq<Action>, Onward) {
    if r.toolCalls == [] then (Final(r.content, p, w.appendedAt(p.step, 0)), Stop(None))
    else (ToolTurn(w, r, p.step), Continue(p))
  }

  /** The step after the first `p.step`. */
  function StepOnce(w: World, c: Breaker.Config, p: Progress, b: Breaker.State): (s: StepResult)
    ensures s.next.Continue? ==> s.next.p.step == p.step + 1
  {
    var q := p.(step := p.step + 1);
    var (b1, ok) := Breaker.AllowStep(c, b, w.askedAt(q.step));
    if !ok then
      StepResult([BreakerRefused, Emit(Error(BREAKER_IS_OPEN))], Stop(Some("circuit breaker open")), b1)
    else match Attempts(w, q.step, 1)
      case (acts, Failed(message)) =>
        StepResult([BreakerAllowed] + acts + [BreakerFailed, Emit(Error(CALL_FAILED + message))],
                   Stop(Some(message)), Breaker.FailureStep(c, b1, w.failedAt(q.step)))
      case (acts, Ok(r)) =>
        var head := [BreakerAllowed] + acts + [BreakerSucceeded, Received(r)];
        var (turn, next) := Respond(w, Spent(q, r), r);
        StepResult(head + turn, next, Breaker.SuccessStep(c, b1))
  }

  function Prefixed(trace: seq<Action>, r: RunResult): RunResult {
    r.(trace := trace + r.trace)
  }

  /** The run from the point where `p.step` steps are complete. */
  function StepsFrom(w: World, maxSteps: nat, c: Breaker.Config, p: Progress, b: Breaker.State): RunResult
    decreases maxSteps - p.step
  {
    if p.step >= maxSteps then RunResult(Final(MAX_STEPS_ANSWER, p, w.appendedAt(p.step, 0)), None, b)
    else
      var s := StepOnce(w, c, p, b);
      match s.next
      case Stop(err) => RunResult(s.trace, err, s.breaker)
      case Continue(q) => Prefixed(s.trace, StepsFrom(w, maxSteps, c, q, s.breaker))
  }

  /** What the request meets before its first step: whether the provider is still there, and
      the summary should the conversation need compressing. */
  datatype Opening = Opening(message: string, at: int, summary: Option<string>, compressedAt: int, providerGone: bool)

  function Prelude(c: Memory.Contents, o: Opening): seq<Action> {
    [Append(User(o.message), o.at)]
    + if Memory.NeedsCompression(Memory.Appended(c, User(o.message), o.at)) && o.summary.Some?
      then [Emit(MemoryEvent)] else []
  }

  /** A run on an existing conversation. */
  function ChatRun(w: World, maxSteps: nat, c: Breaker.Config, v: Memory.Contents, o: Opening,
      b: Breaker.State): RunResult {
    if o.providerGone then RunResult(Prelude(v, o) + [Emit(Error("Provider became unavailable during chat"))],
                                     Some("provider unavailable"), b)
    else
      var rest := StepsFrom(w, maxSteps, c, Progress(0, 0, 0), b);
      RunResult(Prelude(v, o) + rest.trace, rest.err, rest.breaker)
  }

  /** The conversation after the messages of a trace are added to it. */
  function Extended(v: Memory.Contents, trace: seq<Action>): Memory.Contents
    decreases trace
  {
    if trace == [] then v
    else if trace[0].Append? then Extended(Memory.Appended(v, trace[0].m, trace[0].at), trace[1..])
    else Extended(v, trace[1..])
  }

  function Opened(v: Memory.Contents, o: Opening): Memory.Contents {
    Memory.Compressed(Memory.Appended(v, User(o.message), o.at), o.summary, o.compressedAt)
  }

  function AfterRun(w: World, maxSteps: nat, c: Breaker.Config, v: Memory.Contents, o: Opening,
      b: Breaker.State): Memory.Contents {
    if o.providerGone then Opened(v, o)
    else Extended(Opened(v, o), StepsFrom(w, maxSteps, c, Progress(0, 0, 0), b).trace)
  }

  lemma {:induction false} ExtendedConcat(v: Memory.Contents, xs: seq<Action>, ys: seq<Action>)
    ensures Extended(v, xs + ys) == Extended(Extended(v, xs), ys)
    decreases xs
  {
    if xs == [] {
      assert xs + ys == ys;
    } else {
      assert (xs + ys)[0] == xs[0] && (xs + ys)[1..] == xs[1..] + ys;
      ExtendedConcat(if xs[0].Append? then Memory.Appended(v, xs[0].m, xs[0].at) else v, xs[1..], ys);
    }
  }

  lemma {:induction false} ExtendedMessages(v: Memory.Contents, trace: seq<Action>)
    ensures Extended(v, trace).messages == v.messages + Appended(trace)
    decreases trace
  {
    if trace != [] {
      ExtendedMessages(if trace[0].Append? then Memory.Appended(v, trace[0].m, trace[0].at) else v, trace[1..]);
    }
  }

  // ----- the engine -----

  datatype Entry = Entry(id: string, activity: int)

  predicate Before(a: Entry, b: Entry) { a.activity < b.activity }

  class Engine {
    var conversations: map<string, Memory.Conversation>
    const circuitBreaker: Breaker.CircuitBreaker
    const maxSteps: nat
    const systemPrompt: string

    constructor (systemPrompt: string)
      ensures Valid() && conversations == map[] && maxSteps == 15 && this.systemPrompt == systemPrompt
      ensures circuitBreaker.config == Breaker.Config(5, 60 * SECOND, 1)
      ensures circuitBreaker.state == Breaker.State(Breaker.Closed, 0, 0, 0)
    {
      conversations := map[];
      circuitBreaker := new Breaker.CircuitBreaker(5, 60 * SECOND);
      maxSteps := 15;
      this.systemPrompt := systemPrompt;
    }

    /** No conversation is stored under two ids. */
    ghost predicate Valid()
      reads this
    {
      forall a, b :: a in conversations && b in conversations && a != b ==> conversations[a] != conversations[b]
    }

    ghost function Activity(): Store
      reads this, conversations.Values
    {
      map id | id in conversations :: conversations[id].updatedAt
    }

    // ----- the store -----

    /** `order` is the order in which the map happens to be iterated. */
    method EvictOldestLocked(order: seq<string>)
      requires Valid() && Visits(order, conversations.Keys)
      modifies this`conversations
      ensures Valid() && conversations.Keys <= old(conversations).Keys
      ensures forall id :: id in conversations ==> conversations[id] == old(conversations)[id]
      ensures Activity() == EvictOldest(old(Activity()), order)
    {
      var oldestID, oldestTime := "", 0;
      for i := 0 to |order|
        invariant OldestFrom(Activity(), order, "", 0) == OldestFrom(Activity(), order[i..], oldestID, oldestTime)
      {
        assert order[i..][0] == order[i] && order[i..][1..] == order[i + 1..];
        var act := conversations[order[i]].updatedAt;
        if oldestID == "" || act < oldestTime {
          oldestID := order[i];
          oldestTime := act;
        }
      }
      if oldestID != "" {
        conversations := conversations - {oldestID};
      }
    }

    method GetOrCreateConversation(id: string, hasProvider: bool, now: int, order: seq<string>)
      returns (conv: Memory.Conversation?)
      requires Valid() && Visits(order, conversations.Keys)
      modifies this`conversations
      ensures Valid()
      ensures Activity() == GetStep(old(Activity()), id, now, hasProvider, order)
      ensures conv == null <==> id !in old(conversations) && !hasProvider
      ensures conv != null ==> id in conversations && conversations[id] == conv
      ensures id in old(conversations) ==> conv == old(conversations)[id]
      ensures id !in old(conversations) && conv != null ==>
        fresh(conv) && conv.Value() == Memory.Contents([System(systemPrompt)], 0, [], now)
      ensures forall other :: other in conversations && other != id ==>
        other in old(conversations) && conversations[other] == old(conversations)[other]
    {
      if id in conversations {
        return conversations[id];
      }
      if !hasProvider {
        return null;
      }
      MakeRoom(order);
      conv := new Memory.Conversation(id, systemPrompt, now);
      Insert(id, conv);
    }

    method MakeRoom(order: seq<string>)
      requires Valid() && Visits(order, conversations.Keys)
      modifies this`conversations
      ensures Valid() && conversations.Keys <= old(conversations).Keys
      ensures forall id :: id in conversations ==> conversations[id] == old(conversations)[id]
      ensures Activity() == Roomy(old(Activity()), order)
    {
      SizeOfActivity();
      if |conversations| >= MAX_CONVERSATIONS {
        EvictOldestLocked(order);
      }
    }

    method Insert(id: string, conv: Memory.Conversation)
      requires Valid() && conv !in conversations.Values
      modifies this`conversations
      ensures Valid() && conversations == old(conversations)[id := conv]
      ensures Activity() == old(Activity())[id := conv.updatedAt]
    {
      conversations := conversations[id := conv];
    }

    lemma {:induction false} SizeOfActivity()
      ensures |Activity()| == |conversations|
    {
      assert Activity().Keys == conversations.Keys;
      assert |Activity().Keys| == |Activity()| && |conversations.Keys| == |conversations|;
    }

    method DeleteConversation(id: string)
      requires Valid()
      modifies this`conversations
      ensures Valid() && Activity() == old(Activity()) - {id}
      ensures ConversationStore.Step(old(Activity()), Delete(id), Activity())
    {
      conversations := conversations - {id};
    }

    /** Phase 1 of the sweep: everything idle for longer than the TTL goes. */
    method EvictExpired(now: int) returns (evicted: nat)
      requires Valid()
      modifies this`conversations
      ensures Valid()
      ensures conversations.Keys == set id | id in old(conversations) && Fresh(old(Activity()), id, now)
      ensures forall id :: id in conversations ==> conversations[id] == old(conversations)[id]
      ensures evicted == |old(conversations)| - |conversations|
    {
      evicted := 0;
      var pending := conversations.Keys;
      while pending != {}
        invariant pending <= conversations.Keys <= old(conversations).Keys
        invariant forall id :: id in conversations ==> conversations[id] == old(conversations)[id]
        invariant forall id :: id in old(conversations) ==>
          (id in conversations <==> id in pending || Fresh(old(Activity()), id, now))
        invariant evicted + |conversations| == |old(conversations)|
        decreases pending
      {
        var id :| id in pending;
        if now - conversations[id].updatedAt > CONVERSATION_TTL {
          RemovingOne(conversations, id);
          conversations := conversations - {id};
          evicted := evicted + 1;
        }
        pending := pending - {id};
      }
    }

    method Entries() returns (entries: seq<Entry>)
      requires Valid()
      ensures |entries| == |conversations| && Distinct(entries)
      ensures forall e :: e in entries <==> e.id in conversations && e.activity == conversations[e.id].updatedAt
    {
      entries := [];
      var pending := conversations.Keys;
      while pending != {}
        invariant pending <= conversations.Keys
        invariant Distinct(entries) && |entries| + |pending| == |conversations.Keys|
        invariant forall e :: e in entries <==>
          e.id in conversations && e.id !in pending && e.activity == conversations[e.id].updatedAt
        decreases pending
      {
        var id :| id in pending;
        entries := entries + [Entry(id, conversations[id].updatedAt)];
        pending := pending - {id};
      }
      assert |conversations.Keys| == |conversations|;
    }

    /** Phase 2: over the cap, the oldest go first. */
    method EvictSurplus() returns (evicted: nat)
      requires Valid() && |conversations| > MAX_CONVERSATIONS
      modifies this`conversations
      ensures Valid() && |conversations| == MAX_CONVERSATIONS
      ensures conversations.Keys <= old(conversations).Keys
      ensures forall id :: id in conversations ==> conversations[id] == old(conversations)[id]
      ensures evicted == |old(conversations)| - MAX_CONVERSATIONS
      ensures forall id, kept :: id in old(conversations) && id !in conversations && kept in conversations ==>
        old(Activity())[id] <= old(Activity())[kept]
    {
      var entries := Entries();
      var sorted := Sort(Before, entries);
      SortedEntries(entries, sorted, Activity());
      ghost var activity := Activity();
      var toRemove := |conversations| - MAX_CONVERSATIONS;
      RemoveFirst(sorted, toRemove);
      evicted := toRemove;
      OldestDropped(activity, sorted, toRemove, conversations.Keys);
    }

    method RemoveFirst(sorted: seq<Entry>, toRemove: nat)
      requires Valid() && toRemove <= |sorted| == |conversations|
      requires DistinctIds(sorted)
      requires forall k :: 0 <= k < |sorted| ==> sorted[k].id in conversations
      modifies this`conversations
      ensures Valid() && |conversations| == |sorted| - toRemove
      ensures conversations.Keys <= old(conversations).Keys
      ensures forall id :: id in conversations ==> conversations[id] == old(conversations)[id]
      ensures forall k :: 0 <= k < |sorted| ==> (sorted[k].id in conversations <==> k >= toRemove)
    {
      for i := 0 to toRemove
        invariant |conversations| == |sorted| - i
        invariant conversations.Keys <= old(conversations).Keys
        invariant forall id :: id in conversations ==> conversations[id] == old(conversations)[id]
        invariant forall k :: 0 <= k < |sorted| ==> (sorted[k].id in conversations <==> k >= i)
      {
        RemovingOne(conversations, sorted[i].id);
        conversations := conversations - {sorted[i].id};
      }
    }

    method EvictIdle(now: int) returns (evicted: nat)
      requires Valid()
      modifies this`conversations
      ensures Valid()
      ensures forall id :: id in conversations ==>
        id in old(conversations) && conversations[id] == old(conversations)[id]
      ensures SweptTo(old(Activity()), now, Activity(), evicted)
    {
      ghost var start := Activity();
      SizeOfActivity();
      evicted := EvictExpired(now);
      ghost var young := Activity();
      SizeOfActivity();
      if |conversations| > MAX_CONVERSATIONS {
        var more := EvictSurplus();
        evicted := evicted + more;
      }
      SizeOfActivity();
      SweptInTwoPhases(start, young, Activity(), now);
    }

    // ----- a run -----

    /** The retries around one streaming call. */
    method CallLlm(w: World, step: nat) returns (acts: seq<Action>, result: Result)
      ensures (acts, result) == Attempts(w, step, 1)
    {
      ghost var all := Attempts(w, step, 1);
      acts := [];
      var n := 1;
      while true
        invariant 1 <= n <= MAX_ATTEMPTS
        invariant acts + Attempts(w, step, n).0 == all.0
        invariant Attempts(w, step, n).1 == all.1
        decreases MAX_ATTEMPTS - n
      {
        var a := w.attempt(step, n);
        var head := [LlmCall] + Deltas(a.deltas, step);
        ghost var before := acts;
        acts := acts + head;
        match a.outcome
        case Reply(r) =>
          return acts, Ok(r);
        case Errored(message) =>
          if !IsRetryable(message) {
            return acts, Failed(message);
          }
          if n == MAX_ATTEMPTS {
            return acts, Failed("after 5 attempts: " + message);
          }
          if a.cancelled {
            return acts, Failed("context canceled");
          }
          ConcatAssociates(before, head, Attempts(w, step, n + 1).0);
        n := n + 1;
      }
    }

    /** One tool call: parse, look up, execute. */
    method ExecuteTool(w: World, tc: ToolCall, step: nat, i: nat) returns (o: Observation)
      ensures o == Observe(w, tc, step, i)
    {
      var output, error, success := "", "", true;
      if !w.parses(tc.arguments) {
        error, success := "Failed to parse arguments: " + w.parseError(tc.arguments), false;
      } else if !w.known(tc.name) {
        error, success := "Unknown tool: " + tc.name, false;
      } else {
        match w.execute(step, i)
        case Raised(message) => error, success := message, false;
        case Ran(toolSuccess, toolOutput, toolError) =>
          if !toolSuccess {
            error, output, success := toolError, toolOutput, false;
          } else {
            output := toolOutput;
            if |output| > 8000 {
              output := output[..8000] + "\n... (truncated)";
            }
          }
      }
      o := Observation(success, output, error);
    }

    /** The tool calls of one response. */
    method ExecuteCalls(conv: Memory.Conversation, w: World, calls: seq<ToolCall>, step: nat)
      returns (acts: seq<Action>)
      modifies conv
      ensures acts == CallsFrom(w, calls, step, 0)
      ensures conv.Value() == Extended(old(conv.Value()), acts)
    {
      ghost var v := conv.Value();
      acts := [];
      for i := 0 to |calls|
        invariant acts + CallsFrom(w, calls, step, i) == CallsFrom(w, calls, step, 0)
        invariant conv.Value() == Extended(v, acts)
      {
        var turn := ExecuteCall(conv, w, calls[i], step, i);
        ExtendedConcat(v, acts, turn);
        ConcatAssociates(acts, turn, CallsFrom(w, calls, step, i + 1));
        acts := acts + turn;
      }
    }

    /** One tool call: the event, the execution, its event, and the message for the LLM. */
    method ExecuteCall(conv: Memory.Conversation, w: World, tc: ToolCall, step: nat, i: nat)
      returns (turn: seq<Action>)
      modifies conv
      ensures turn == OneCall(w, tc, step, i)
      ensures conv.Value() == Extended(old(conv.Value()), turn)
    {
      ghost var v := conv.Value();
      var called := Emit(ToolCalled(tc.name, tc.arguments, step));
      var o := ExecuteTool(w, tc, step, i);
      var returned := Emit(ToolReturned(tc.name, o.success, Truncate(o.output, 2000), o.error, step));
      var toolContent := o.output;
      if o.error != "" {
        toolContent := "Error: " + o.error + "\n" + o.output;
      }
      conv.AddToolResult(tc.id, toolContent, w.appendedAt(step, i + 1));
      var added := Append(Tool(tc.id, toolContent), w.appendedAt(step, i + 1));
      turn := [called, returned, added];
      ExtendedByLast(v, called, returned, added);
    }

    /** One step of the agent loop. */
    method RunStep(conv: Memory.Conversation, w: World, p: Progress) returns (trace: seq<Action>, next: Onward)
      modifies conv, circuitBreaker
      ensures StepResult(trace, next, circuitBreaker.state)
           == StepOnce(w, circuitBreaker.config, p, old(circuitBreaker.state))
      ensures conv.Value() == Extended(old(conv.Value()), trace)
    {
      hide Attempts, Respond, Extended;
      var stepCount := p.step + 1;
      ghost var v := conv.Value();
      var allowed := circuitBreaker.Allow(w.askedAt(stepCount));
      if !allowed {
        trace, next := [BreakerRefused, Emit(Error(BREAKER_IS_OPEN))], Stop(Some("circuit breaker open"));
        SilentKeeps(v, trace);
        return;
      }
      var acts, result := CallLlm(w, stepCount);
      AttemptsAreSilent(w, stepCount, 1);
      if result.Failed? {
        circuitBreaker.RecordFailure(w.failedAt(stepCount));
        trace := [BreakerAllowed] + acts + [BreakerFailed, Emit(Error(CALL_FAILED + result.message))];
        next := Stop(Some(result.message));
        SilentKeeps(v, trace);
        return;
      }
      circuitBreaker.RecordSuccess();
      var r := result.r;
      var q := Progress(stepCount, p.prompt + r.promptTokens, p.completion + r.completionTokens);
      var head := [BreakerAllowed] + acts + [BreakerSucceeded, Received(r)];
      var turn;
      turn, next := HandleResponse(conv, w, q, r);
      trace := head + turn;
      ExtendedConcat(v, head, turn);
      SilentKeeps(v, head);
    }

    /** The final answer, or the assistant message and its tool calls. */
    method HandleResponse(conv: Memory.Conversation, w: World, p: Progress, r: Response)
      returns (acts: seq<Action>, next: Onward)
      modifies conv
      ensures (acts, next) == Respond(w, p, r)
      ensures conv.Value() == Extended(old(conv.Value()), acts)
    {
      ghost var v := conv.Value();
      var at := w.appendedAt(p.step, 0);
      if r.toolCalls == [] {
        conv.AddAssistantMessage(Assistant(r.content, []), at);
        FinalExtends(v, [], r.content, p, at);
        assert [] + Final(r.content, p, at) == Final(r.content, p, at);
        return Final(r.content, p, at), Stop(None);
      }
      acts := [];
      if r.content != "" {
        acts := [Emit(Thinking(r.content, p.step))];
      }
      conv.AddAssistantMessage(Assistant(r.content, r.toolCalls), at);
      acts := acts + [Append(Assistant(r.content, r.toolCalls), at)];
      var calls := ExecuteCalls(conv, w, r.toolCalls, p.step);
      acts := acts + calls;
      next := Continue(p);
      TurnExtends(w, v, r, p.step);
    }

    /** The agent loop. */
    method RunSteps(conv: Memory.Conversation, w: World) returns (trace: seq<Action>, err: Option<string>)
      modifies conv, circuitBreaker
      ensures RunResult(trace, err, circuitBreaker.state)
           == StepsFrom(w, maxSteps, circuitBreaker.config, Progress(0, 0, 0), old(circuitBreaker.state))
      ensures conv.Value() == Extended(old(conv.Value()), trace)
    {
      var p := Progress(0, 0, 0);
      ghost var all := StepsFrom(w, maxSteps, circuitBreaker.config, p, circuitBreaker.state);
      trace := [];
      for step := 0 to maxSteps
        invariant p.step == step
        invariant Prefixed(trace, StepsFrom(w, maxSteps, circuitBreaker.config, p, circuitBreaker.state)) == all
        invariant conv.Value() == Extended(old(conv.Value()), trace)
      {
        ghost var rest := StepsFrom(w, maxSteps, circuitBreaker.config, p, circuitBreaker.state);
        var turn, next := RunStep(conv, w, p);
        ExtendedConcat(old(conv.Value()), trace, turn);
        match next
        case Stop(e) =>
          return trace + turn, e;
        case Continue(q) =>
          PrefixedTwice(trace, turn, StepsFrom(w, maxSteps, circuitBreaker.config, q, circuitBreaker.state));
          trace := trace + turn;
          p := q;
      }
      var at := w.appendedAt(maxSteps, 0);
      conv.AddAssistantMessage(Assistant(MAX_STEPS_ANSWER, []), at);
      FinalExtends(old(conv.Value()), trace, MAX_STEPS_ANSWER, p, at);
      return trace + Final(MAX_STEPS_ANSWER, p, at), None;
    }

    /** A chat request, from the browser's message to the last event. */
    method RunStreamWithRegistry(id: string, w: World, o: Opening, hasProvider: bool, order: seq<string>)
      returns (trace: seq<Action>, err: Option<string>)
      requires Valid() && Visits(order, conversations.Keys)
      modifies this`conversations, circuitBreaker, conversations.Values
      ensures Valid()
      ensures id !in old(conversations) && !hasProvider ==>
        && trace == [Emit(Error("No provider configured. Please set up LLM config first."))] && err.Some?
        && circuitBreaker.state == old(circuitBreaker.state)
      ensures id in old(conversations) || hasProvider ==>
        var v := if id in old(conversations) then old(conversations[id].Value())
                 else Memory.Contents([System(systemPrompt)], 0, [], o.at);
        && RunResult(trace, err, circuitBreaker.state)
           == ChatRun(w, maxSteps, circuitBreaker.config, v, o, old(circuitBreaker.state))
        && id in conversations
        && conversations[id].Value()
           == AfterRun(w, maxSteps, circuitBreaker.config, v, o, old(circuitBreaker.state))
      ensures forall other :: other in conversations && other != id ==>
        other in old(conversations) && conversations[other] == old(conversations)[other]
        && conversations[other].Value() == old(conversations[other].Value())
    {
      hide ChatRun, AfterRun, GetStep, Visits;
      var conv := GetOrCreateConversation(id, hasProvider, o.at, order);
      if conv == null {
        return [Emit(Error("No provider configured. Please set up LLM config first."))], Some("no provider available");
      }
      trace, err := Chat(conv, w, o);
    }

    /** The request on its conversation: the message, the compression, and the agent loop. */
    method Chat(conv: Memory.Conversation, w: World, o: Opening) returns (trace: seq<Action>, err: Option<string>)
      modifies conv, circuitBreaker
      ensures RunResult(trace, err, circuitBreaker.state)
           == ChatRun(w, maxSteps, circuitBreaker.config, old(conv.Value()), o, old(circuitBreaker.state))
      ensures conv.Value()
           == AfterRun(w, maxSteps, circuitBreaker.config, old(conv.Value()), o, old(circuitBreaker.state))
    {
      var prelude := Open(conv, o);
      if o.providerGone {
        return prelude + [Emit(Error("Provider became unavailable during chat"))], Some("provider unavailable");
      }
      var rest;
      rest, err := RunSteps(conv, w);
      trace := prelude + rest;
    }

    /** The user's message, and compression of a long conversation. */
    method Open(conv: Memory.Conversation, o: Opening) returns (trace: seq<Action>)
      modifies conv
      ensures trace == Prelude(old(conv.Value()), o) && conv.Value() == Opened(old(conv.Value()), o)
    {
      conv.AddUserMessage(o.message, o.at);
      trace := [Append(User(o.message), o.at)];
      var compressed := conv.MaybeCompress(o.summary, o.compressedAt);
      if compressed {
        trace := trace + [Emit(MemoryEvent)];
      }
    }
  }

  // ----- which actions touch the conversation -----

  lemma {:induction false} SilentKeeps(v: Memory.Contents, trace: seq<Action>)
    requires forall a :: a in trace ==> !a.Append?
    ensures Extended(v, trace) == v
    decreases trace
  {
    if trace != [] {
      assert !trace[0].Append?;
      SilentKeeps(v, trace[1..]);
    }
  }

  lemma {:induction false} DeltasAreSilent(deltas: seq<string>, step: nat)
    ensures forall a :: a in Deltas(deltas, step) ==> a.Emit? && a.event.ThinkingDelta?
    ensures forall a :: a in Deltas(deltas, step) ==> a.event.delta != "" && a.event.step == step
  {
    if deltas != [] {
      DeltasAreSilent(deltas[1..], step);
    }
  }

  lemma {:induction false} AttemptsAreSilent(w: World, step: nat, n: nat)
    requires 1 <= n <= MAX_ATTEMPTS
    ensures forall a :: a in Attempts(w, step, n).0 ==> !a.Append?
    decreases MAX_ATTEMPTS - n
  {
    DeltasAreSilent(w.attempt(step, n).deltas, step);
    if n < MAX_ATTEMPTS {
      AttemptsAreSilent(w, step, n + 1);
    }
  }

  lemma {:induction false} ExtendedByOne(v: Memory.Contents, a: Action)
    requires a.Append?
    ensures Extended(v, [a]) == Memory.Appended(v, a.m, a.at)
  {
    assert [a][1..] == [];
  }

  lemma {:induction false} ConcatAssociates(xs: seq<Action>, ys: seq<Action>, zs: seq<Action>)
    ensures xs + (ys + zs) == (xs + ys) + zs
  {}

  lemma {:induction false} ExtendedByLast(v: Memory.Contents, a: Action, b: Action, c: Action)
    requires !a.Append? && !b.Append? && c.Append?
    ensures Extended(v, [a, b, c]) == Memory.Appended(v, c.m, c.at)
  {
    assert [a, b, c] == [a, b] + [c];
    ExtendedConcat(v, [a, b], [c]);
    SilentKeeps(v, [a, b]);
    ExtendedByOne(v, c);
  }

  lemma {:induction false} FinalExtends(v: Memory.Contents, trace: seq<Action>, content: string, p: Progress, at: int)
    ensures Extended(v, trace + Final(content, p, at)) == Memory.Appended(Extended(v, trace), Assistant(content, []), at)
    ensures (forall a :: a in trace ==> !a.Append?) ==> Extended(v, trace) == v
  {
    var final := Final(content, p, at);
    ExtendedConcat(v, trace, final);
    if forall a :: a in trace ==> !a.Append? {
      SilentKeeps(v, trace);
    }
    var v' := Extended(v, trace);
    assert final == [final[0]] + final[1..];
    ExtendedConcat(v', [final[0]], final[1..]);
    ExtendedByOne(v', final[0]);
    SilentKeeps(Extended(v', [final[0]]), final[1..]);
  }

  lemma {:induction false} TurnExtends(w: World, v: Memory.Contents, r: Response, step: nat)
    ensures Extended(v, ToolTurn(w, r, step))
         == Extended(Memory.Appended(v, Assistant(r.content, r.toolCalls), w.appendedAt(step, 0)),
                     CallsFrom(w, r.toolCalls, step, 0))
  {
    var thinking := if r.content != "" then [Emit(Thinking(r.content, step))] else [];
    var asked := Append(Assistant(r.content, r.toolCalls), w.appendedAt(step, 0));
    var calls := CallsFrom(w, r.toolCalls, step, 0);
    assert ToolTurn(w, r, step) == thinking + ([asked] + calls);
    ExtendedConcat(v, thinking, [asked] + calls);
    SilentKeeps(v, thinking);
    ExtendedConcat(v, [asked], calls);
    ExtendedByOne(v, asked);
  }

  lemma {:induction false} PrefixedTwice(xs: seq<Action>, ys: seq<Action>, r: RunResult)
    ensures Prefixed(xs, Prefixed(ys, r)) == Prefixed(xs + ys, r)
  {
    assert xs + (ys + r.trace) == (xs + ys) + r.trace;
  }

  ghost predicate DistinctIds(entries: seq<Entry>) {
    forall i, j :: 0 <= i < j < |entries| ==> entries[i].id != entries[j].id
  }

  lemma {:induction false} SortedEntries(entries: seq<Entry>, sorted: seq<Entry>, activity: Store)
    requires sorted == Sort(Before, entries) && Distinct(entries)
    requires forall e :: e in entries <==> e.id in activity && e.activity == activity[e.id]
    ensures Sorted(Before, sorted) && |sorted| == |entries| && DistinctIds(sorted)
    ensures forall e :: e in sorted <==> e.id in activity && e.activity == activity[e.id]
    ensures forall k :: 0 <= k < |sorted| ==> sorted[k].id in activity
  {
    SortPermutes(Before, entries);
    SortSorts(Before, entries);
    PermutationStaysDistinct(entries, sorted);
    assert forall k :: 0 <= k < |sorted| ==> sorted[k] in sorted;
  }

  lemma {:induction false} OldestDropped(activity: Store, sorted: seq<Entry>, n: nat, left: set<string>)
    requires Sorted(Before, sorted) && left <= activity.Keys
    requires forall e :: e in sorted <==> e.id in activity && e.activity == activity[e.id]
    requires forall k :: 0 <= k < |sorted| ==> (sorted[k].id in left <==> k >= n)
    ensures forall id, kept :: id in activity && id !in left && kept in left ==> activity[id] <= activity[kept]
  {
    forall id, kept | id in activity && id !in left && kept in left
      ensures activity[id] <= activity[kept]
    {
      assert Entry(id, activity[id]) in sorted && Entry(kept, activity[kept]) in sorted;
      var a :| 0 <= a < |sorted| && sorted[a] == Entry(id, activity[id]);
      var b :| 0 <= b < |sorted| && sorted[b] == Entry(kept, activity[kept]);
    }
  }

  lemma {:induction false} SweptInTwoPhases(m: Store, young: Store, m': Store, now: int)
    requires young.Keys == set id | id in m && Fresh(m, id, now)
    requires forall id :: id in young ==> young[id] == m[id]
    requires forall id :: id in m' ==> id in young && m'[id] == young[id]
    requires if |young| > MAX_CONVERSATIONS then |m'| == MAX_CONVERSATIONS else m' == young
    requires forall id, kept :: id in young && id !in m' && kept in m' ==> young[id] <= young[kept]
    ensures SweptTo(m, now, m', |m| - |m'|)
  {}

  lemma {:induction false} RemovingOne<T>(m: map<string, T>, id: string)
    requires id in m
    ensures |m - {id}| == |m| - 1
  {
    assert (m - {id}).Keys == m.Keys - {id};
    assert |m.Keys| == |m| && |(m - {id}).Keys| == |m - {id}|;
  }
}
