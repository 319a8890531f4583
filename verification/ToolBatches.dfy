/** Executing the tool calls of one assistant message: truncated, sequential and parallel batches. */
module ToolBatches {
  import opened Text
  import opened AgentTypes
  import opened AgentStates

  datatype ExecutionMode = Sequential | Parallel

  datatype AgentTool = AgentTool(name: string, mode: ExecutionMode)

  datatype Preparation = Prepared(call: ToolCall) | Immediate(outcome: ToolOutcome)

  /** What comes of executing a tool. */
  datatype Execution = Returned(content: string, terminate: bool) | Threw(message: string)

  /** What the hook after a call makes of its outcome. */
  datatype Revision =
    | Kept
    | Changed(content: Option<string>, isError: Option<bool>, terminate: Option<bool>)
    | HookThrew(message: string)

  /** What the world answers to one call: why its arguments are invalid, what the hook before it throws or why it blocks
      the call, how often the tool reports progress, what it comes to, and what the hook after it does. */
  datatype Reply = Reply(invalid: Option<string>, thrown: Option<string>, blocked: Option<string>, updates: nat,
                         execution: Execution, revision: Revision)

  function FindTool(tools: seq<AgentTool>, name: string): (r: Option<AgentTool>)
    ensures r.Some? ==> r.value in tools && r.value.name == name
    ensures r.None? ==> forall t <- tools :: t.name != name
  {
    if tools == [] then None
    else if tools[0].name == name then Some(tools[0])
    else FindTool(tools[1..], name)
  }

  function ErrorOutcome(message: string): ToolOutcome {
    ToolOutcome(message, true, false)
  }

  const ABORTED: ToolOutcome := ErrorOutcome("Operation aborted")

  /** Nothing but an abort keeps the call from being executed. */
  predicate Runnable(tools: seq<AgentTool>, call: ToolCall, hasHook: bool, reply: Reply) {
    && (exists t <- tools :: t.name == call.name)
    && reply.invalid.None?
    && (hasHook ==> reply.thrown.None? && reply.blocked.None?)
  }

  /** The outcome of a call that is executed. */
  function FinalOutcome(reply: Reply): ToolOutcome {
    var outcome := match reply.execution
      case Returned(content, terminate) => ToolOutcome(content, false, terminate)
      case Threw(message) => ErrorOutcome(message);
    match reply.revision
    case Kept => outcome
    case HookThrew(message) => ErrorOutcome(message)
    case Changed(content, isError, terminate) =>
      ToolOutcome(if content.Some? then content.value else outcome.content,
                  if isError.Some? then isError.value else outcome.isError,
                  if terminate.Some? then terminate.value else outcome.terminate)
  }

  /** How a call of a batch is answered: executed when it can be and nobody aborts, refused with an error when it
      cannot be. */
  predicate Answered(tools: seq<AgentTool>, call: ToolCall, hasHook: bool, reply: Reply, outcome: ToolOutcome,
                     aborted: bool)
  {
    if Runnable(tools, call, hasHook, reply) then outcome == FinalOutcome(reply) || (aborted && outcome == ABORTED)
    else outcome.isError && !outcome.terminate
  }

  predicate AllAnswered(tools: seq<AgentTool>, calls: seq<ToolCall>, hasHook: bool, replies: seq<Reply>,
                        outcomes: seq<ToolOutcome>, aborted: bool)
  {
    && |outcomes| <= |calls| == |replies|
    && forall k :: 0 <= k < |outcomes| ==> Answered(tools, calls[k], hasHook, replies[k], outcomes[k], aborted)
  }

  function Results(calls: seq<ToolCall>, outcomes: seq<ToolOutcome>): (ms: seq<Message>)
    requires |outcomes| <= |calls|
    ensures |ms| == |outcomes|
  {
    seq(|outcomes|, k requires 0 <= k < |outcomes| => ResultMessage(calls[k], outcomes[k]))
  }

  function Indexed(ms: seq<Message>): map<nat, Message> {
    map k: nat | k < |ms| :: ms[k]
  }

  predicate ShouldTerminate(outcomes: seq<ToolOutcome>) {
    |outcomes| > 0 && forall o <- outcomes :: o.terminate
  }

  /** What a batch starts from, and leaves alone: it only adds events, and its messages are tool results. */
  datatype Base = Base(events: seq<Event>, initial: seq<Message>, isStreaming: bool, ends: seq<Message>,
                       steering: seq<Message>, followUps: seq<Message>)

  ghost function BaseOf(state: AgentState): Base
    reads state
  {
    Base(state.events, state.initial, state.isStreaming, state.Ends(),
         state.Delivered(Steering), state.Delivered(FollowUp))
  }

  /** The calls `running` and `ended` since `base`, and the result messages reported. */
  ghost predicate During(state: AgentState, base: Base, running: map<nat, ToolCall>, ended: map<nat, Message>,
                         reported: seq<Message>)
    reads state
  {
    && state.Valid()
    && state.Phase() == Turn(None, running, ended)
    && base.events <= state.events
    && (forall i :: |base.events| <= i < |state.events| ==> IsBatchEvent(state.events[i]))
    && BaseOf(state).(events := base.events) == base.(ends := base.ends + reported)
  }

  /** A batch neither begins nor ends a turn or a run. */
  predicate IsBatchEvent(e: Event) {
    !e.AgentStart? && !e.AgentEnd? && !e.TurnStart? && !e.TurnEnd?
  }

  /** `prepareToolCall`: when the user aborts is arbitrary. */
  method PrepareToolCall(tools: seq<AgentTool>, call: ToolCall, hasHook: bool, reply: Reply, signal: AbortSignal)
    returns (p: Preparation)
    modifies signal
    ensures old(signal.aborted) ==> signal.aborted
    ensures p.Prepared? <==> Runnable(tools, call, hasHook, reply) && !signal.aborted
    ensures p.Prepared? ==> p.call == call
    ensures p.Immediate? && Runnable(tools, call, hasHook, reply) ==> p.outcome == ABORTED
    ensures p.Immediate? ==> p.outcome.isError && !p.outcome.terminate
    ensures (forall t <- tools :: t.name != call.name) ==>
              p == Immediate(ErrorOutcome("Tool " + call.name + " not found"))
    ensures (exists t <- tools :: t.name == call.name) && reply.invalid.Some? ==>
              p == Immediate(ErrorOutcome(reply.invalid.value))
  {
    signal.MayAbort();
    var tool := FindTool(tools, call.name);
    if tool.None? {
      return Immediate(ErrorOutcome("Tool " + call.name + " not found"));
    }
    if reply.invalid.Some? {
      return Immediate(ErrorOutcome(reply.invalid.value));
    }
    if hasHook {
      signal.MayAbort();
      if reply.thrown.Some? {
        return Immediate(ErrorOutcome(reply.thrown.value));
      }
      if signal.aborted {
        return Immediate(ABORTED);
      }
      if reply.blocked.Some? {
        var reason := reply.blocked.value;
        return Immediate(ErrorOutcome(if reason != "" then reason else "Tool execution was blocked"));
      }
    }
    if signal.aborted {
      return Immediate(ABORTED);
    }
    return Prepared(call);
  }

  // ----- the events of one call -----

  method StartCall(state: AgentState, k: nat, call: ToolCall, ghost base: Base, ghost running: map<nat, ToolCall>,
                   ghost ended: map<nat, Message>, ghost reported: seq<Message>)
    requires During(state, base, running, ended, reported) && k !in running && k !in ended
    modifies state
    ensures During(state, base, running[k := call], ended, reported)
    ensures state.events == old(state.events) + [ToolStart(k, call)]
    ensures running == map[] ==> (Overlaps(state.events) <==> Overlaps(old(state.events)))
  {
    state.Emit(ToolStart(k, call), Tool);
  }

  /** The callback a tool reports progress through: ignored once the tool has returned or thrown. */
  method OnUpdate(state: AgentState, k: nat, call: ToolCall, accepting: bool, ghost base: Base,
                  ghost running: map<nat, ToolCall>, ghost ended: map<nat, Message>, ghost reported: seq<Message>)
    requires During(state, base, running, ended, reported)
    requires accepting ==> k in running && running[k] == call
    modifies state
    ensures During(state, base, running, ended, reported)
    ensures state.events == old(state.events) + (if accepting then [ToolUpdate(k, call)] else [])
    ensures Overlaps(state.events) <==> Overlaps(old(state.events))
  {
    if !accepting {
      assert state.events + [] == state.events;
      return;
    }
    state.Emit(ToolUpdate(k, call), Tool);
  }

  /** `emitToolExecutionEnd` */
  method EndCall(state: AgentState, k: nat, call: ToolCall, outcome: ToolOutcome, ghost base: Base,
                 ghost running: map<nat, ToolCall>, ghost ended: map<nat, Message>, ghost reported: seq<Message>)
    requires During(state, base, running, ended, reported) && k in running && running[k] == call
    modifies state
    ensures During(state, base, running - {k}, ended[k := ResultMessage(call, outcome)], reported)
    ensures state.events == old(state.events) + [ToolEnd(k, call, outcome)]
    ensures Overlaps(state.events) <==> Overlaps(old(state.events))
  {
    state.Emit(ToolEnd(k, call, outcome), Tool);
  }

  /** `emitToolResultMessage` */
  method EmitResult(state: AgentState, m: Message, ghost base: Base, ghost ended: map<nat, Message>,
                    ghost reported: seq<Message>)
    requires During(state, base, map[], ended, reported) && m.ToolResult?
    modifies state
    ensures During(state, base, map[], ended, reported + [m])
    ensures state.events == old(state.events) + [MessageStart(m), MessageEnd(m)]
    ensures Overlaps(state.events) <==> Overlaps(old(state.events))
  {
    hide state.Valid, state.Phase, state.Ends, state.Delivered, PendingNext;
    state.Emit(MessageStart(m), Tool);
    state.Emit(MessageEnd(m), Tool);
    assert base.ends + reported + [m] == base.ends + (reported + [m]);
  }

  function Updates(k: nat, call: ToolCall, n: nat): seq<Event> {
    seq(n, _ => ToolUpdate(k, call))
  }

  /** `executePreparedToolCall`, alone: all the tool's updates, then what it comes to. */
  method ExecutePrepared(state: AgentState, k: nat, call: ToolCall, reply: Reply, signal: AbortSignal, ghost base: Base,
                         ghost running: map<nat, ToolCall>, ghost ended: map<nat, Message>,
                         ghost reported: seq<Message>)
    returns (outcome: ToolOutcome)
    requires During(state, base, running, ended, reported) && k in running && running[k] == call
    modifies state, signal
    ensures old(signal.aborted) ==> signal.aborted
    ensures During(state, base, running, ended, reported)
    ensures state.events == old(state.events) + Updates(k, call, reply.updates)
    ensures Overlaps(state.events) <==> Overlaps(old(state.events))
    ensures match reply.execution
            case Returned(content, terminate) =>
              !outcome.isError && outcome.content == content && outcome.terminate == terminate
            case Threw(message) => outcome.isError && outcome.content == message && !outcome.terminate
  {
    hide During, Overlaps;
    for n := 0 to reply.updates
      invariant During(state, base, running, ended, reported)
      invariant state.events == old(state.events) + Updates(k, call, n)
      invariant Overlaps(state.events) <==> Overlaps(old(state.events))
      invariant signal.aborted == old(signal.aborted)
    {
      OnUpdate(state, k, call, true, base, running, ended, reported);
    }
    signal.MayAbort();
    match reply.execution {
      case Returned(content, terminate) => outcome := ToolOutcome(content, false, terminate);
      case Threw(message) => outcome := ErrorOutcome(message);
    }
  }

  /** `finalizeExecutedToolCall` */
  method FinalizeExecuted(executed: ToolOutcome, revision: Revision) returns (outcome: ToolOutcome)
    ensures revision.Kept? ==> outcome == executed
    ensures revision.HookThrew? ==> outcome.isError && outcome.content == revision.message && !outcome.terminate
    ensures revision.Changed? ==>
              && (revision.content.Some? ==> outcome.content == revision.content.value)
              && (revision.content.None? ==> outcome.content == executed.content)
              && (revision.isError.Some? ==> outcome.isError == revision.isError.value)
              && (revision.isError.None? ==> outcome.isError == executed.isError)
              && (revision.terminate.Some? ==> outcome.terminate == revision.terminate.value)
              && (revision.terminate.None? ==> outcome.terminate == executed.terminate)
  {
    outcome := executed;
    match revision {
      case Kept =>
      case HookThrew(message) => outcome := ErrorOutcome(message);
      case Changed(content, isError, terminate) =>
        if content.Some? {
          outcome := outcome.(content := content.value);
        }
        if isError.Some? {
          outcome := outcome.(isError := isError.value);
        }
        if terminate.Some? {
          outcome := outcome.(terminate := terminate.value);
        }
    }
  }

  // ----- batches -----

  /** What a batch promises: calls 0, 1, … in source order, each started and ended once, one result message
      each and in that order; only an abort leaves calls out. */
  ghost predicate BatchRan(state: AgentState, base: Base, calls: seq<ToolCall>, outcomes: seq<ToolOutcome>,
                           results: seq<Message>, aborted: bool)
    reads state
  {
    && |outcomes| <= |calls| && (|calls| > 0 ==> |outcomes| > 0) && (|outcomes| < |calls| ==> aborted)
    && results == Results(calls, outcomes)
    && During(state, base, map[], Indexed(results), results)
  }

  lemma ResultsSnoc(calls: seq<ToolCall>, outcomes: seq<ToolOutcome>, o: ToolOutcome)
    requires |outcomes| < |calls|
    ensures Results(calls, outcomes + [o]) == Results(calls, outcomes) + [ResultMessage(calls[|outcomes|], o)]
  {
  }

  lemma IndexedSnoc(ms: seq<Message>, m: Message)
    ensures Indexed(ms + [m]) == Indexed(ms)[|ms| := m]
  {
  }

  // ----- one call after another -----

  /** All that is reported of one call of a sequential batch. */
  function CallEvents(k: nat, call: ToolCall, updates: nat, outcome: ToolOutcome): seq<Event> {
    var message := ResultMessage(call, outcome);
    [ToolStart(k, call)] + Updates(k, call, updates) + [ToolEnd(k, call, outcome)]
    + [MessageStart(message), MessageEnd(message)]
  }

  /** And of the batch: the calls in source order, each with its result message before the next one starts. */
  function SequentialEvents(calls: seq<ToolCall>, outcomes: seq<ToolOutcome>, updates: seq<nat>): seq<Event>
    requires |updates| == |outcomes| <= |calls|
  {
    if outcomes == [] then []
    else
      var k := |outcomes| - 1;
      SequentialEvents(calls, outcomes[..k], updates[..k]) + CallEvents(k, calls[k], updates[k], outcomes[k])
  }

  lemma SequentialSnoc(calls: seq<ToolCall>, outcomes: seq<ToolOutcome>, updates: seq<nat>, outcome: ToolOutcome,
                       n: nat)
    requires |updates| == |outcomes| < |calls|
    ensures SequentialEvents(calls, outcomes + [outcome], updates + [n]) ==
            SequentialEvents(calls, outcomes, updates) + CallEvents(|outcomes|, calls[|outcomes|], n, outcome)
  {
    hide CallEvents;
    assert (outcomes + [outcome])[..|outcomes|] == outcomes && (updates + [n])[..|updates|] == updates;
  }

  /** The end of one call of a sequential batch, and its result message. */
  method FinishCall(state: AgentState, call: ToolCall, k: nat, outcome: ToolOutcome, results: seq<Message>,
                    ghost base: Base)
    returns (results': seq<Message>)
    requires k == |results| && During(state, base, map[k := call], Indexed(results), results)
    modifies state
    ensures results' == results + [ResultMessage(call, outcome)]
    ensures During(state, base, map[], Indexed(results'), results')
    ensures state.events == old(state.events) + [ToolEnd(k, call, outcome)]
                            + [MessageStart(ResultMessage(call, outcome)), MessageEnd(ResultMessage(call, outcome))]
    ensures Overlaps(state.events) <==> Overlaps(old(state.events))
  {
    hide During;
    var message := ResultMessage(call, outcome);
    results' := results + [message];
    EndCall(state, k, call, outcome, base, map[k := call], Indexed(results), results);
    IndexedSnoc(results, message);
    assert map[k := call] - {k} == map[];
    EmitResult(state, message, base, Indexed(results'), results);
  }

  function TruncatedOutcome(call: ToolCall): ToolOutcome {
    ErrorOutcome("Tool call \"" + call.name
                 + "\" was not executed: the response hit the output token limit, so its arguments may be truncated."
                 + " Re-issue the tool call with complete arguments.")
  }

  /** `failToolCallsFromTruncatedMessage` */
  method FailTruncated(state: AgentState, calls: seq<ToolCall>, ghost base: Base)
    returns (results: seq<Message>, terminate: bool, ghost outcomes: seq<ToolOutcome>)
    requires During(state, base, map[], map[], [])
    modifies state
    ensures BatchRan(state, base, calls, outcomes, results, false)
    ensures !terminate && |outcomes| == |calls| && forall k :: 0 <= k < |calls| ==>
              outcomes[k] == TruncatedOutcome(calls[k])
    ensures state.events == old(state.events) + SequentialEvents(calls, outcomes, Zeros(|calls|))
    ensures Overlaps(state.events) <==> Overlaps(old(state.events))
  {
    hide During, TruncatedOutcome, Overlaps, CallEvents, SequentialEvents, Results;
    results, outcomes, terminate := [], [], false;
    ghost var updates: seq<nat> := [];
    NothingSequential(calls);
    assert Indexed([]) == map[] && Results(calls, []) == [];
    for k := 0 to |calls|
      invariant |outcomes| == k && forall j :: 0 <= j < k ==> outcomes[j] == TruncatedOutcome(calls[j])
      invariant results == Results(calls, outcomes) && During(state, base, map[], Indexed(results), results)
      invariant updates == Zeros(k)
      invariant state.events == old(state.events) + SequentialEvents(calls, outcomes, updates)
      invariant Overlaps(state.events) <==> Overlaps(old(state.events))
    {
      var outcome := TruncatedOutcome(calls[k]);
      SequentialSnoc(calls, outcomes, updates, outcome, 0);
      CallFailed(old(state.events), SequentialEvents(calls, outcomes, updates), k, calls[k], outcome);
      StartCall(state, k, calls[k], base, map[], Indexed(results), results);
      ResultsSnoc(calls, outcomes, outcome);
      results := FinishCall(state, calls[k], k, outcome, results, base);
      outcomes, updates := outcomes + [outcome], updates + [0];
    }
  }

  function Zeros(n: nat): (r: seq<nat>)
    ensures |r| == n
  {
    seq(n, _ => 0)
  }

  lemma NothingSequential(calls: seq<ToolCall>)
    ensures SequentialEvents(calls, [], []) == []
  {
  }

  lemma CallReported(events: seq<Event>, k: nat, call: ToolCall, n: nat, outcome: ToolOutcome)
    ensures var message := ResultMessage(call, outcome);
      events + [ToolStart(k, call)] + Updates(k, call, n) + [ToolEnd(k, call, outcome)]
      + [MessageStart(message), MessageEnd(message)] == events + CallEvents(k, call, n, outcome)
  {
  }

  lemma CallFailed(events: seq<Event>, added: seq<Event>, k: nat, call: ToolCall, outcome: ToolOutcome)
    ensures var message := ResultMessage(call, outcome);
      (events + added) + [ToolStart(k, call)] + [ToolEnd(k, call, outcome)]
      + [MessageStart(message), MessageEnd(message)]
      == events + (added + CallEvents(k, call, 0, outcome))
    ensures Updates(k, call, 0) == []
  {
  }

  /** One call of a sequential batch, from its start to its result message. */
  method RunCall(state: AgentState, tools: seq<AgentTool>, call: ToolCall, k: nat, hasHook: bool, reply: Reply,
                 results: seq<Message>, signal: AbortSignal, ghost base: Base)
    returns (outcome: ToolOutcome, ghost n: nat)
    requires k == |results| && During(state, base, map[], Indexed(results), results)
    modifies state, signal
    ensures old(signal.aborted) ==> signal.aborted
    ensures var all := results + [ResultMessage(call, outcome)]; During(state, base, map[], Indexed(all), all)
    ensures state.events == old(state.events) + CallEvents(k, call, n, outcome)
    ensures Answered(tools, call, hasHook, reply, outcome, signal.aborted)
    ensures Runnable(tools, call, hasHook, reply) && outcome != ABORTED ==> n == reply.updates
    ensures Overlaps(state.events) <==> Overlaps(old(state.events))
  {
    hide During, CallEvents, Runnable, Overlaps, Updates;
    n := 0;
    StartCall(state, k, call, base, map[], Indexed(results), results);
    var preparation := PrepareToolCall(tools, call, hasHook, reply, signal);
    if preparation.Immediate? {
      outcome := preparation.outcome;
    } else {
      n := reply.updates;
      outcome := ExecutePrepared(state, k, call, reply, signal, base, map[k := call], Indexed(results), results);
      outcome := FinalizeExecuted(outcome, reply.revision);
    }
    CallReported(old(state.events), k, call, n, outcome);
    CallFailed(old(state.events), [], k, call, outcome);
    assert old(state.events) + [] == old(state.events);
    assert [] + CallEvents(k, call, 0, outcome) == CallEvents(k, call, 0, outcome);
    var all := FinishCall(state, call, k, outcome, results, base);
  }

  /** `executeToolCallsSequential` */
  method ExecuteSequential(state: AgentState, tools: seq<AgentTool>, calls: seq<ToolCall>, hasHook: bool,
                           replies: seq<Reply>, signal: AbortSignal, ghost base: Base)
    returns (results: seq<Message>, terminate: bool, outcomes: seq<ToolOutcome>, ghost updates: seq<nat>)
    requires During(state, base, map[], map[], []) && |replies| == |calls|
    modifies state, signal
    ensures old(signal.aborted) ==> signal.aborted
    ensures BatchRan(state, base, calls, outcomes, results, signal.aborted)
    ensures AllAnswered(tools, calls, hasHook, replies, outcomes, signal.aborted)
    ensures terminate == ShouldTerminate(outcomes)
    ensures |updates| == |outcomes| && state.events == old(state.events) + SequentialEvents(calls, outcomes, updates)
    ensures forall k ::
      0 <= k < |outcomes| && Runnable(tools, calls[k], hasHook, replies[k]) && outcomes[k] != ABORTED ==>
              updates[k] == replies[k].updates
    ensures Overlaps(state.events) <==> Overlaps(old(state.events))
  {
    hide During, CallEvents, SequentialEvents, Results, Runnable, Overlaps, FinalOutcome;
    results, outcomes, updates := [], [], [];
    NothingSequential(calls);
    assert Indexed([]) == map[] && Results(calls, []) == [];
    while |outcomes| < |calls|
      invariant |outcomes| <= |calls| && (old(signal.aborted) ==> signal.aborted)
      invariant results == Results(calls, outcomes) && During(state, base, map[], Indexed(results), results)
      invariant |updates| == |outcomes|
      invariant state.events == old(state.events) + SequentialEvents(calls, outcomes, updates)
      invariant forall k :: 0 <= k < |outcomes| ==>
                  && Answered(tools, calls[k], hasHook, replies[k], outcomes[k], signal.aborted)
                  && (Runnable(tools, calls[k], hasHook, replies[k]) && outcomes[k] != ABORTED ==>
                        updates[k] == replies[k].updates)
      invariant Overlaps(state.events) <==> Overlaps(old(state.events))
    {
      var outcome;
      ghost var n;
      outcome, n := RunCall(state, tools, calls[|outcomes|], |outcomes|, hasHook, replies[|outcomes|], results, signal,
                            base);
      ResultsSnoc(calls, outcomes, outcome);
      SequentialSnoc(calls, outcomes, updates, outcome, n);
      results := results + [ResultMessage(calls[|outcomes|], outcome)];
      outcomes, updates := outcomes + [outcome], updates + [n];
      signal.MayAbort();
      if signal.aborted {
        break;
      }
    }
    terminate := ShouldTerminate(outcomes);
  }

  // ----- parallel batches -----

  /** A call of a parallel batch: whether its progress callback still accepts updates, how often it will
      be called, and its outcome once settled. */
  datatype Entry = Entry(accepting: bool, attempts: nat, outcome: Option<ToolOutcome>)

  function RunningOf(calls: seq<ToolCall>, entries: seq<Entry>): map<nat, ToolCall>
    requires |entries| <= |calls|
  {
    map k: nat | k < |entries| && entries[k].outcome.None? :: calls[k]
  }

  function EndedOf(calls: seq<ToolCall>, entries: seq<Entry>): map<nat, Message>
    requires |entries| <= |calls|
  {
    map k: nat | k < |entries| && entries[k].outcome.Some? :: ResultMessage(calls[k], entries[k].outcome.value)
  }

  /** Only calls that have no outcome yet accept updates. */
  predicate Sound(entries: seq<Entry>) {
    forall k :: 0 <= k < |entries| && entries[k].accepting ==> entries[k].outcome.None?
  }

  function Work(entries: seq<Entry>): nat {
    if entries == [] then 0
    else Effort(entries[0]) + Work(entries[1..])
  }

  function Effort(e: Entry): nat {
    e.attempts + (if e.accepting then 1 else 0) + (if e.outcome.None? then 1 else 0)
  }

  lemma {:induction false} LessWork(entries: seq<Entry>, k: nat, e: Entry)
    requires k < |entries| && Effort(e) < Effort(entries[k])
    ensures Work(entries[k := e]) < Work(entries)
  {
    if k == 0 {
      assert entries[k := e][1..] == entries[1..];
    } else {
      assert entries[k := e][1..] == entries[1..][k - 1 := e];
      LessWork(entries[1..], k - 1, e);
    }
  }

  lemma EntryAdded(calls: seq<ToolCall>, entries: seq<Entry>, e: Entry)
    requires |entries| < |calls|
    ensures e.outcome.None? ==>
              && RunningOf(calls, entries + [e]) == RunningOf(calls, entries)[|entries| := calls[|entries|]]
              && EndedOf(calls, entries + [e]) == EndedOf(calls, entries)
    ensures e.outcome.Some? ==>
              && RunningOf(calls, entries + [e]) == RunningOf(calls, entries)
              && EndedOf(calls, entries + [e]) ==
                 EndedOf(calls, entries)[|entries| := ResultMessage(calls[|entries|], e.outcome.value)]
  {
  }

  lemma EntrySettled(calls: seq<ToolCall>, entries: seq<Entry>, k: nat, e: Entry)
    requires k < |entries| <= |calls| && entries[k].outcome.None? && e.outcome.Some?
    ensures RunningOf(calls, entries[k := e]) == RunningOf(calls, entries) - {k}
    ensures EndedOf(calls, entries[k := e]) == EndedOf(calls, entries)[k := ResultMessage(calls[k], e.outcome.value)]
  {
  }

  lemma EntryPending(calls: seq<ToolCall>, entries: seq<Entry>, k: nat, e: Entry)
    requires k < |entries| <= |calls| && e.outcome == entries[k].outcome
    ensures RunningOf(calls, entries[k := e]) == RunningOf(calls, entries)
    ensures EndedOf(calls, entries[k := e]) == EndedOf(calls, entries)
  {
  }

  lemma AllSettled(calls: seq<ToolCall>, entries: seq<Entry>, outcomes: seq<ToolOutcome>)
    requires |outcomes| == |entries| <= |calls|
    requires forall k :: 0 <= k < |entries| ==> entries[k].outcome == Some(outcomes[k])
    ensures RunningOf(calls, entries) == map[]
    ensures EndedOf(calls, entries) == Indexed(Results(calls, outcomes))
  {
  }

  // ----- what is reported when -----

  /** The batch starts all its calls before any of them reports progress, and has ended all of them before any result
      message; a call that ends before a later one starts was refused, right after its own start. */
  predicate RunsInParallel(events: seq<Event>, from: nat) {
    && (forall i, j :: from <= i < j < |events| && events[j].ToolStart? ==>
          && !events[i].ToolUpdate? && !events[i].MessageStart? && !events[i].MessageEnd?
          && (events[i].ToolEnd? ==> RefusedAt(events, i)))
    && (forall i, j :: from <= i < j < |events| && events[j].ToolEnd? ==>
          !events[i].MessageStart? && !events[i].MessageEnd?)
    && (forall i, j :: from <= i < j < |events| && events[i].ToolStart? && events[j].ToolStart? ==>
          events[i].k < events[j].k)
  }

  predicate RefusedAt(events: seq<Event>, i: nat) {
    && 0 < i < |events| && events[i].ToolEnd? && events[i].outcome.isError
    && events[i - 1].ToolStart? && events[i - 1].k == events[i].k
  }

  /** Only starts, each followed by its end when the call is refused; `n` calls so far. */
  predicate Preparing(events: seq<Event>, from: nat, n: nat) {
    && (forall i :: from <= i < |events| ==> events[i].ToolStart? || (RefusedAt(events, i) && i > from))
    && (forall i :: from <= i < |events| && events[i].ToolStart? ==> events[i].k < n)
    && (forall i, j :: from <= i < j < |events| && events[i].ToolStart? && events[j].ToolStart? ==>
          events[i].k < events[j].k)
  }

  predicate OnlyRunning(events: seq<Event>, from: nat) {
    forall i :: from <= i < |events| ==> events[i].ToolUpdate? || events[i].ToolEnd?
  }

  predicate OnlyResults(events: seq<Event>, from: nat) {
    forall i :: from <= i < |events| ==> events[i].MessageStart? || events[i].MessageEnd?
  }

  lemma PreparingSnoc(events: seq<Event>, from: nat, n: nat, call: ToolCall)
    requires from <= |events| && Preparing(events, from, n)
    ensures Preparing(events + [ToolStart(n, call)], from, n + 1)
  {
    var longer := events + [ToolStart(n, call)];
    assert forall i :: 0 <= i < |events| ==> longer[i] == events[i];
    forall i | from <= i < |longer|
      ensures longer[i].ToolStart? || (RefusedAt(longer, i) && i > from)
    {
      assert i < |events| && !events[i].ToolStart? ==> RefusedAt(events, i);
    }
  }

  lemma RefusalSnoc(events: seq<Event>, from: nat, n: nat, call: ToolCall, outcome: ToolOutcome)
    requires from <= |events| && Preparing(events, from, n) && outcome.isError
    ensures Preparing(events + [ToolStart(n, call)] + [ToolEnd(n, call, outcome)], from, n + 1)
  {
    PreparingSnoc(events, from, n, call);
    var started := events + [ToolStart(n, call)];
    var longer := started + [ToolEnd(n, call, outcome)];
    assert forall i :: 0 <= i < |started| ==> longer[i] == started[i];
    forall i | from <= i < |longer|
      ensures longer[i].ToolStart? || (RefusedAt(longer, i) && i > from)
    {
      assert i < |started| && !started[i].ToolStart? ==> RefusedAt(started, i);
    }
  }

  lemma PhasesInOrder(prepared: seq<Event>, run: seq<Event>, all: seq<Event>, from: nat, n: nat)
    requires from <= |prepared| && prepared <= run <= all
    requires Preparing(prepared, from, n) && OnlyRunning(run, |prepared|) && OnlyResults(all, |run|)
    ensures RunsInParallel(all, from)
  {
    assert forall i :: 0 <= i < |prepared| ==> all[i] == prepared[i];
    assert forall i :: 0 <= i < |run| ==> all[i] == run[i];
    forall i | from <= i < |prepared| && all[i].ToolEnd?
      ensures RefusedAt(all, i)
    {
      assert RefusedAt(prepared, i);
    }
  }

  /** First phase: the calls are started and prepared one by one, in source order; an abort ends the phase. */
  method PrepareAll(state: AgentState, tools: seq<AgentTool>, calls: seq<ToolCall>, hasHook: bool,
                    replies: seq<Reply>, signal: AbortSignal, ghost base: Base)
    returns (entries: seq<Entry>)
    requires During(state, base, map[], map[], []) && |replies| == |calls|
    modifies state, signal
    ensures old(signal.aborted) ==> signal.aborted
    ensures |entries| <= |calls| && (|calls| > 0 ==> |entries| > 0) && (|entries| < |calls| ==> signal.aborted)
    ensures Sound(entries) && During(state, base, RunningOf(calls, entries), EndedOf(calls, entries), [])
    ensures forall k :: 0 <= k < |entries| ==>
              RightlyPrepared(tools, calls[k], hasHook, replies[k], entries[k], signal.aborted)
    ensures old(state.events) <= state.events && Preparing(state.events, |old(state.events)|, |entries|)
  {
    hide During, Runnable, Preparing;
    entries := [];
    assert RunningOf(calls, []) == map[] && EndedOf(calls, []) == map[];
    NothingPrepared(state.events);
    while |entries| < |calls|
      invariant |entries| <= |calls| && (old(signal.aborted) ==> signal.aborted)
      invariant Sound(entries) && During(state, base, RunningOf(calls, entries), EndedOf(calls, entries), [])
      invariant forall k :: 0 <= k < |entries| ==>
                  RightlyPrepared(tools, calls[k], hasHook, replies[k], entries[k], signal.aborted)
      invariant old(state.events) <= state.events && Preparing(state.events, |old(state.events)|, |entries|)
    {
      var entry := PrepareOne(state, tools, calls, entries, hasHook, replies[|entries|], signal, base,
                              |old(state.events)|);
      entries := entries + [entry];
      signal.MayAbort();
      if signal.aborted {
        break;
      }
    }
  }

  lemma NothingPrepared(events: seq<Event>)
    ensures Preparing(events, |events|, 0)
  {
  }

  /** A call waits to be executed when nothing is against it, and has been refused otherwise. */
  predicate RightlyPrepared(tools: seq<AgentTool>, call: ToolCall, hasHook: bool, reply: Reply, entry: Entry,
                            aborted: bool)
  {
    if entry.outcome.None? then Runnable(tools, call, hasHook, reply)
    else
      && entry.outcome.value.isError && !entry.outcome.value.terminate
      && (Runnable(tools, call, hasHook, reply) ==> aborted && entry.outcome.value == ABORTED)
  }

  method PrepareOne(state: AgentState, tools: seq<AgentTool>, calls: seq<ToolCall>, entries: seq<Entry>,
                    hasHook: bool, reply: Reply, signal: AbortSignal, ghost base: Base, ghost from: nat)
    returns (entry: Entry)
    requires from <= |state.events| && Preparing(state.events, from, |entries|)
    requires |entries| < |calls|
    requires During(state, base, RunningOf(calls, entries), EndedOf(calls, entries), [])
    modifies state, signal
    ensures old(state.events) <= state.events && Preparing(state.events, from, |entries| + 1)
    ensures RightlyPrepared(tools, calls[|entries|], hasHook, reply, entry, signal.aborted)
    ensures old(signal.aborted) ==> signal.aborted
    ensures entry.accepting ==> entry.outcome.None?
    ensures During(state, base, RunningOf(calls, entries + [entry]), EndedOf(calls, entries + [entry]), [])
  {
    hide During, Runnable, Preparing;
    var k := |entries|;
    ghost var running, ended := RunningOf(calls, entries), EndedOf(calls, entries);
    PreparingSnoc(state.events, from, k, calls[k]);
    ghost var before := state.events;
    StartCall(state, k, calls[k], base, running, ended, []);
    var preparation := PrepareToolCall(tools, calls[k], hasHook, reply, signal);
    if preparation.Immediate? {
      RefusalSnoc(before, from, k, calls[k], preparation.outcome);
      EndCall(state, k, calls[k], preparation.outcome, base, running[k := calls[k]], ended, []);
      entry := Entry(false, 0, Some(preparation.outcome));
      assert running[k := calls[k]] - {k} == running;
    } else {
      entry := Entry(true, reply.updates, None);
    }
    EntryAdded(calls, entries, entry);
  }

  /** One step of the scheduler: some call reports progress, returns (or throws), or settles. */
  method RunOne(state: AgentState, calls: seq<ToolCall>, entries: seq<Entry>, k: nat, reply: Reply, signal: AbortSignal,
                ghost base: Base)
    returns (entries': seq<Entry>)
    requires k < |entries| <= |calls| && Effort(entries[k]) > 0
    requires Sound(entries) && During(state, base, RunningOf(calls, entries), EndedOf(calls, entries), [])
    modifies state, signal
    ensures old(signal.aborted) ==> signal.aborted
    ensures |entries'| == |entries| && Work(entries') < Work(entries)
    ensures forall j :: 0 <= j < |entries| && j != k ==> entries'[j] == entries[j]
    ensures entries[k].outcome.Some? ==> entries'[k].outcome == entries[k].outcome
    ensures entries'[k].outcome.Some? && entries[k].outcome.None? ==>
              entries'[k].outcome.value == FinalOutcome(reply)
    ensures old(state.events) <= state.events && OnlyRunning(state.events, |old(state.events)|)
    ensures Sound(entries') && During(state, base, RunningOf(calls, entries'), EndedOf(calls, entries'), [])
  {
    hide During, Work;
    var entry := entries[k];
    ghost var running, ended := RunningOf(calls, entries), EndedOf(calls, entries);
    var reports: bool := *;
    signal.MayAbort();
    if entry.attempts > 0 && (reports || entry.outcome.Some?) {
      OnUpdate(state, k, calls[k], entry.accepting, base, running, ended, []);
      entries' := entries[k := entry.(attempts := entry.attempts - 1)];
      EntryPending(calls, entries, k, entries'[k]);
    } else if entry.accepting {
      entries' := entries[k := entry.(accepting := false)];
      EntryPending(calls, entries, k, entries'[k]);
    } else {
      var outcome := match reply.execution
        case Returned(content, terminate) => ToolOutcome(content, false, terminate)
        case Threw(message) => ErrorOutcome(message);
      outcome := FinalizeExecuted(outcome, reply.revision);
      EndCall(state, k, calls[k], outcome, base, running, ended, []);
      entries' := entries[k := entry.(outcome := Some(outcome))];
      EntrySettled(calls, entries, k, entries'[k]);
    }
    LessWork(entries, k, entries'[k]);
  }

  /** Second phase: the prepared calls run concurrently, in any interleaving, until all have settled. */
  method RunAll(state: AgentState, calls: seq<ToolCall>, entries0: seq<Entry>, replies: seq<Reply>, signal: AbortSignal,
                ghost base: Base)
    returns (outcomes: seq<ToolOutcome>)
    requires |entries0| <= |calls| == |replies| && Sound(entries0)
    requires During(state, base, RunningOf(calls, entries0), EndedOf(calls, entries0), [])
    modifies state, signal
    ensures |outcomes| == |entries0| && forall k :: 0 <= k < |entries0| ==>
              outcomes[k] == if entries0[k].outcome.Some? then entries0[k].outcome.value else FinalOutcome(replies[k])
    ensures old(state.events) <= state.events && OnlyRunning(state.events, |old(state.events)|)
    ensures old(signal.aborted) ==> signal.aborted
    ensures |outcomes| == |entries0|
    ensures During(state, base, map[], Indexed(Results(calls, outcomes)), [])
  {
    hide During, Work, RunningOf, EndedOf, Indexed, Results, FinalOutcome;
    var entries := entries0;
    while exists k :: 0 <= k < |entries| && entries[k].outcome.None?
      invariant |entries| == |entries0| && (old(signal.aborted) ==> signal.aborted)
      invariant Sound(entries) && During(state, base, RunningOf(calls, entries), EndedOf(calls, entries), [])
      invariant forall k :: 0 <= k < |entries| && entries[k].outcome.Some? ==>
                  entries[k].outcome.value ==
                  if entries0[k].outcome.Some? then entries0[k].outcome.value else FinalOutcome(replies[k])
      invariant forall k ::
        0 <= k < |entries| && entries0[k].outcome.Some? ==> entries[k].outcome == entries0[k].outcome
      invariant old(state.events) <= state.events && OnlyRunning(state.events, |old(state.events)|)
      decreases Work(entries)
    {
      var k: nat :| k < |entries| && Effort(entries[k]) > 0;
      ghost var before := state.events;
      entries := RunOne(state, calls, entries, k, replies[k], signal, base);
      assert forall i :: 0 <= i < |before| ==> state.events[i] == before[i];
    }
    outcomes := seq(|entries|, k requires 0 <= k < |entries| => entries[k].outcome.value);
    AllSettled(calls, entries, outcomes);
  }

  /** Last phase: the result messages, in source order. */
  method EmitResults(state: AgentState, calls: seq<ToolCall>, outcomes: seq<ToolOutcome>, ghost base: Base)
    returns (results: seq<Message>)
    requires |outcomes| <= |calls| && During(state, base, map[], Indexed(Results(calls, outcomes)), [])
    modifies state
    ensures results == Results(calls, outcomes) && During(state, base, map[], Indexed(results), results)
    ensures old(state.events) <= state.events && OnlyResults(state.events, |old(state.events)|)
  {
    hide During, Indexed;
    results := [];
    ghost var all := Results(calls, outcomes);
    for k := 0 to |outcomes|
      invariant results == all[..k] && During(state, base, map[], Indexed(all), results)
      invariant old(state.events) <= state.events && OnlyResults(state.events, |old(state.events)|)
    {
      var message := ResultMessage(calls[k], outcomes[k]);
      EmitResult(state, message, base, Indexed(all), results);
      results := results + [message];
    }
  }

  /** `executeToolCallsParallel` */
  method ExecuteParallel(state: AgentState, tools: seq<AgentTool>, calls: seq<ToolCall>, hasHook: bool,
                         replies: seq<Reply>, signal: AbortSignal, ghost base: Base)
    returns (results: seq<Message>, terminate: bool, outcomes: seq<ToolOutcome>)
    requires During(state, base, map[], map[], []) && |replies| == |calls|
    modifies state, signal
    ensures old(state.events) <= state.events && RunsInParallel(state.events, |old(state.events)|)
    ensures AllAnswered(tools, calls, hasHook, replies, outcomes, signal.aborted)
    ensures old(signal.aborted) ==> signal.aborted
    ensures BatchRan(state, base, calls, outcomes, results, signal.aborted)
    ensures terminate == ShouldTerminate(outcomes)
  {
    hide During, RunningOf, EndedOf, Runnable, FinalOutcome, Preparing, OnlyRunning, OnlyResults, RunsInParallel;
    var entries := PrepareAll(state, tools, calls, hasHook, replies, signal, base);
    ghost var prepared := state.events;
    outcomes := RunAll(state, calls, entries, replies, signal, base);
    ghost var run := state.events;
    results := EmitResults(state, calls, outcomes, base);
    PhasesInOrder(prepared, run, state.events, |old(state.events)|, |entries|);
    terminate := ShouldTerminate(outcomes);
  }

  /** Some call is for a tool that must not run beside others; of several tools of one name the first counts. */
  predicate AsksForSequence(tools: seq<AgentTool>, calls: seq<ToolCall>) {
    exists c <- calls :: FindTool(tools, c.name).Some? && FindTool(tools, c.name).value.mode.Sequential?
  }

  /** In other words: a sequential tool that is called, no tool before it having its name. */
  lemma AsksForSequenceMeans(tools: seq<AgentTool>, calls: seq<ToolCall>)
    ensures AsksForSequence(tools, calls) <==>
            exists c <- calls, i :: 0 <= i < |tools| && FirstNamed(tools, c.name, i) && tools[i].mode.Sequential?
  {
    forall c | c in calls
      ensures FindTool(tools, c.name).Some? ==>
                exists i :: 0 <= i < |tools| && FirstNamed(tools, c.name, i)
                  && tools[i] == FindTool(tools, c.name).value
      ensures forall i :: 0 <= i < |tools| && FirstNamed(tools, c.name, i) ==> FindTool(tools, c.name) == Some(tools[i])
    {
      FirstIsFound(tools, c.name);
    }
  }

  predicate FirstNamed(tools: seq<AgentTool>, name: string, i: nat) {
    i < |tools| && tools[i].name == name && forall j :: 0 <= j < i ==> tools[j].name != name
  }

  lemma {:induction false} FirstIsFound(tools: seq<AgentTool>, name: string)
    ensures FindTool(tools, name).Some? ==>
              exists i :: 0 <= i < |tools| && FirstNamed(tools, name, i) && tools[i] == FindTool(tools, name).value
    ensures forall i :: 0 <= i < |tools| && FirstNamed(tools, name, i) ==> FindTool(tools, name) == Some(tools[i])
  {
    if tools != [] && tools[0].name != name {
      FirstIsFound(tools[1..], name);
      forall i | 0 <= i < |tools| && FirstNamed(tools, name, i)
        ensures FindTool(tools, name) == Some(tools[i])
      {
        assert FirstNamed(tools[1..], name, i - 1);
      }
      if FindTool(tools, name).Some? {
        var i :| 0 <= i < |tools[1..]| && FirstNamed(tools[1..], name, i)
          && tools[1..][i] == FindTool(tools[1..], name).value;
        assert FirstNamed(tools, name, i + 1);
      }
    } else if tools != [] {
      assert FirstNamed(tools, name, 0);
    }
  }

  /** `executeToolCalls`: calls run one after another exactly when the configuration or a tool asks for it. */
  method ExecuteToolCalls(state: AgentState, tools: seq<AgentTool>, calls: seq<ToolCall>, mode: ExecutionMode,
                          hasHook: bool, replies: seq<Reply>, signal: AbortSignal, ghost base: Base)
    returns (results: seq<Message>, terminate: bool, outcomes: seq<ToolOutcome>, ghost updates: seq<nat>)
    requires During(state, base, map[], map[], []) && |replies| == |calls|
    modifies state, signal
    ensures AllAnswered(tools, calls, hasHook, replies, outcomes, signal.aborted)
    ensures mode.Sequential? || AsksForSequence(tools, calls) ==>
              |updates| == |outcomes| && state.events == old(state.events) + SequentialEvents(calls, outcomes, updates)
    ensures !mode.Sequential? && !AsksForSequence(tools, calls) ==>
              old(state.events) <= state.events && RunsInParallel(state.events, |old(state.events)|)
    ensures old(signal.aborted) ==> signal.aborted
    ensures BatchRan(state, base, calls, outcomes, results, signal.aborted)
    ensures terminate == ShouldTerminate(outcomes)
    ensures mode.Sequential? || AsksForSequence(tools, calls) ==>
              (Overlaps(state.events) <==> Overlaps(old(state.events)))
  {
    hide BatchRan, During, ShouldTerminate, FindTool, Overlaps, AllAnswered, RunsInParallel, SequentialEvents;
    updates := [];
    if mode.Sequential? || AsksForSequence(tools, calls) {
      results, terminate, outcomes, updates :=
        ExecuteSequential(state, tools, calls, hasHook, replies, signal, base);
    } else {
      results, terminate, outcomes := ExecuteParallel(state, tools, calls, hasHook, replies, signal, base);
    }
  }
}
