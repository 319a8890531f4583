/** The loop of an agent run: streaming a response, running its tool calls, polling the queues. */
module AgentLoop {
  import opened Text
  import opened AgentTypes
  import opened AgentStates
  import opened MessageQueues
  import opened ToolBatches

  type AssistantMessage = m: Message | m.Assistant? witness Assistant("", [], Stop, None)

  /** The transcript the loop sends to the model, with the tools on offer. */
  class AgentContext {
    var messages: seq<Message>
    var tools: seq<AgentTool>

    constructor (messages: seq<Message>, tools: seq<AgentTool>)
      ensures this.messages == messages && this.tools == tools
    {
      this.messages, this.tools := messages, tools;
    }
  }

  /** What the application answers after turn i: whether to stop, and a context to go on with. */
  datatype Substitute = Substitute(messages: seq<Message>, tools: seq<AgentTool>)
  datatype Hooks = Hooks(shouldStop: nat -> bool, nextContext: nat -> Option<Substitute>)

  /** What a response stream delivers; `Finished` stands for its `done` and `error` events. */
  datatype StreamEvent = Started(partial: AssistantMessage) | Delta(partial: AssistantMessage) | Finished

  /** The starts the loop sees: it stops reading at the first final event. */
  function Starts(stream: seq<StreamEvent>): nat {
    if stream == [] || stream[0].Finished? then 0
    else (if stream[0].Started? then 1 else 0) + Starts(stream[1..])
  }

  /** What is reported of a stream and of the final message it leads to. */
  function Reports(stream: seq<StreamEvent>, started: bool, final: AssistantMessage): seq<Event> {
    if stream == [] || stream[0].Finished? then
      (if started then [] else [MessageStart(final)]) + [MessageEnd(final)]
    else
      ReportsOf(stream[0], started) + Reports(stream[1..], started || stream[0].Started?, final)
  }

  function ReportsOf(e: StreamEvent, started: bool): seq<Event> {
    match e
    case Started(partial) => [MessageStart(partial)]
    case Delta(partial) => if started then [MessageUpdate(partial)] else []
    case Finished => []
  }

  /** The state after `starts` partial messages, the last of which is `partial`. */
  ghost predicate Streaming(state: AgentState, base: Base, context: AgentContext, before: seq<Message>, starts: nat,
                            partial: Option<Message>)
    reads state, context
  {
    && state.Valid()
    && base.events <= state.events
    && BaseOf(state).(events := base.events) == base
    && state.Phase() == (if starts > 1 then Broken else Turn(partial, map[], map[]))
    && partial.Some? == (starts > 0) && (partial.Some? ==> partial.value.Assistant?)
    && |context.messages| == |before| + starts && before <= context.messages
  }

  method StartMessage(state: AgentState, m: AssistantMessage, context: AgentContext, ghost partial: Option<Message>,
                      ghost base: Base, ghost before: seq<Message>, ghost starts: nat)
    requires Streaming(state, base, context, before, starts, partial)
    modifies state, context`messages
    ensures Streaming(state, base, context, before, starts + 1, Some(m))
    ensures context.messages == old(context.messages) + [m]
    ensures state.events == old(state.events) + [MessageStart(m)]
  {
    hide state.Valid, state.Phase, state.Ends, state.Delivered, PendingNext;
    context.messages := context.messages + [m];
    state.Emit(MessageStart(m), Model);
  }

  /** One streamed event that is not final. */
  method OnStreamEvent(state: AgentState, e: StreamEvent, context: AgentContext, partial: Option<Message>,
                       ghost base: Base, ghost before: seq<Message>, ghost starts: nat)
    returns (partial': Option<Message>)
    requires !e.Finished? && Streaming(state, base, context, before, starts, partial)
    modifies state, context`messages
    ensures Streaming(state, base, context, before, starts + (if e.Started? then 1 else 0), partial')
    ensures state.events == old(state.events) + ReportsOf(e, partial.Some?)
    ensures partial'.Some? == (partial.Some? || e.Started?)
  {
    hide state.Valid, state.Phase, state.Ends, state.Delivered, PendingNext;
    partial' := partial;
    if e.Started? {
      partial' := Some(e.partial);
      StartMessage(state, e.partial, context, partial, base, before, starts);
    } else if partial.Some? {
      partial' := Some(e.partial);
      context.messages := context.messages[|context.messages| - 1 := e.partial];
      state.Emit(MessageUpdate(e.partial), Model);
    }
  }

  /** `streamAssistantResponse`: whatever the stream, exactly one message is completed, `final`. The context
      gains exactly that message, and the trace stays well formed, just when the stream starts at most once. */
  method StreamAssistantResponse(state: AgentState, context: AgentContext, stream: seq<StreamEvent>,
                                 final: AssistantMessage)
    requires state.Valid() && state.Phase() == Turn(None, map[], map[])
    modifies state, context`messages
    ensures state.Valid() && state.events == old(state.events) + Reports(stream, false, final)
    ensures state.Phase() == (if Starts(stream) <= 1 then Turn(None, map[], map[]) else Broken)
    ensures state.Ends() == old(state.Ends()) + [final]
    ensures BaseOf(state).(events := [], ends := []) == old(BaseOf(state)).(events := [], ends := [])
    ensures context.messages == old(context.messages) + [final] <==> Starts(stream) <= 1
    ensures old(context.messages) < context.messages && context.messages[|context.messages| - 1] == final
  {
    hide Streaming, ReportsOf;
    ghost var base, before := BaseOf(state), context.messages;
    StreamBegins(state, context);
    ghost var starts := 0;
    var partial: Option<Message> := None;
    var i := 0;
    while i < |stream| && !stream[i].Finished?
      invariant i <= |stream| && Starts(stream) == starts + Starts(stream[i..])
      invariant Streaming(state, base, context, before, starts, partial)
      invariant state.events + Reports(stream[i..], partial.Some?, final) == base.events + Reports(stream, false, final)
    {
      ReportsStep(state.events, stream[i..], partial.Some?, final);
      assert stream[i..][1..] == stream[i + 1..];
      partial := OnStreamEvent(state, stream[i], context, partial, base, before, starts);
      starts := starts + (if stream[i].Started? then 1 else 0);
      i := i + 1;
    }
    FinishResponse(state, context, partial, final, base, before, starts);
  }

  lemma LastReports(final: AssistantMessage)
    ensures Reports([], true, final) == [MessageEnd(final)]
    ensures Reports([], false, final) == [MessageStart(final)] + [MessageEnd(final)]
  {
  }

  lemma StreamBegins(state: AgentState, context: AgentContext)
    requires state.Valid() && state.Phase() == Turn(None, map[], map[])
    ensures Streaming(state, BaseOf(state), context, context.messages, 0, None)
  {
  }

  lemma ReportsStep(events: seq<Event>, stream: seq<StreamEvent>, started: bool, final: AssistantMessage)
    requires stream != [] && !stream[0].Finished?
    ensures events + Reports(stream, started, final) ==
            (events + ReportsOf(stream[0], started)) + Reports(stream[1..], started || stream[0].Started?, final)
  {
  }

  method FinishResponse(state: AgentState, context: AgentContext, partial: Option<Message>, final: AssistantMessage,
                        ghost base: Base, ghost before: seq<Message>, ghost starts: nat)
    requires Streaming(state, base, context, before, starts, partial)
    modifies state, context`messages
    ensures state.Valid() && state.events == old(state.events) + Reports([], partial.Some?, final)
    ensures state.Phase() == (if starts <= 1 then Turn(None, map[], map[]) else Broken)
    ensures BaseOf(state).(events := base.events) == base.(ends := base.ends + [final])
    ensures context.messages == before + [final] <==> starts <= 1
    ensures before < context.messages && context.messages[|context.messages| - 1] == final
  {
    hide state.Valid, state.Phase, state.Ends, state.Delivered, PendingNext, Busy, Reports;
    LastReports(final);
    if partial.Some? {
      context.messages := context.messages[|context.messages| - 1 := final];
    } else {
      StartMessage(state, final, context, partial, base, before, starts);
    }
    state.Emit(MessageEnd(final), Model);
  }

  /** Nothing reported since `from` ends a turn or the run. */
  predicate NoEndSince(events: seq<Event>, from: nat) {
    forall i :: from <= i < |events| ==> !events[i].TurnEnd? && !events[i].AgentEnd?
  }

  lemma NoEndLater(events: seq<Event>, more: seq<Event>, from: nat)
    requires from <= |events| && NoEndSince(events, from)
    requires forall e <- more :: !e.TurnEnd? && !e.AgentEnd?
    ensures NoEndSince(events + more, from)
  {
    forall i | from <= i < |events + more|
      ensures !(events + more)[i].TurnEnd? && !(events + more)[i].AgentEnd?
    {
      assert i >= |events| ==> (events + more)[i] == more[i - |events|] && more[i - |events|] in more;
    }
  }

  lemma {:induction false} ReportsAreMessages(stream: seq<StreamEvent>, started: bool, final: AssistantMessage)
    ensures forall e <- Reports(stream, started, final) :: e.MessageStart? || e.MessageUpdate? || e.MessageEnd?
    decreases |stream|
  {
    if stream != [] && !stream[0].Finished? {
      ReportsAreMessages(stream[1..], started || stream[0].Started?, final);
    }
  }

  /** A complete message: a prompt, or one taken from a queue. */
  method EmitMessage(state: AgentState, m: Message, ghost origin: Origin)
    requires state.Valid() && Ready(state.Phase())
    modifies state
    ensures state.Valid() && state.Phase() == old(state.Phase())
    ensures state.events == old(state.events) + [MessageStart(m), MessageEnd(m)]
    ensures state.initial == old(state.initial) && state.isStreaming == old(state.isStreaming)
    ensures state.Ends() == old(state.Ends()) + [m]
    ensures forall o :: state.Delivered(o) == old(state.Delivered(o)) + When(origin == o, [m])
  {
    state.Emit(MessageStart(m), origin);
    state.Emit(MessageEnd(m), origin);
  }

  predicate Ready(p: Phase) {
    p.Turn? && p.open.None? && p.running == map[]
  }

  function When(b: bool, ms: seq<Message>): seq<Message> {
    if b then ms else []
  }

  /** What the loop keeps between its steps. `held` are messages drained from the queue `origin` and not
      yet put into the transcript; `replaced` says that a callback has substituted the context. */
  ghost predicate Going(state: AgentState, context: AgentContext, queues: LoopQueues, phase: Phase,
                        newMessages: seq<Message>, history: seq<Message>, held: seq<Message>, origin: Origin,
                        replaced: bool)
    reads state, context, queues, queues.steering, queues.followUps
  {
    && state.Valid() && queues.Valid()
    && state.Phase() == phase
    && state.initial == history
    && state.isStreaming
    && state.Ends() == newMessages
    && (!replaced ==> context.messages == history + newMessages)
    && queues.steering.drained == state.Delivered(Steering) + When(origin == Steering, held)
    && queues.followUps.drained == state.Delivered(FollowUp) + When(origin == FollowUp, held)
  }

  const OPEN_TURN := Turn(None, map[], map[])

  method BeginTurn(state: AgentState, context: AgentContext, queues: LoopQueues, ghost newMessages: seq<Message>,
                   ghost history: seq<Message>, ghost held: seq<Message>, ghost origin: Origin, ghost replaced: bool)
    requires Going(state, context, queues, Between, newMessages, history, held, origin, replaced)
    modifies state
    ensures Going(state, context, queues, OPEN_TURN, newMessages, history, held, origin, replaced)
    ensures state.events == old(state.events) + [TurnStart]
  {
    state.Emit(TurnStart, Model);
  }

  /** The held messages enter the transcript, in order. */
  method InjectHeld(state: AgentState, context: AgentContext, queues: LoopQueues, newMessages0: seq<Message>,
                    held: seq<Message>, ghost history: seq<Message>, ghost origin: Origin, ghost replaced: bool)
    returns (newMessages: seq<Message>)
    requires Going(state, context, queues, OPEN_TURN, newMessages0, history, held, origin, replaced)
    modifies state, context`messages
    ensures newMessages == newMessages0 + held
    ensures Going(state, context, queues, OPEN_TURN, newMessages, history, [], origin, replaced)
    ensures state.events == old(state.events) + Injected(held)
  {
    hide Going, Injected;
    newMessages := newMessages0;
    NothingInjected();
    for k := 0 to |held|
      invariant state.events == old(state.events) + Injected(held[..k])
      invariant newMessages == newMessages0 + held[..k]
      invariant Going(state, context, queues, OPEN_TURN, newMessages, history, held[k..], origin, replaced)
    {
      InjectedSnoc(held[..k], held[k]);
      assert held[..k + 1] == held[..k] + [held[k]];
      newMessages := InjectOne(state, context, queues, newMessages, held[k..], history, origin, replaced);
      assert held[k..][1..] == held[k + 1..];
    }
    assert held[..|held|] == held;
  }

  /** What is reported of messages put into the transcript. */
  function Injected(held: seq<Message>): seq<Event> {
    if held == [] then []
    else
      var last := held[|held| - 1];
      Injected(held[..|held| - 1]) + [MessageStart(last), MessageEnd(last)]
  }

  lemma NothingInjected()
    ensures Injected([]) == []
  {
  }

  lemma InjectedSnoc(held: seq<Message>, m: Message)
    ensures Injected(held + [m]) == Injected(held) + [MessageStart(m), MessageEnd(m)]
  {
    assert (held + [m])[..|held|] == held;
  }

  lemma {:induction false} InjectedAreMessages(held: seq<Message>)
    ensures forall e <- Injected(held) :: e.MessageStart? || e.MessageEnd?
  {
    if held != [] {
      InjectedAreMessages(held[..|held| - 1]);
    }
  }

  method InjectOne(state: AgentState, context: AgentContext, queues: LoopQueues, newMessages0: seq<Message>,
                   held: seq<Message>, ghost history: seq<Message>, ghost origin: Origin, ghost replaced: bool)
    returns (newMessages: seq<Message>)
    requires |held| > 0
    requires Going(state, context, queues, OPEN_TURN, newMessages0, history, held, origin, replaced)
    modifies state, context`messages
    ensures newMessages == newMessages0 + [held[0]]
    ensures Going(state, context, queues, OPEN_TURN, newMessages, history, held[1..], origin, replaced)
    ensures state.events == old(state.events) + [MessageStart(held[0]), MessageEnd(held[0])]
  {
    hide Step, Ready, When, state.Valid, state.Phase, state.Ends, state.Delivered, queues.Valid;
    var message := held[0];
    EmitMessage(state, message, origin);
    context.messages := context.messages + [message];
    newMessages := newMessages0 + [message];
    assert history + newMessages0 + [message] == history + newMessages;
    HeldStep(old(state.Delivered(Steering)), held, origin == Steering);
    HeldStep(old(state.Delivered(FollowUp)), held, origin == FollowUp);
  }

  lemma HeldStep(delivered: seq<Message>, held: seq<Message>, here: bool)
    requires |held| > 0
    ensures delivered + When(here, held) == (delivered + When(here, [held[0]])) + When(here, held[1..])
  {
    assert held == [held[0]] + held[1..];
  }

  /** What the environment chooses for one response: a stream that starts at most once, and a final message. */
  method AnyResponse() returns (stream: seq<StreamEvent>, final: AssistantMessage)
    ensures Starts(stream) <= 1
  {
    stream, final := *, *;
    if Starts(stream) > 1 {
      stream := [];
    }
  }

  predicate Failed(message: Message) {
    message.Assistant? && (message.stopReason.Error? || message.stopReason.Aborted?)
  }

  /** `result` is the result message of `call`. */
  predicate Answers(result: Message, call: ToolCall) {
    result.ToolResult? && result == ResultMessage(call, result.outcome)
  }

  /** What one turn reports, from its response on. */
  predicate TurnReport(message: AssistantMessage, results: seq<Message>, continuing: bool, aborted: bool) {
    && (Failed(message) || message.calls == [] ==> results == [] && !continuing)
    && |results| <= |message.calls|
    && (!Failed(message) && |results| < |message.calls| ==> aborted && message.stopReason != Length)
    && (forall k :: 0 <= k < |results| ==> Answers(results[k], message.calls[k]))
    && (!Failed(message) && message.stopReason == Length ==>
          forall k :: 0 <= k < |results| ==> results[k].outcome == TruncatedOutcome(message.calls[k]))
    && (!Failed(message) && message.calls != [] ==>
          continuing == exists k :: 0 <= k < |results| && !results[k].outcome.terminate)
  }

  /** Whatever the tools, the validation and the hooks answer to each call. */
  method AnyReplies(n: nat) returns (replies: seq<Reply>)
    ensures |replies| == n
  {
    replies := [];
    for k := 0 to n
      invariant |replies| == k
    {
      var reply: Reply := *;
      replies := replies + [reply];
    }
  }

  /** A length stop means the arguments may be cut off: then no call is executed. */
  method RunBatch(state: AgentState, tools: seq<AgentTool>, mode: ExecutionMode, hasHook: bool, signal: AbortSignal,
                  message: AssistantMessage, ghost base: Base)
    returns (results: seq<Message>, continuing: bool)
    requires !Failed(message) && message.calls != []
    requires During(state, base, map[], map[], [])
    modifies state, signal
    ensures TurnReport(message, results, continuing, signal.aborted)
    ensures During(state, base, map[], Indexed(results), results)
  {
    hide During, TurnReport, Indexed, Results, TruncatedOutcome, ShouldTerminate, SequentialEvents, RunsInParallel,
         AllAnswered;
    var terminate;
    ghost var outcomes;
    if message.stopReason == Length {
      results, terminate, outcomes := FailTruncated(state, message.calls, base);
    } else {
      var replies := AnyReplies(|message.calls|);
      ghost var updates;
      results, terminate, outcomes, updates :=
        ExecuteToolCalls(state, tools, message.calls, mode, hasHook, replies, signal, base);
    }
    continuing := !terminate;
    Reported(message, outcomes, results, terminate, signal.aborted);
  }

  lemma Reported(message: AssistantMessage, outcomes: seq<ToolOutcome>, results: seq<Message>, terminate: bool,
                 aborted: bool)
    requires !Failed(message) && message.calls != []
    requires 0 < |outcomes| <= |message.calls| && results == Results(message.calls, outcomes)
    requires |outcomes| < |message.calls| ==> aborted && message.stopReason != Length
    requires message.stopReason == Length ==>
               !terminate && forall k :: 0 <= k < |message.calls| ==> outcomes[k] == TruncatedOutcome(message.calls[k])
    requires message.stopReason != Length ==> terminate == ShouldTerminate(outcomes)
    ensures TurnReport(message, results, !terminate, aborted)
  {
    hide TruncatedOutcome;
    assert forall k :: 0 <= k < |results| ==> results[k] == ResultMessage(message.calls[k], outcomes[k]);
    if message.stopReason == Length {
      assert !TruncatedOutcome(message.calls[0]).terminate by {
        TruncatedContinues(message.calls[0]);
      }
      assert !results[0].outcome.terminate;
    } else if !terminate {
      var o :| o in outcomes && !o.terminate;
      var k :| 0 <= k < |outcomes| && outcomes[k] == o;
      assert !results[k].outcome.terminate;
    }
  }

  lemma TruncatedContinues(call: ToolCall)
    ensures TruncatedOutcome(call).isError && !TruncatedOutcome(call).terminate
  {
  }

  /** The tool calls of a response: their results enter the transcript in source order. */
  method RunTools(state: AgentState, context: AgentContext, queues: LoopQueues, mode: ExecutionMode, hasHook: bool,
                  signal: AbortSignal, message: AssistantMessage, ghost newMessages: seq<Message>,
                  ghost history: seq<Message>, ghost origin: Origin, ghost replaced: bool)
    returns (results: seq<Message>, continuing: bool)
    requires !Failed(message)
    requires Going(state, context, queues, OPEN_TURN, newMessages, history, [], origin, replaced)
    modifies state, signal, context`messages
    ensures TurnReport(message, results, continuing, signal.aborted)
    ensures Going(state, context, queues, Turn(None, map[], Indexed(results)), newMessages + results, history, [],
                  origin, replaced)
    ensures old(state.events) <= state.events && NoEndSince(state.events, |old(state.events)|)
  {
    hide During, TurnReport, Indexed, state.Valid, state.Phase, state.Ends, state.Delivered, queues.Valid;
    NothingEnded();
    if message.calls == [] {
      assert newMessages + [] == newMessages;
      results, continuing := [], false;
      NoCalls(message, signal.aborted);
      return;
    }
    ghost var base := BaseOf(state);
    BatchBegins(state);
    results, continuing := RunBatch(state, context.tools, mode, hasHook, signal, message, base);
    GoingOn(state, context, queues, newMessages, results, history, origin, replaced, base);
    context.messages := context.messages + results;
    assert history + newMessages + results == history + (newMessages + results);
  }

  lemma NoCalls(message: AssistantMessage, aborted: bool)
    requires Failed(message) || message.calls == []
    ensures TurnReport(message, [], false, aborted)
  {
  }

  lemma BatchBegins(state: AgentState)
    requires state.Valid() && state.Phase() == OPEN_TURN
    ensures During(state, BaseOf(state), map[], map[], [])
  {
    assert state.Ends() + [] == state.Ends();
  }

  lemma GoingOn(state: AgentState, context: AgentContext, queues: LoopQueues, newMessages: seq<Message>,
                results: seq<Message>, history: seq<Message>, origin: Origin, replaced: bool, base: Base)
    requires During(state, base, map[], Indexed(results), results)
    requires base.initial == history && base.isStreaming && base.ends == newMessages
    requires queues.Valid()
    requires queues.steering.drained == base.steering + When(origin == Steering, [])
    requires queues.followUps.drained == base.followUps + When(origin == FollowUp, [])
    ensures Going(state, context, queues, Turn(None, map[], Indexed(results)), newMessages + results, history, [],
                  origin, true)
    ensures base.events <= state.events && NoEndSince(state.events, |base.events|)
  {
  }

  /** The response enters the transcript. */
  method Respond(state: AgentState, context: AgentContext, queues: LoopQueues, signal: AbortSignal,
                 ghost newMessages: seq<Message>, ghost history: seq<Message>, ghost origin: Origin,
                 ghost replaced: bool)
    returns (message: AssistantMessage)
    requires Going(state, context, queues, OPEN_TURN, newMessages, history, [], origin, replaced)
    modifies state, signal, context`messages
    ensures old(signal.aborted) ==> signal.aborted
    ensures Going(state, context, queues, OPEN_TURN, newMessages + [message], history, [], origin, replaced)
    ensures old(state.events) <= state.events && NoEndSince(state.events, |old(state.events)|)
  {
    hide Starts, Reports;
    signal.MayAbort();
    var stream, final := AnyResponse();
    ReportsAreMessages(stream, false, final);
    NoEndLater(state.events, Reports(stream, false, final), |state.events|);
    StreamAssistantResponse(state, context, stream, final);
    message := final;
    assert history + newMessages + [message] == history + (newMessages + [message]);
  }

  method EndTurn(state: AgentState, context: AgentContext, queues: LoopQueues, message: AssistantMessage,
                 results: seq<Message>, ghost newMessages: seq<Message>, ghost history: seq<Message>,
                 ghost origin: Origin, ghost replaced: bool)
    requires Going(state, context, queues, Turn(None, map[], Indexed(results)), newMessages, history, [], origin,
                   replaced)
    modifies state
    ensures Going(state, context, queues, Between, newMessages, history, [], origin, replaced)
    ensures state.events == old(state.events) + [TurnEnd(message, results)]
  {
    hide Indexed;
    state.Emit(TurnEnd(message, results), Model);
  }

  method EndRun(state: AgentState, context: AgentContext, queues: LoopQueues, newMessages: seq<Message>,
                ghost history: seq<Message>, ghost origin: Origin, ghost replaced: bool)
    requires Going(state, context, queues, Between, newMessages, history, [], origin, replaced)
    modifies state
    ensures Going(state, context, queues, Done, newMessages, history, [], origin, replaced)
    ensures state.events == old(state.events) + [AgentEnd(newMessages)]
  {
    state.Emit(AgentEnd(newMessages), Model);
  }

  /** One turn from its response on: stream, branch on the stop reason, run the calls, end the turn. */
  method RunTurn(state: AgentState, context: AgentContext, queues: LoopQueues, mode: ExecutionMode, hasHook: bool,
                 signal: AbortSignal, newMessages0: seq<Message>, ghost history: seq<Message>, ghost origin: Origin,
                 ghost replaced: bool)
    returns (message: AssistantMessage, results: seq<Message>, newMessages: seq<Message>, continuing: bool)
    requires Going(state, context, queues, OPEN_TURN, newMessages0, history, [], origin, replaced)
    modifies state, signal, context`messages
    ensures TurnReport(message, results, continuing, signal.aborted)
    ensures newMessages == newMessages0 + [message] + results
    ensures Going(state, context, queues, Between, newMessages, history, [], origin, replaced)
    ensures |state.events| > |old(state.events)| && old(state.events) <= state.events
    ensures state.events[|state.events| - 1] == TurnEnd(message, results)
    ensures NoEndSince(state.events[..|state.events| - 1], |old(state.events)|)
  {
    hide Going, TurnReport, Indexed, Failed;
    message := Respond(state, context, queues, signal, newMessages0, history, origin, replaced);
    newMessages := newMessages0 + [message];
    results, continuing := [], false;
    if Failed(message) {
      NoCalls(message, signal.aborted);
      NothingEnded();
      EndTurn(state, context, queues, message, [], newMessages, history, origin, replaced);
    } else {
      results, continuing :=
        RunTools(state, context, queues, mode, hasHook, signal, message, newMessages, history, origin, replaced);
      newMessages := newMessages + results;
      EndTurn(state, context, queues, message, results, newMessages, history, origin, replaced);
    }
  }

  lemma NothingEnded()
    ensures Indexed([]) == map[]
  {
  }

  // ----- the loop -----

  /** How a run is left: still running when the observation ends, after a failed response, at the user's
      wish, or with nothing left to do. */
  datatype Exit = Running | AfterFailure | Stopped | Idle

  /** A turn is to be taken now. */
  predicate TurnDue(polls: seq<Poll>) {
    polls == [] || CallsForTurn(polls, |polls| - 1)
  }

  /** All turns reported since `from` have ended well. */
  predicate AllWell(events: seq<Event>, from: nat) {
    forall i :: from <= i < |events| && events[i].TurnEnd? && events[i].message.Assistant? ==>
                  events[i].message.stopReason != Error && events[i].message.stopReason != Aborted
  }

  /** The last turn failed: it ran no calls, and nothing but the end of the run follows. */
  predicate FailedLast(events: seq<Event>, from: nat) {
    |events| >= from + 2 &&
    var before, turn := events[..|events| - 2], events[|events| - 2];
    && AllWell(before, from)
    && turn.TurnEnd? && turn.results == [] && events[|events| - 1].AgentEnd?
    && turn.message.Assistant? && (turn.message.stopReason == Error || turn.message.stopReason == Aborted)
  }

  lemma StillWell(events: seq<Event>, later: seq<Event>, from: nat)
    requires from <= |events| && events <= later
    ensures AllWell(events, from) && AllWell(later, |events|) ==> AllWell(later, from)
    ensures AllWell(events, from) && FailedLast(later, |events|) ==> FailedLast(later, from)
  {
    if AllWell(events, from) && FailedLast(later, |events|) {
      var before := later[..|later| - 2];
      assert forall i :: from <= i < |events| ==> before[i] == events[i];
    }
  }

  /** A poll of the steering queue between turns. */
  method PollSteering(state: AgentState, context: AgentContext, queues: LoopQueues, ghost phase: Phase,
                      ghost newMessages: seq<Message>, ghost history: seq<Message>, ghost origin: Origin,
                      ghost replaced: bool, ghost skip: bool)
    returns (held: seq<Message>)
    requires Going(state, context, queues, phase, newMessages, history, [], origin, replaced)
    requires Scheduled(queues.polls, skip)
    requires queues.skipInitialSteeringPoll ==> queues.polls == [] && skip
    requires !queues.skipInitialSteeringPoll ==>
               if queues.polls == [] then !skip else queues.polls[|queues.polls| - 1].TurnDone?
    modifies queues, queues.steering, queues.followUps
    ensures Going(state, context, queues, phase, newMessages, history, held, Steering, replaced)
    ensures Scheduled(queues.polls, skip) && !queues.skipInitialSteeringPoll
    ensures TurnsDone(queues.polls) == old(TurnsDone(queues.polls))
    ensures old(queues.skipInitialSteeringPoll) ==> held == [] && queues.polls == old(queues.polls)
    ensures !old(queues.skipInitialSteeringPoll) ==>
              queues.polls == old(queues.polls) + [PolledSteering(held, held + queues.steering.messages)]
    ensures old(queues.steering.messages) <= held + queues.steering.messages
  {
    hide state.Valid, state.Phase, state.Ends, state.Delivered, Scheduled, Follows, TakesOldest, TurnsDone;
    held := queues.GetSteeringMessages();
    assert old(queues.polls) + [] == old(queues.polls);
    if !old(queues.skipInitialSteeringPoll) {
      SteeringFollows(old(queues.polls), PolledSteering(held, held + queues.steering.messages), skip);
    }
  }

  lemma SteeringFollows(polls: seq<Poll>, p: Poll, skip: bool)
    requires Scheduled(polls, skip) && TakesOldest(p) && p.PolledSteering?
    requires if polls == [] then !skip else polls[|polls| - 1].TurnDone?
    ensures Scheduled(polls + [p], skip) && TurnsDone(polls + [p]) == TurnsDone(polls)
  {
    ScheduleSnoc(polls, p, skip);
  }

  lemma FollowUpsFollow(polls: seq<Poll>, p: Poll, skip: bool)
    requires Scheduled(polls, skip) && TakesOldest(p) && p.PolledFollowUps?
    requires !TurnDue(polls) && polls[|polls| - 1].PolledSteering?
    ensures Scheduled(polls + [p], skip) && TurnsDone(polls + [p]) == TurnsDone(polls)
    ensures TurnDue(polls + [p]) <==> p.got != []
  {
    assert CallsForTurn(polls + [p], |polls| - 1) == CallsForTurn(polls, |polls| - 1);
    ScheduleSnoc(polls, p, skip);
  }

  lemma TurnFollows(polls: seq<Poll>, continuing: bool, skip: bool)
    requires Scheduled(polls, skip) && TurnDue(polls) && (polls == [] ==> skip)
    ensures var longer := polls + [TurnDone(continuing)];
      Scheduled(longer, skip) && TurnsDone(longer) == TurnsDone(polls) + 1
  {
    var p := TurnDone(continuing);
    if polls != [] {
      assert CallsForTurn(polls + [p], |polls| - 1) == CallsForTurn(polls, |polls| - 1);
    }
    ScheduleSnoc(polls, p, skip);
  }

  /** After a turn and the poll behind it another turn is due when calls continue or messages have come. */
  lemma DueAfter(polls: seq<Poll>, continuing: bool, held: seq<Message>, queued: seq<Message>)
    ensures TurnDue(polls + [TurnDone(continuing)] + [PolledSteering(held, queued)]) <==> continuing || held != []
  {
    var longer := polls + [TurnDone(continuing)] + [PolledSteering(held, queued)];
    assert longer[|polls|] == TurnDone(continuing);
  }

  /** A poll of the follow-up queue, when the run would otherwise stop. */
  method PollFollowUps(state: AgentState, context: AgentContext, queues: LoopQueues, ghost phase: Phase,
                       ghost newMessages: seq<Message>, ghost history: seq<Message>, ghost origin: Origin,
                       ghost replaced: bool, ghost skip: bool)
    returns (held: seq<Message>)
    requires Going(state, context, queues, phase, newMessages, history, [], origin, replaced)
    requires Scheduled(queues.polls, skip) && !TurnDue(queues.polls)
    requires queues.polls[|queues.polls| - 1].PolledSteering?
    modifies queues, queues.steering, queues.followUps
    ensures Going(state, context, queues, phase, newMessages, history, held, FollowUp, replaced)
    ensures Scheduled(queues.polls, skip) && queues.skipInitialSteeringPoll == old(queues.skipInitialSteeringPoll)
    ensures queues.polls == old(queues.polls) + [PolledFollowUps(held, held + queues.followUps.messages)]
    ensures TurnsDone(queues.polls) == old(TurnsDone(queues.polls))
    ensures TurnDue(queues.polls) <==> held != []
    ensures held == [] ==> queues.followUps.messages == []
  {
    hide state.Valid, state.Phase, state.Ends, state.Delivered, Scheduled, TurnDue, TurnsDone;
    held := queues.GetFollowUpMessages();
    FollowUpsFollow(old(queues.polls), PolledFollowUps(held, held + queues.followUps.messages), skip);
  }

  /** `prepareNextTurn` may put another context in place. */
  method PrepareNextTurn(context0: AgentContext, answer: Option<Substitute>, ghost replaced0: bool)
    returns (context: AgentContext, ghost replaced: bool)
    ensures replaced == (replaced0 || answer.Some?)
    ensures answer.None? ==> context == context0
    ensures answer.Some? ==>
              fresh(context) && context.messages == answer.value.messages && context.tools == answer.value.tools
  {
    context, replaced := context0, replaced0;
    if answer.Some? {
      context := new AgentContext(answer.value.messages, answer.value.tools);
      replaced := true;
    }
  }

  lemma GoingWith(state: AgentState, context0: AgentContext, context: AgentContext, queues: LoopQueues, phase: Phase,
                  newMessages: seq<Message>, history: seq<Message>, held: seq<Message>, origin: Origin,
                  replaced0: bool, replaced: bool)
    requires Going(state, context0, queues, phase, newMessages, history, held, origin, replaced0)
    requires !replaced ==> context == context0 && !replaced0
    ensures Going(state, context, queues, phase, newMessages, history, held, origin, replaced)
  {
  }

  /** One pass of the inner loop, up to the decision whether to stop. */
  method Iterate(state: AgentState, context0: AgentContext, queues: LoopQueues, mode: ExecutionMode, hasHook: bool,
                 hooks: Hooks, turn: nat, signal: AbortSignal, first: bool, newMessages0: seq<Message>,
                 held: seq<Message>, ghost history: seq<Message>, ghost origin: Origin, ghost replaced0: bool,
                 ghost skip: bool)
    returns (context: AgentContext, newMessages: seq<Message>, continuing: bool, exit: Exit, ghost replaced: bool)
    requires Going(state, context0, queues, if first then OPEN_TURN else Between, newMessages0, history, held, origin,
                   replaced0)
    requires Scheduled(queues.polls, skip) && TurnDue(queues.polls) && (queues.polls == [] ==> skip)
    modifies state, signal, context0`messages, queues`polls
    ensures context == context0 || fresh(context)
    ensures exit.Running? || exit.AfterFailure? || exit.Stopped?
    ensures Going(state, context, queues, if exit.Running? then Between else Done, newMessages, history, [], origin,
                  replaced)
    ensures Scheduled(queues.polls, skip) && TurnsDone(queues.polls) == old(TurnsDone(queues.polls)) + 1
    ensures queues.polls == old(queues.polls) + [TurnDone(continuing)]
    ensures newMessages0 + held < newMessages && old(state.events) < state.events
    ensures !exit.Running? ==> state.events[|state.events| - 1] == AgentEnd(newMessages)
    ensures if exit.AfterFailure? then FailedLast(state.events, |old(state.events)|)
            else AllWell(state.events, |old(state.events)|)
    ensures !exit.AfterFailure? ==> (exit.Stopped? <==> hooks.shouldStop(turn))
    ensures replaced == (replaced0 || (!exit.AfterFailure? && hooks.nextContext(turn).Some?))
    ensures var opening := (if first then [] else [TurnStart]) + Injected(held);
      old(state.events) + opening <= state.events
  {
    hide Going, TurnReport, Scheduled, TurnDue, TurnsDone, Injected, NoEndSince, AllWell, FailedLast;
    var message, results;
    message, results, newMessages, continuing :=
      TakeTurn(state, context0, queues, mode, hasHook, signal, first, newMessages0, held, history, origin, replaced0);
    TurnNoted(state, context0, queues, continuing, newMessages, history, origin, replaced0, skip);
    AfterTheEnd(state.events, newMessages, |old(state.events)|, message, results);
    context, exit, replaced := context0, Running, replaced0;
    if Failed(message) {
      EndRun(state, context, queues, newMessages, history, origin, replaced);
      return context, newMessages, continuing, AfterFailure, replaced;
    }
    context, replaced := PrepareNextTurn(context0, hooks.nextContext(turn), replaced0);
    GoingWith(state, context0, context, queues, Between, newMessages, history, [], origin, replaced0, replaced);
    if hooks.shouldStop(turn) {
      EndRun(state, context, queues, newMessages, history, origin, replaced);
      exit := Stopped;
    }
  }

  /** A whole turn: its start, the held messages, the response and its tool calls, its end. */
  method TakeTurn(state: AgentState, context: AgentContext, queues: LoopQueues, mode: ExecutionMode, hasHook: bool,
                  signal: AbortSignal, first: bool, newMessages0: seq<Message>, held: seq<Message>,
                  ghost history: seq<Message>, ghost origin: Origin, ghost replaced: bool)
    returns (message: AssistantMessage, results: seq<Message>, newMessages: seq<Message>, continuing: bool)
    requires Going(state, context, queues, if first then OPEN_TURN else Between, newMessages0, history, held, origin,
                   replaced)
    modifies state, signal, context`messages
    ensures Going(state, context, queues, Between, newMessages, history, [], origin, replaced)
    ensures newMessages == newMessages0 + held + [message] + results
    ensures TurnReport(message, results, continuing, signal.aborted) && (Failed(message) ==> results == [])
    ensures var opening := (if first then [] else [TurnStart]) + Injected(held);
      old(state.events) + opening < state.events
    ensures state.events[|state.events| - 1] == TurnEnd(message, results)
    ensures NoEndSince(state.events[..|state.events| - 1], |old(state.events)|)
  {
    hide Going, TurnReport, Injected, NoEndSince;
    ghost var before := state.events;
    if !first {
      BeginTurn(state, context, queues, newMessages0, history, held, origin, replaced);
    }
    newMessages := InjectHeld(state, context, queues, newMessages0, held, history, origin, replaced);
    ghost var begun := state.events;
    assert before + [TurnStart] + Injected(held) == before + ([TurnStart] + Injected(held));
    assert before + [] + Injected(held) == before + ([] + Injected(held));
    assert first ==> before + [] == before;
    message, results, newMessages, continuing :=
      RunTurn(state, context, queues, mode, hasHook, signal, newMessages, history, origin, replaced);
    FailedRunsNothing(message, results, continuing, signal.aborted);
    OneTurnEnd(state.events, before, begun, held, first, message, results);
  }

  lemma FailedRunsNothing(message: AssistantMessage, results: seq<Message>, continuing: bool, aborted: bool)
    requires TurnReport(message, results, continuing, aborted)
    ensures Failed(message) ==> results == []
  {
  }

  /** What a turn reports has one end, the last event. */
  lemma OneTurnEnd(events: seq<Event>, before: seq<Event>, begun: seq<Event>, held: seq<Message>, first: bool,
                   message: AssistantMessage, results: seq<Message>)
    requires begun == before + (if first then [] else [TurnStart]) + Injected(held)
    requires begun < events && NoEndSince(events[..|events| - 1], |begun|)
    ensures NoEndSince(events[..|events| - 1], |before|)
  {
    hide Injected;
    InjectedAreMessages(held);
    var start := before + (if first then [] else [TurnStart]);
    assert NoEndSince(start, |before|);
    NoEndLater(start, Injected(held), |before|);
    var init := events[..|events| - 1];
    forall i | |before| <= i < |init|
      ensures !init[i].TurnEnd? && !init[i].AgentEnd?
    {
      assert i < |begun| ==> init[i] == begun[i];
    }
  }

  /** With the end of the run behind the end of the last turn. */
  lemma AfterTheEnd(events: seq<Event>, newMessages: seq<Message>, from: nat, message: AssistantMessage,
                    results: seq<Message>)
    requires |events| > from && events[|events| - 1] == TurnEnd(message, results)
    requires NoEndSince(events[..|events| - 1], from) && (Failed(message) ==> results == [])
    ensures Failed(message) ==> FailedLast(events + [AgentEnd(newMessages)], from)
    ensures !Failed(message) ==> AllWell(events, from) && AllWell(events + [AgentEnd(newMessages)], from)
  {
    var init, longer := events[..|events| - 1], events + [AgentEnd(newMessages)];
    assert longer[..|longer| - 2] == init;
    assert forall i :: from <= i < |init| ==> !init[i].TurnEnd?;
    assert forall i :: from <= i < |init| ==> events[i] == init[i] && longer[i] == init[i];
  }

  ghost method TurnNoted(state: AgentState, context: AgentContext, queues: LoopQueues, continuing: bool,
                         newMessages: seq<Message>, history: seq<Message>, origin: Origin, replaced: bool,
                         skip: bool)
    requires Going(state, context, queues, Between, newMessages, history, [], origin, replaced)
    requires Scheduled(queues.polls, skip) && TurnDue(queues.polls) && (queues.polls == [] ==> skip)
    modifies queues`polls
    ensures Going(state, context, queues, Between, newMessages, history, [], origin, replaced)
    ensures Scheduled(queues.polls, skip) && TurnsDone(queues.polls) == old(TurnsDone(queues.polls)) + 1
    ensures queues.polls == old(queues.polls) + [TurnDone(continuing)]
  {
    hide Scheduled, TurnDue, TurnsDone;
    queues.NoteTurn(continuing);
    TurnFollows(old(queues.polls), continuing, skip);
  }

  /** One pass of the inner loop, the poll at its end included. */
  method IterateAndPoll(state: AgentState, context0: AgentContext, queues: LoopQueues, mode: ExecutionMode,
                        hasHook: bool, hooks: Hooks, turn: nat, signal: AbortSignal, first: bool,
                        newMessages0: seq<Message>, held0: seq<Message>, ghost history: seq<Message>,
                        ghost origin: Origin, ghost replaced0: bool, ghost skip: bool)
    returns (context: AgentContext, newMessages: seq<Message>, held: seq<Message>, continuing: bool, exit: Exit,
             ghost replaced: bool)
    requires Going(state, context0, queues, if first then OPEN_TURN else Between, newMessages0, history, held0, origin,
                   replaced0)
    requires Scheduled(queues.polls, skip) && TurnDue(queues.polls) && (queues.polls == [] ==> skip)
    requires !queues.skipInitialSteeringPoll
    modifies state, signal, context0`messages, queues, queues.steering, queues.followUps
    ensures context == context0 || fresh(context)
    ensures exit.Running? || exit.AfterFailure? || exit.Stopped?
    ensures exit.Running? ==> Going(state, context, queues, Between, newMessages, history, held, Steering, replaced)
    ensures !exit.Running? ==>
              held == [] && Going(state, context, queues, Done, newMessages, history, [], origin, replaced)
    ensures Scheduled(queues.polls, skip) && TurnsDone(queues.polls) == old(TurnsDone(queues.polls)) + 1
    ensures queues.polls != [] && !queues.skipInitialSteeringPoll
    ensures if exit.Running? then queues.polls[|queues.polls| - 1].PolledSteering?
            else queues.polls[|queues.polls| - 1].TurnDone?
    ensures exit.Running? ==> (TurnDue(queues.polls) <==> continuing || held != [])
    ensures newMessages0 + held0 < newMessages && old(state.events) < state.events
    ensures !exit.Running? ==> state.events[|state.events| - 1] == AgentEnd(newMessages)
    ensures if exit.AfterFailure? then FailedLast(state.events, |old(state.events)|)
            else AllWell(state.events, |old(state.events)|)
    ensures !exit.AfterFailure? ==> (exit.Stopped? <==> hooks.shouldStop(turn))
    ensures replaced == (replaced0 || (!exit.AfterFailure? && hooks.nextContext(turn).Some?))
  {
    hide Going, Scheduled, TurnsDone, TurnDue, AllWell, FailedLast, Injected, TakesOldest;
    ghost var polls := queues.polls;
    held := [];
    context, newMessages, continuing, exit, replaced :=
      Iterate(state, context0, queues, mode, hasHook, hooks, turn, signal, first, newMessages0, held0, history, origin,
              replaced0, skip);
    if exit.Running? {
      held := PollSteering(state, context, queues, Between, newMessages, history, origin, replaced, skip);
      DueAfter(polls, continuing, held, held + queues.steering.messages);
    }
  }

  /** `runLoop`, observed for at most `turns` turns. */
  method RunLoop(state: AgentState, context0: AgentContext, queues: LoopQueues, mode: ExecutionMode, hasHook: bool,
                 hooks: Hooks, signal: AbortSignal, newMessages0: seq<Message>, turns: nat,
                 ghost history: seq<Message>, ghost origin0: Origin)
    returns (context: AgentContext, newMessages: seq<Message>, held: seq<Message>, exit: Exit, ghost origin: Origin,
             ghost replaced: bool)
    requires Going(state, context0, queues, OPEN_TURN, newMessages0, history, [], origin0, false)
    requires queues.polls == []
    modifies state, signal, context0, queues, queues.steering, queues.followUps
    ensures Going(state, context, queues,
                  if !exit.Running? then Done else if turns == 0 then OPEN_TURN else Between,
                  newMessages, history, held, origin, replaced)
    ensures newMessages0 <= newMessages && old(state.events) <= state.events
    ensures !exit.Running? ==>
              held == [] && state.events != [] && state.events[|state.events| - 1] == AgentEnd(newMessages)
    ensures LoopEnded(queues.polls, old(queues.skipInitialSteeringPoll), turns, exit)
    ensures if exit.AfterFailure? then FailedLast(state.events, |old(state.events)|)
            else AllWell(state.events, |old(state.events)|)
    ensures HooksObeyed(hooks, TurnsDone(queues.polls), exit, replaced)
  {
    hide Going, Scheduled, TurnsDone, TurnDue, AllWell, FailedLast, HooksObeyed;
    context, newMessages, exit, origin, replaced := context0, newMessages0, Running, Steering, false;
    ghost var skip, from := queues.skipInitialSteeringPoll, |state.events|;
    NoPolls(skip, hooks, state.events);
    var fuel: nat, first := turns, true;
    held := PollSteering(state, context, queues, OPEN_TURN, newMessages, history, origin0, replaced, skip);
    FirstPoll(queues.polls, skip);
    while true
      invariant context == context0 || fresh(context)
      invariant Going(state, context, queues, if first then OPEN_TURN else Between, newMessages, history, held, origin,
                      replaced)
      invariant Scheduled(queues.polls, skip) && !queues.skipInitialSteeringPoll && (queues.polls == [] ==> skip)
      invariant TurnDue(queues.polls) && TurnsDone(queues.polls) == turns - fuel
      invariant newMessages0 <= newMessages && old(state.events) <= state.events && AllWell(state.events, from)
      invariant HooksObeyed(hooks, turns - fuel, Running, replaced)
      invariant first == (fuel == turns) && fuel <= turns
      invariant exit.Running?
      decreases fuel
    {
      var continuing := true;
      ghost var fuel0 := fuel;
      while continuing || held != []
        invariant context == context0 || fresh(context)
        invariant Going(state, context, queues, if first then OPEN_TURN else Between, newMessages, history, held,
                        origin, replaced)
        invariant Scheduled(queues.polls, skip) && !queues.skipInitialSteeringPoll && (queues.polls == [] ==> skip)
        invariant TurnDue(queues.polls) <==> continuing || held != []
        invariant TurnsDone(queues.polls) == turns - fuel
        invariant newMessages0 <= newMessages && old(state.events) <= state.events && AllWell(state.events, from)
        invariant HooksObeyed(hooks, turns - fuel, Running, replaced)
        invariant first == (fuel == turns) && fuel <= fuel0 && (fuel < fuel0 || continuing)
        invariant fuel < fuel0 ==> queues.polls != [] && queues.polls[|queues.polls| - 1].PolledSteering?
        invariant exit.Running?
        decreases fuel
      {
        if fuel == 0 {
          return context, newMessages, held, Running, origin, replaced;
        }
        ghost var before, replaced0 := state.events, replaced;
        context, newMessages, held, continuing, exit, replaced :=
          IterateAndPoll(state, context, queues, mode, hasHook, hooks, turns - fuel, signal, first, newMessages, held,
                         history, origin, replaced, skip);
        StillWell(before, state.events, from);
        HooksStep(hooks, turns - fuel, exit, replaced0, replaced);
        fuel, first := fuel - 1, false;
        if !exit.Running? {
          return context, newMessages, [], exit, origin, replaced;
        }
        origin := Steering;
      }
      held := PollFollowUps(state, context, queues, Between, newMessages, history, origin, replaced, skip);
      origin := FollowUp;
      if held == [] {
        break;
      }
    }
    StillIdle(hooks, turns - fuel, replaced);
    ghost var before := state.events;
    EndRun(state, context, queues, newMessages, history, origin, replaced);
    exit := Idle;
    WellToTheEnd(before, AgentEnd(newMessages), from);
  }

  /** How the polls of a run stand when it is left: it goes on as long as a turn is due, the callbacks, a failure and
      the observation permitting. */
  predicate LoopEnded(polls: seq<Poll>, skip: bool, turns: nat, exit: Exit) {
    && Scheduled(polls, skip) && TurnsDone(polls) <= turns && (polls == [] ==> skip)
    && match exit
       case Running => TurnsDone(polls) == turns && TurnDue(polls)
       case Idle => polls != [] && polls[|polls| - 1] == PolledFollowUps([], [])
       case _ => polls != [] && polls[|polls| - 1].TurnDone?
  }

  /** A callback stops the run at the first turn for which it says so, and nothing else but a callback replaces the
      context. */
  predicate HooksObeyed(hooks: Hooks, turns: nat, exit: Exit, replaced: bool) {
    && (exit.Stopped? ==> turns > 0 && hooks.shouldStop(turns - 1))
    && (forall i: nat :: i < turns - (if exit.Stopped? || exit.AfterFailure? then 1 else 0) ==> !hooks.shouldStop(i))
    && (replaced <==> exists i: nat :: i < turns - (if exit.AfterFailure? then 1 else 0) && hooks.nextContext(i).Some?)
  }

  lemma HooksStep(hooks: Hooks, turn: nat, exit: Exit, replaced0: bool, replaced: bool)
    requires HooksObeyed(hooks, turn, Running, replaced0)
    requires exit.Running? || exit.AfterFailure? || exit.Stopped?
    requires !exit.AfterFailure? ==> (exit.Stopped? <==> hooks.shouldStop(turn))
    requires replaced == (replaced0 || (!exit.AfterFailure? && hooks.nextContext(turn).Some?))
    ensures HooksObeyed(hooks, turn + 1, exit, replaced)
  {
  }

  lemma StillIdle(hooks: Hooks, turns: nat, replaced: bool)
    requires HooksObeyed(hooks, turns, Running, replaced)
    ensures HooksObeyed(hooks, turns, Idle, replaced)
  {
  }

  lemma WellToTheEnd(events: seq<Event>, e: Event, from: nat)
    requires AllWell(events, from) && !e.TurnEnd?
    ensures AllWell(events + [e], from)
  {
  }

  lemma NoPolls(skip: bool, hooks: Hooks, events: seq<Event>)
    ensures Scheduled([], skip) && TurnsDone([]) == 0 && TurnDue([])
    ensures HooksObeyed(hooks, 0, Running, false) && AllWell(events, |events|)
  {
  }

  lemma FirstPoll(polls: seq<Poll>, skip: bool)
    requires |polls| <= 1 && (polls != [] ==> polls[0].PolledSteering?)
    ensures TurnDue(polls)
  {
  }
}
