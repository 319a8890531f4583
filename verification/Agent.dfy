/** The agent: a transcript, two queues, and runs started by prompts or by continuing. */
module Agents {
  import opened Text
  import opened AgentTypes
  import opened AgentStates
  import opened MessageQueues
  import opened ToolBatches
  import opened AgentLoop

  /** The prompts enter the trace; the context was built with them already in place. */
  method EmitPrompts(state: AgentState, context: AgentContext, queues: LoopQueues, prompts: seq<Message>,
                     ghost history: seq<Message>, ghost origin: Origin)
    requires Going(state, context, queues, OPEN_TURN, [], history, prompts, origin, true)
    modifies state
    ensures Going(state, context, queues, OPEN_TURN, prompts, history, [], origin, true)
    ensures state.events == old(state.events) + Injected(prompts)
  {
    hide Going, Injected;
    NothingInjected();
    for k := 0 to |prompts|
      invariant Going(state, context, queues, OPEN_TURN, prompts[..k], history, prompts[k..], origin, true)
      invariant state.events == old(state.events) + Injected(prompts[..k])
    {
      InjectedSnoc(prompts[..k], prompts[k]);
      assert prompts[..k + 1] == prompts[..k] + [prompts[k]];
      EmitPrompt(state, context, queues, prompts[..k], prompts[k..], history, origin);
      assert prompts[..k] + [prompts[k..][0]] == prompts[..k + 1] && prompts[k..][1..] == prompts[k + 1..];
    }
    assert prompts[..|prompts|] == prompts && prompts[|prompts|..] == [];
  }

  method EmitPrompt(state: AgentState, context: AgentContext, queues: LoopQueues, ghost emitted: seq<Message>,
                    prompts: seq<Message>, ghost history: seq<Message>, ghost origin: Origin)
    requires |prompts| > 0
    requires Going(state, context, queues, OPEN_TURN, emitted, history, prompts, origin, true)
    modifies state
    ensures Going(state, context, queues, OPEN_TURN, emitted + [prompts[0]], history, prompts[1..], origin, true)
    ensures state.events == old(state.events) + [MessageStart(prompts[0]), MessageEnd(prompts[0])]
  {
    hide Step, AgentLoop.Ready, When, state.Valid, state.Phase, state.Ends, state.Delivered, queues.Valid;
    EmitMessage(state, prompts[0], origin);
    HeldStep(old(state.Delivered(Steering)), prompts, origin == Steering);
    HeldStep(old(state.Delivered(FollowUp)), prompts, origin == FollowUp);
  }

  /** A run is about to start: nothing has been emitted yet. */
  ghost predicate Fresh(state: AgentState, queues: LoopQueues, held: seq<Message>, origin: Origin)
    reads state, queues, queues.steering, queues.followUps
  {
    && state.Valid() && queues.Valid() && queues.polls == []
    && state.events == [] && state.isStreaming
    && queues.steering.drained == state.Delivered(Steering) + When(origin == Steering, held)
    && queues.followUps.drained == state.Delivered(FollowUp) + When(origin == FollowUp, held)
  }

  method OpenRun(state: AgentState, context: AgentContext, queues: LoopQueues, ghost held: seq<Message>,
                 ghost origin: Origin)
    requires Fresh(state, queues, held, origin)
    modifies state
    ensures Going(state, context, queues, OPEN_TURN, [], old(state.initial), held, origin, true)
    ensures state.events == [AgentStart, TurnStart]
  {
    state.Emit(AgentStart, Model);
    state.Emit(TurnStart, Model);
  }

  /** What a run leaves behind, wherever the observation ends; it began with `prompts`. */
  ghost predicate RunTrace(state: AgentState, queues: LoopQueues, newMessages: seq<Message>, history: seq<Message>,
                           prompts: seq<Message>, held: seq<Message>, origin: Origin, exit: Exit)
    reads state, queues, queues.steering, queues.followUps
  {
    && state.Valid() && queues.Valid()
    && state.isStreaming
    && state.Ends() == newMessages
    && state.messages == history + newMessages
    && state.Phase() != Broken
    && (exit.Running? <==> state.Phase() != Done)
    && (!exit.Running? ==> held == [] && state.events != []
                           && state.events[|state.events| - 1] == AgentEnd(newMessages))
    && [AgentStart, TurnStart] + Injected(prompts) <= state.events && prompts <= newMessages
    && (if exit.AfterFailure? then FailedLast(state.events, 0) else AllWell(state.events, 0))
    && queues.steering.drained == state.Delivered(Steering) + When(origin == Steering, held)
    && queues.followUps.drained == state.Delivered(FollowUp) + When(origin == FollowUp, held)
  }

  lemma Traced(state: AgentState, context: AgentContext, queues: LoopQueues, phase: Phase, newMessages: seq<Message>,
               history: seq<Message>, prompts: seq<Message>, held: seq<Message>, origin: Origin, replaced: bool,
               exit: Exit)
    requires Going(state, context, queues, phase, newMessages, history, held, origin, replaced)
    requires phase != Broken && (exit.Running? <==> phase != Done)
    requires [AgentStart, TurnStart] + Injected(prompts) <= state.events && prompts <= newMessages
    requires if exit.AfterFailure? then FailedLast(state.events, 0) else AllWell(state.events, 0)
    requires !exit.Running? ==>
               held == [] && state.events != [] && state.events[|state.events| - 1] == AgentEnd(newMessages)
    ensures RunTrace(state, queues, newMessages, history, prompts, held, origin, exit)
    ensures !replaced ==> context.messages == state.messages
  {
  }

  /** `runAgentLoop`: a run that starts from prompts. Unless a callback replaced the loop's context, it ends
      up equal to the reduced transcript. */
  method RunAgentLoop(state: AgentState, tools: seq<AgentTool>, queues: LoopQueues, mode: ExecutionMode, hasHook: bool,
                      hooks: Hooks, signal: AbortSignal, prompts: seq<Message>, turns: nat, ghost origin0: Origin)
    returns (context: AgentContext, newMessages: seq<Message>, exit: Exit, ghost held: seq<Message>,
             ghost origin: Origin, ghost replaced: bool)
    requires Fresh(state, queues, prompts, origin0)
    modifies state, signal, queues, queues.steering, queues.followUps
    ensures RunTrace(state, queues, newMessages, old(state.initial), prompts, held, origin, exit)
    ensures LoopEnded(queues.polls, old(queues.skipInitialSteeringPoll), turns, exit)
    ensures HooksObeyed(hooks, TurnsDone(queues.polls), exit, replaced)
    ensures !replaced ==> context.messages == state.messages
  {
    hide Going, RunTrace, LoopEnded, HooksObeyed, TurnsDone, Injected, AllWell, FailedLast;
    ghost var history := state.initial;
    BeginsWithHistory(state);
    context := new AgentContext(state.messages + prompts, tools);
    OpenRun(state, context, queues, prompts, origin0);
    EmitPrompts(state, context, queues, prompts, history, origin0);
    InStep(state, context, queues, OPEN_TURN, prompts, history, [], origin0);
    WellSoFar(prompts);
    ghost var begun := state.events;
    var pending;
    context, newMessages, pending, exit, origin, replaced :=
      RunLoop(state, context, queues, mode, hasHook, hooks, signal, prompts, turns, history, origin0);
    held := pending;
    StillWell(begun, state.events, 0);
    Traced(state, context, queues, if !exit.Running? then Done else if turns == 0 then OPEN_TURN else Between,
           newMessages, history, prompts, held, origin, replaced, exit);
  }

  lemma WellSoFar(prompts: seq<Message>)
    ensures AllWell([AgentStart, TurnStart] + Injected(prompts), 0)
  {
    hide Injected;
    InjectedAreMessages(prompts);
    NoEndLater([AgentStart, TurnStart], Injected(prompts), 0);
  }

  lemma BeginsWithHistory(state: AgentState)
    requires state.Valid() && state.events == []
    ensures state.messages == state.initial
  {
    assert MessageEnds([]) == [];
  }

  lemma InStep(state: AgentState, context: AgentContext, queues: LoopQueues, phase: Phase, newMessages: seq<Message>,
               history: seq<Message>, held: seq<Message>, origin: Origin)
    requires Going(state, context, queues, phase, newMessages, history, held, origin, true)
    requires context.messages == history + newMessages
    ensures Going(state, context, queues, phase, newMessages, history, held, origin, false)
  {
  }

  /** `runAgentLoopContinue`: a run that starts from the transcript as it is. */
  method RunAgentLoopContinue(state: AgentState, tools: seq<AgentTool>, queues: LoopQueues, mode: ExecutionMode,
                              hasHook: bool, hooks: Hooks, signal: AbortSignal, turns: nat)
    returns (error: Option<string>, context: AgentContext, newMessages: seq<Message>, exit: Exit,
             ghost held: seq<Message>, ghost origin: Origin, ghost replaced: bool)
    requires Fresh(state, queues, [], Prompted)
    modifies state, signal, queues, queues.steering, queues.followUps
    ensures error.Some? <==> old(state.messages) == [] || old(state.messages)[|old(state.messages)| - 1].Assistant?
    ensures error.Some? ==> state.events == old(state.events) && state.messages == old(state.messages)
    ensures error.None? ==> RunTrace(state, queues, newMessages, old(state.initial), [], held, origin, exit)
    ensures error.None? ==>
              && LoopEnded(queues.polls, old(queues.skipInitialSteeringPoll), turns, exit)
              && HooksObeyed(hooks, TurnsDone(queues.polls), exit, replaced)
    ensures error.None? && !replaced ==> context.messages == state.messages
  {
    hide Going, RunTrace, LoopEnded, HooksObeyed, TurnsDone, Injected, AllWell, FailedLast;
    ghost var history := state.initial;
    BeginsWithHistory(state);
    context := new AgentContext(state.messages, tools);
    newMessages, exit, held, origin, replaced := [], Running, [], Prompted, false;
    if state.messages == [] {
      error := Some("Cannot continue: no messages in context");
      return;
    }
    if state.messages[|state.messages| - 1].Assistant? {
      error := Some("Cannot continue from message role: assistant");
      return;
    }
    error := None;
    OpenRun(state, context, queues, [], Prompted);
    assert history + [] == history;
    InStep(state, context, queues, OPEN_TURN, [], history, [], Prompted);
    WellSoFar([]);
    NothingInjected();
    assert [AgentStart, TurnStart] + [] == [AgentStart, TurnStart];
    ghost var begun := state.events;
    var pending;
    context, newMessages, pending, exit, origin, replaced :=
      RunLoop(state, context, queues, mode, hasHook, hooks, signal, [], turns, history, Prompted);
    held := pending;
    StillWell(begun, state.events, 0);
    Traced(state, context, queues, if !exit.Running? then Done else if turns == 0 then OPEN_TURN else Between,
           newMessages, history, [], held, origin, replaced, exit);
  }

  /** What a poll takes of a queue, by its mode. */
  function Oldest(messages: seq<Message>, mode: QueueMode): seq<Message> {
    if mode.All? || messages == [] then messages else messages[..1]
  }

  /** What continuing after an assistant message begins with: the steering messages of one poll, or else the
      follow-ups of one. */
  function FirstOf(steering: seq<Message>, mode: QueueMode, followUps: seq<Message>, mode': QueueMode): seq<Message> {
    if steering != [] then Oldest(steering, mode) else Oldest(followUps, mode')
  }

  datatype Outcome = Rejected(error: string) | Ran(exit: Exit)

  /** A run at a time: `activeRun` is set from its start to its end. `held` are the messages a run in
      progress has taken from the queue `heldFrom` and not yet put into the transcript. */
  class Agent {
    const state: AgentState
    const steeringQueue: PendingMessageQueue
    const followUpQueue: PendingMessageQueue
    var tools: seq<AgentTool>
    var toolExecution: ExecutionMode
    var hasHook: bool
    var hooks: Hooks
    var activeRun: bool
    ghost var held: seq<Message>
    ghost var heldFrom: Origin
    /** The polls of the latest run, and how it was left. */
    ghost var polls: seq<Poll>

    ghost predicate Valid()
      reads this, state, steeringQueue, followUpQueue
    {
      && steeringQueue != followUpQueue
      && state.Valid()
      && Conserved(steeringQueue, Steering)
      && Conserved(followUpQueue, FollowUp)
      && (!activeRun ==> held == [])
    }

    /** Every message put into the queue has been delivered, in order, or is held, or is still queued. */
    ghost predicate Conserved(queue: PendingMessageQueue, origin: Origin)
      reads this, state, queue
    {
      && queue.Valid()
      && queue.drained == state.Delivered(origin) + When(heldFrom == origin, held)
      && queue.enqueued == state.Delivered(origin) + When(heldFrom == origin, held) + queue.messages
    }

    constructor (history: seq<Message>, steeringMode: QueueMode, followUpMode: QueueMode)
      ensures Valid() && !activeRun && state.messages == history
      ensures fresh(state) && fresh(steeringQueue) && fresh(followUpQueue)
    {
      state := new AgentState(history);
      steeringQueue := new PendingMessageQueue(steeringMode);
      followUpQueue := new PendingMessageQueue(followUpMode);
      tools, toolExecution, hasHook, activeRun := [], Parallel, false, false;
      held, heldFrom, polls := [], Prompted, [];
      hooks := Hooks(_ => false, _ => None);
    }

    method Steer(message: Message)
      requires Valid()
      modifies steeringQueue
      ensures Valid() && steeringQueue.enqueued == old(steeringQueue.enqueued) + [message]
    {
      steeringQueue.Enqueue(message);
    }

    method FollowUpWith(message: Message)
      requires Valid()
      modifies followUpQueue
      ensures Valid() && followUpQueue.enqueued == old(followUpQueue.enqueued) + [message]
    {
      followUpQueue.Enqueue(message);
    }

    /** `prompt` */
    method Prompt(messages: seq<Message>, turns: nat) returns (r: Outcome, ghost newMessages: seq<Message>)
      requires Valid()
      modifies this, state, steeringQueue, followUpQueue
      ensures Valid()
      ensures r.Rejected? <==> old(activeRun)
      ensures r.Rejected? ==> state.messages == old(state.messages) && state.events == old(state.events)
      ensures r.Ran? ==> Finished(r.exit, newMessages, old(state.messages)) && messages <= newMessages
      ensures r.Ran? ==> LoopEnded(polls, false, turns, r.exit)
      ensures r.Ran? ==> [AgentStart, TurnStart] + Injected(messages) <= state.events
    {
      hide LoopEnded, Injected, Finished, state.Valid;
      newMessages := [];
      if activeRun {
        return Rejected("Agent is already processing a prompt."), newMessages;
      }
      held, heldFrom := messages, Prompted;
      r, newMessages := RunPrompts(messages, false, turns);
    }

    /** What a run that was not rejected leaves: its trace, and a transcript grown by its messages. */
    ghost predicate Finished(exit: Exit, newMessages: seq<Message>, history: seq<Message>)
      reads this, state
    {
      && state.messages == history + newMessages
      && state.Ends() == newMessages
      && activeRun == state.isStreaming == exit.Running?
      && state.Phase() != Broken
      && (!exit.Running? ==>
            && state.Phase() == Done
            && state.events != [] && state.events[|state.events| - 1] == AgentEnd(newMessages)
            && state.pendingToolCalls == {})
      && (if exit.AfterFailure? then FailedLast(state.events, 0) else AllWell(state.events, 0))
    }

    /** `runPromptMessages`, within `runWithLifecycle` */
    method RunPrompts(messages: seq<Message>, skipInitialSteeringPoll: bool, turns: nat)
      returns (r: Outcome, ghost newMessages: seq<Message>)
      requires !activeRun && steeringQueue != followUpQueue && state.Valid()
      requires Conserved(steeringQueue, Steering) && Conserved(followUpQueue, FollowUp) && held == messages
      modifies this, state, steeringQueue, followUpQueue
      ensures Valid() && r.Ran?
      ensures Finished(r.exit, newMessages, old(state.messages)) && messages <= newMessages
      ensures LoopEnded(polls, skipInitialSteeringPoll, turns, r.exit)
      ensures [AgentStart, TurnStart] + Injected(messages) <= state.events
    {
      hide RunTrace, Finished, Step, LoopEnded, HooksObeyed, Injected, TurnsDone, state.Valid;
      var queues := new LoopQueues(steeringQueue, followUpQueue, skipInitialSteeringPoll);
      var signal := new AbortSignal();
      activeRun := true;
      state.BeginRun();
      var context, exit;
      ghost var replaced;
      context, newMessages, exit, held, heldFrom, replaced :=
        RunAgentLoop(state, tools, queues, toolExecution, hasHook, hooks, signal, messages, turns, heldFrom);
      polls := queues.polls;
      FinishRun(exit, queues, newMessages, old(state.messages), messages);
      r := Ran(exit);
    }

    method FinishRun(exit: Exit, ghost queues: LoopQueues, ghost newMessages: seq<Message>,
                     ghost history: seq<Message>, ghost prompts: seq<Message>)
      requires steeringQueue != followUpQueue && queues.steering == steeringQueue && queues.followUps == followUpQueue
      requires activeRun
      requires RunTrace(state, queues, newMessages, history, prompts, held, heldFrom, exit)
      modifies this`activeRun, state
      ensures Valid() && Finished(exit, newMessages, history)
      ensures prompts <= newMessages && [AgentStart, TurnStart] + Injected(prompts) <= state.events
    {
      hide Step, Injected, AllWell, FailedLast;
      if !exit.Running? {
        state.FinishRun();
        activeRun := false;
      }
    }

    /** `continue` */
    method Continue(turns: nat) returns (r: Outcome, ghost newMessages: seq<Message>)
      requires Valid()
      modifies this, state, steeringQueue, followUpQueue
      ensures Valid()
      ensures old(activeRun) || old(state.messages) == [] ==> r.Rejected?
      ensures r.Rejected? && !old(activeRun) && old(state.messages) != [] ==>
                old(state.messages)[|old(state.messages)| - 1].Assistant?
                && old(steeringQueue.messages) == [] && old(followUpQueue.messages) == []
      ensures r.Rejected? ==>
                && state.messages == old(state.messages) && state.events == old(state.events)
                && steeringQueue.messages == old(steeringQueue.messages)
                && followUpQueue.messages == old(followUpQueue.messages)
      ensures r.Ran? ==> Finished(r.exit, newMessages, old(state.messages))
      ensures r.Ran? && old(state.messages)[|old(state.messages)| - 1].Assistant? ==>
                && newMessages != []
                && FirstOf(old(steeringQueue.messages), old(steeringQueue.mode), old(followUpQueue.messages),
                           old(followUpQueue.mode)) <= newMessages
      ensures r.Ran? ==>
                LoopEnded(polls,
                          old(state.messages)[|old(state.messages)| - 1].Assistant?
                          && old(steeringQueue.messages) != [],
                          turns, r.exit)
    {
      hide Finished, Step, state.Valid, Conserved, FirstOf, LoopEnded;
      newMessages := [];
      if activeRun {
        return Rejected("Agent is already processing."), newMessages;
      }
      if |state.messages| == 0 {
        return Rejected("No messages to continue from"), newMessages;
      }
      if state.messages[|state.messages| - 1].Assistant? {
        r, newMessages := ContinueFromQueues(turns);
        return;
      }
      r, newMessages := RunContinuation(turns);
    }

    /** Continuing after an assistant message: with queued steering messages, or else with follow-ups. */
    method ContinueFromQueues(turns: nat) returns (r: Outcome, ghost newMessages: seq<Message>)
      requires Valid() && !activeRun
      modifies this, state, steeringQueue, followUpQueue
      ensures Valid()
      ensures r.Rejected? <==> old(steeringQueue.messages) == [] && old(followUpQueue.messages) == []
      ensures r.Rejected? ==>
                && state.messages == old(state.messages) && state.events == old(state.events)
                && steeringQueue.messages == old(steeringQueue.messages)
                && followUpQueue.messages == old(followUpQueue.messages)
      ensures r.Ran? ==> Finished(r.exit, newMessages, old(state.messages)) && newMessages != []
                         && FirstOf(old(steeringQueue.messages), old(steeringQueue.mode), old(followUpQueue.messages),
                                    old(followUpQueue.mode)) <= newMessages
      ensures r.Ran? ==> LoopEnded(polls, old(steeringQueue.messages) != [], turns, r.exit)
    {
      hide Finished, Step, state.Valid, LoopEnded, Injected;
      newMessages := [];
      var queuedSteering := steeringQueue.Drain();
      if |queuedSteering| > 0 {
        held, heldFrom := queuedSteering, Steering;
        r, newMessages := RunPrompts(queuedSteering, true, turns);
        return;
      }
      var queuedFollowUps := followUpQueue.Drain();
      if |queuedFollowUps| > 0 {
        held, heldFrom := queuedFollowUps, FollowUp;
        r, newMessages := RunPrompts(queuedFollowUps, false, turns);
        return;
      }
      return Rejected("Cannot continue from message role: assistant"), newMessages;
    }

    /** `runContinuation`, within `runWithLifecycle` */
    method RunContinuation(turns: nat) returns (r: Outcome, ghost newMessages: seq<Message>)
      requires Valid() && !activeRun
      requires state.messages != [] && !state.messages[|state.messages| - 1].Assistant?
      modifies this, state, steeringQueue, followUpQueue
      ensures Valid() && r.Ran?
      ensures Finished(r.exit, newMessages, old(state.messages))
      ensures LoopEnded(polls, false, turns, r.exit)
    {
      hide RunTrace, Finished, Step, LoopEnded, HooksObeyed, Injected, TurnsDone, state.Valid;
      var queues := new LoopQueues(steeringQueue, followUpQueue, false);
      var signal := new AbortSignal();
      activeRun := true;
      state.BeginRun();
      var error, context, exit;
      ghost var replaced;
      error, context, newMessages, exit, held, heldFrom, replaced :=
        RunAgentLoopContinue(state, tools, queues, toolExecution, hasHook, hooks, signal, turns);
      polls := queues.polls;
      FinishRun(exit, queues, newMessages, old(state.messages), []);
      r := Ran(exit);
    }
  }
}
