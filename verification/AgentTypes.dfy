/** Messages, events and the event protocol of an agent run. */
module AgentTypes {
  import opened Text

  datatype StopReason = Stop | Length | ToolUse | Error | Aborted

  /** Arguments, results and message contents are kept uninterpreted, as strings. */
  datatype ToolCall = ToolCall(id: string, name: string, arguments: string)

  datatype ToolOutcome = ToolOutcome(content: string, isError: bool, terminate: bool)

  datatype Message =
    | User(content: string)
    | Assistant(content: string, calls: seq<ToolCall>, stopReason: StopReason, errorMessage: Option<string>)
    | ToolResult(callId: string, toolName: string, outcome: ToolOutcome)

  /** A failed response that says why; an empty reason is no reason. */
  predicate GivesError(m: Message) {
    m.Assistant? && m.errorMessage.Some? && m.errorMessage.value != ""
  }

  /** Tool events carry the index of the call in its batch: ids are chosen by the model and may repeat. */
  datatype Event =
    | AgentStart
    | AgentEnd(messages: seq<Message>)
    | TurnStart
    | TurnEnd(message: Message, results: seq<Message>)
    | MessageStart(message: Message)
    | MessageUpdate(message: Message)
    | MessageEnd(message: Message)
    | ToolStart(k: nat, call: ToolCall)
    | ToolUpdate(k: nat, call: ToolCall)
    | ToolEnd(k: nat, call: ToolCall, outcome: ToolOutcome)

  function ResultMessage(call: ToolCall, outcome: ToolOutcome): Message {
    ToolResult(call.id, call.name, outcome)
  }

  /** The protocol as an automaton. Inside a turn it knows the message being reported, the calls
      running, and the result of each call that has ended. */
  datatype Phase =
    | NotStarted
    | Between
    | Turn(open: Option<Message>, running: map<nat, ToolCall>, ended: map<nat, Message>)
    | Done
    | Broken

  predicate SameRole(a: Message, b: Message) {
    a.User? == b.User? && a.Assistant? == b.Assistant?
  }

  function Step(p: Phase, e: Event): Phase {
    match (p, e)
    case (NotStarted, AgentStart) => Between
    case (Between, TurnStart) => Turn(None, map[], map[])
    case (Between, AgentEnd(_)) => Done
    case (Turn(None, running, ended), MessageStart(m)) =>
      if running == map[] then Turn(Some(m), map[], ended) else Broken
    case (Turn(Some(m), running, ended), MessageUpdate(m')) =>
      if m.Assistant? && m'.Assistant? then Turn(Some(m'), running, ended) else Broken
    case (Turn(Some(m), running, ended), MessageEnd(m')) =>
      if SameRole(m, m') then Turn(None, running, ended) else Broken
    case (Turn(None, running, ended), ToolStart(k, call)) =>
      if k !in running && k !in ended then Turn(None, running[k := call], ended) else Broken
    case (Turn(None, running, ended), ToolUpdate(k, call)) =>
      if k in running && running[k] == call then p else Broken
    case (Turn(None, running, ended), ToolEnd(k, call, o)) =>
      if k in running && running[k] == call then Turn(None, running - {k}, ended[k := ResultMessage(call, o)])
      else Broken
    case (Turn(None, running, _), TurnEnd(_, _)) => if running == map[] then Between else Broken
    case _ => Broken
  }

  function PhaseAfter(events: seq<Event>): Phase {
    if events == [] then NotStarted
    else Step(PhaseAfter(events[..|events| - 1]), events[|events| - 1])
  }

  lemma PhaseSnoc(events: seq<Event>, e: Event)
    ensures PhaseAfter(events + [e]) == Step(PhaseAfter(events), e)
  {
    assert (events + [e])[..|events|] == events;
  }

  /** The messages reported complete, in order. */
  function MessageEnds(events: seq<Event>): seq<Message> {
    if events == [] then []
    else
      var last := events[|events| - 1];
      MessageEnds(events[..|events| - 1]) + (if last.MessageEnd? then [last.message] else [])
  }

  lemma MessageEndsSnoc(events: seq<Event>, e: Event)
    ensures MessageEnds(events + [e]) == MessageEnds(events) + (if e.MessageEnd? then [e.message] else [])
  {
    assert (events + [e])[..|events|] == events;
  }

  predicate Busy(p: Phase) {
    p.Turn? && p.running != map[]
  }

  /** Some call was started while another was running. */
  predicate Overlaps(events: seq<Event>) {
    events != [] &&
    var before, last := events[..|events| - 1], events[|events| - 1];
    Overlaps(before) || (last.ToolStart? && Busy(PhaseAfter(before)))
  }

  lemma OverlapsSnoc(events: seq<Event>, e: Event)
    ensures Overlaps(events + [e]) <==> Overlaps(events) || (e.ToolStart? && Busy(PhaseAfter(events)))
  {
    assert (events + [e])[..|events|] == events;
  }

  // ----- what the automaton says about a trace -----

  predicate IsStart(e: Event, k: nat) { e.ToolStart? && e.k == k }
  predicate IsEnd(e: Event, k: nat) { e.ToolEnd? && e.k == k }
  predicate IsUpdate(e: Event, k: nat) { e.ToolUpdate? && e.k == k }

  lemma {:induction false} BrokenStaysBroken(events: seq<Event>, i: nat)
    requires i <= |events| && PhaseAfter(events[..i]) == Broken
    ensures PhaseAfter(events) == Broken
    decreases |events| - i
  {
    if i < |events| {
      assert events[..i + 1][..i] == events[..i];
      BrokenStaysBroken(events, i + 1);
    } else {
      assert events[..i] == events;
    }
  }

  lemma {:induction false} PrefixOf(events: seq<Event>, i: nat)
    requires i <= |events| && PhaseAfter(events) != Broken
    ensures PhaseAfter(events[..i]) != Broken
    ensures i > 0 ==> PhaseAfter(events[..i]) == Step(PhaseAfter(events[..i - 1]), events[i - 1])
  {
    if PhaseAfter(events[..i]) == Broken {
      BrokenStaysBroken(events, i);
    }
    if i > 0 {
      assert events[..i][..i - 1] == events[..i - 1];
    }
  }

  lemma NothingYet(events: seq<Event>)
    ensures PhaseAfter(events[..0]) == NotStarted
  {
  }

  /** An update in an unbroken trace comes while its call is running. */
  lemma UpdateWhileRunning(events: seq<Event>, i: nat, k: nat)
    requires i < |events| && PhaseAfter(events) != Broken && IsUpdate(events[i], k)
    ensures PhaseAfter(events[..i]).Turn? && k in PhaseAfter(events[..i]).running
  {
    hide PhaseAfter;
    PrefixOf(events, i + 1);
  }

  /** A call is running only after its start in the same turn, with no end in between. */
  lemma {:induction false} RunningMeansStarted(events: seq<Event>, i: nat, k: nat) returns (s: nat)
    requires i <= |events| && PhaseAfter(events) != Broken
    requires PhaseAfter(events[..i]).Turn? && k in PhaseAfter(events[..i]).running
    ensures s < i && IsStart(events[s], k)
    ensures forall j :: s < j < i ==> !IsEnd(events[j], k) && !IsStart(events[j], k) && !events[j].TurnEnd?
    decreases i
  {
    hide PhaseAfter;
    NothingYet(events);
    PrefixOf(events, i);
    if IsStart(events[i - 1], k) {
      s := i - 1;
    } else {
      s := RunningMeansStarted(events, i - 1, k);
    }
  }

  /** In an unbroken trace every started call ends, exactly once, before its turn ends. */
  lemma {:induction false} StartedCallEnds(events: seq<Event>, s: nat, t: nat, k: nat) returns (e: nat)
    requires s < t < |events| && PhaseAfter(events) != Broken
    requires IsStart(events[s], k) && events[t].TurnEnd?
    requires forall j :: s < j < t ==> !events[j].TurnEnd?
    ensures s < e < t && IsEnd(events[e], k)
    ensures forall j :: s < j < t && j != e ==> !IsEnd(events[j], k)
    ensures forall j :: s < j < t ==> !IsStart(events[j], k)
  {
    PrefixOf(events, s + 1);
    PrefixOf(events, s);
    e := FindEnd(events, s, s + 1, t, k);
  }

  lemma {:induction false} FindEnd(events: seq<Event>, s: nat, i: nat, t: nat, k: nat) returns (e: nat)
    requires s < i <= t < |events| && PhaseAfter(events) != Broken
    requires events[t].TurnEnd? && forall j :: s < j < t ==> !events[j].TurnEnd?
    requires PhaseAfter(events[..i]).Turn? && k in PhaseAfter(events[..i]).running
    ensures i <= e < t && IsEnd(events[e], k)
    ensures forall j :: i <= j < t && j != e ==> !IsEnd(events[j], k)
    ensures forall j :: i <= j < t ==> !IsStart(events[j], k)
    decreases t - i
  {
    hide PhaseAfter;
    PrefixOf(events, i + 1);
    if IsEnd(events[i], k) {
      e := i;
      NoMoreOf(events, i + 1, t, k);
    } else {
      e := FindEnd(events, s, i + 1, t, k);
    }
  }

  lemma {:induction false} NoMoreOf(events: seq<Event>, i: nat, t: nat, k: nat)
    requires i <= t < |events| && PhaseAfter(events) != Broken
    requires forall j :: i <= j < t ==> !events[j].TurnEnd?
    requires PhaseAfter(events[..i]).Turn? && k in PhaseAfter(events[..i]).ended
    requires k !in PhaseAfter(events[..i]).running
    ensures forall j :: i <= j < t ==> !IsEnd(events[j], k) && !IsStart(events[j], k) && !IsUpdate(events[j], k)
    decreases t - i
  {
    hide PhaseAfter;
    if i < t {
      PrefixOf(events, i + 1);
      NoMoreOf(events, i + 1, t, k);
    }
  }

  /** Turns opened and not yet closed. */
  function OpenTurns(events: seq<Event>): int {
    if events == [] then 0
    else
      var last := events[|events| - 1];
      OpenTurns(events[..|events| - 1]) + (if last.TurnStart? then 1 else if last.TurnEnd? then -1 else 0)
  }

  /** Turns never nest and never end before they start: at every point of an unbroken trace at most one is open. */
  lemma {:induction false} TurnsBalance(events: seq<Event>, i: nat)
    requires i <= |events| && PhaseAfter(events) != Broken
    ensures OpenTurns(events[..i]) == (if PhaseAfter(events[..i]).Turn? then 1 else 0)
    decreases i
  {
    hide PhaseAfter;
    PrefixOf(events, i);
    NothingYet(events);
    if i > 0 {
      TurnsBalance(events, i - 1);
      PrefixOf(events, i - 1);
      assert events[..i][..i - 1] == events[..i - 1];
    }
  }

  predicate InsideTurn(e: Event) {
    !e.AgentStart? && !e.AgentEnd? && !e.TurnStart?
  }

  /** Messages, tool calls and the end of a turn are reported inside a turn, a turn starts and a run ends outside. */
  lemma EverythingInTurns(events: seq<Event>, i: nat)
    requires i < |events| && PhaseAfter(events) != Broken
    ensures OpenTurns(events[..i]) == (if InsideTurn(events[i]) then 1 else 0)
  {
    hide PhaseAfter;
    PrefixOf(events, i + 1);
    TurnsBalance(events, i);
  }

  /** A message ends only after its start, and only its updates come in between. */
  lemma {:induction false} EndFollowsStart(events: seq<Event>, i: nat) returns (s: nat)
    requires i < |events| && PhaseAfter(events) != Broken && events[i].MessageEnd?
    ensures s < i && events[s].MessageStart? && forall j :: s < j < i ==> events[j].MessageUpdate?
  {
    PrefixOf(events, i + 1);
    PrefixOf(events, i);
    s := OpenSince(events, i);
  }

  lemma {:induction false} OpenSince(events: seq<Event>, i: nat) returns (s: nat)
    requires i <= |events| && PhaseAfter(events) != Broken
    requires PhaseAfter(events[..i]).Turn? && PhaseAfter(events[..i]).open.Some?
    ensures s < i && events[s].MessageStart? && forall j :: s < j < i ==> events[j].MessageUpdate?
    decreases i
  {
    hide PhaseAfter;
    NothingYet(events);
    PrefixOf(events, i);
    if events[i - 1].MessageStart? {
      s := i - 1;
    } else {
      s := OpenSince(events, i - 1);
    }
  }

  /** A finished trace starts with the one `agent_start` and ends with the one `agent_end`, all turns closed. */
  lemma {:induction false} FinishedTrace(events: seq<Event>)
    requires PhaseAfter(events) == Done
    ensures |events| >= 2 && events[0] == AgentStart && events[|events| - 1].AgentEnd?
    ensures forall i :: 0 < i < |events| ==> !events[i].AgentStart?
    ensures forall i :: 0 <= i < |events| - 1 ==> !events[i].AgentEnd?
    ensures OpenTurns(events) == 0
  {
    forall i | 0 <= i < |events|
      ensures i > 0 ==> !events[i].AgentStart?
      ensures i < |events| - 1 ==> !events[i].AgentEnd?
      ensures i == 0 ==> events[0] == AgentStart
    {
      StartedOnce(events, i);
    }
    assert events[..|events|] == events;
    TurnsBalance(events, |events|);
    PrefixOf(events, |events|);
  }

  /** After its first event a trace is past its start, and it is not finished before its last. */
  lemma {:induction false} StartedOnce(events: seq<Event>, i: nat)
    requires i < |events| && PhaseAfter(events) != Broken
    ensures i > 0 ==> !events[i].AgentStart?
    ensures i == 0 ==> events[0] == AgentStart
    ensures i < |events| - 1 ==> !events[i].AgentEnd?
    ensures PhaseAfter(events[..i + 1]) != NotStarted
  {
    hide PhaseAfter;
    PrefixOf(events, i + 1);
    NothingYet(events);
    if i > 0 {
      StartedOnce(events, i - 1);
    }
    if i < |events| - 1 {
      PrefixOf(events, i + 2);
    }
  }
}
