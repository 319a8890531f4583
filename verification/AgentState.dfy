/** The state an agent reduces from the events of a run (`processEvents`), and the abort signal. */
module AgentStates {
  import opened Text
  import opened AgentTypes

  /** Where a transcript message came from. */
  datatype Origin = Initial | Prompted | Steering | FollowUp | Model | Tool

  datatype Delivery = Delivery(origin: Origin, message: Message)

  function Messages(log: seq<Delivery>): (ms: seq<Message>)
    ensures |ms| == |log|
  {
    seq(|log|, i requires 0 <= i < |log| => log[i].message)
  }

  function From(log: seq<Delivery>, origin: Origin): seq<Message> {
    if log == [] then []
    else
      var last := log[|log| - 1];
      From(log[..|log| - 1], origin) + (if last.origin == origin then [last.message] else [])
  }

  lemma LogSnoc(log: seq<Delivery>, d: Delivery)
    ensures Messages(log + [d]) == Messages(log) + [d.message]
    ensures forall o :: From(log + [d], o) == From(log, o) + (if d.origin == o then [d.message] else [])
  {
    assert (log + [d])[..|log|] == log;
  }

  function OpenMessage(p: Phase): Option<Message> {
    if p.Turn? then p.open else None
  }

  /** The last error reported by a finished turn. */
  function ErrorAfter(events: seq<Event>): Option<string> {
    if events == [] then None
    else
      var last := events[|events| - 1];
      if last.TurnEnd? && GivesError(last.message) then last.message.errorMessage
      else ErrorAfter(events[..|events| - 1])
  }

  /** The error after a failed turn is that turn's, as long as no later turn gives another. */
  lemma {:induction false} ErrorIsTheLast(before: seq<Event>, m: Message, results: seq<Message>, after: seq<Event>)
    requires m.Assistant? && m.errorMessage.Some? && m.errorMessage.value != ""
    requires forall e <- after :: e.TurnEnd? && e.message.Assistant? ==>
               e.message.errorMessage.None? || e.message.errorMessage.value == ""
    ensures ErrorAfter(before + [TurnEnd(m, results)] + after) == m.errorMessage
    decreases |after|
  {
    var events := before + [TurnEnd(m, results)] + after;
    if after != [] {
      assert events[..|events| - 1] == before + [TurnEnd(m, results)] + after[..|after| - 1];
      assert events[|events| - 1] == after[|after| - 1] && after[|after| - 1] in after;
      ErrorIsTheLast(before, m, results, after[..|after| - 1]);
    } else {
      assert events == before + [TurnEnd(m, results)];
    }
  }

  /** The ids of the calls running. */
  function RunningIds(p: Phase): set<string> {
    if p.Turn? then set k | k in p.running :: p.running[k].id else {}
  }

  /** The id of a call of the turn, running or ended. */
  function IdOf(p: Phase, k: nat): string
    requires p.Turn? && (k in p.running || k in p.ended)
  {
    if k in p.running then p.running[k].id else if p.ended[k].ToolResult? then p.ended[k].callId else ""
  }

  /** The model gave every call of the turn its own id. */
  ghost predicate DistinctIds(p: Phase) {
    p.Turn? ==>
      forall k, j :: k in p.running.Keys + p.ended.Keys && j in p.running.Keys + p.ended.Keys && k != j ==>
                       IdOf(p, k) != IdOf(p, j)
  }

  /** How an event changes the ids reported as pending. */
  function PendingNext(pending: set<string>, e: Event): set<string> {
    match e
    case ToolStart(_, call) => pending + {call.id}
    case ToolEnd(_, call, _) => pending - {call.id}
    case _ => pending
  }

  /** Pending ids always belong to running calls; and they are all of them when ids are not reused. */
  ghost predicate PendingAgrees(pending: set<string>, p: Phase) {
    pending <= RunningIds(p) && (DistinctIds(p) ==> pending == RunningIds(p))
  }

  lemma PendingStep(p: Phase, e: Event, pending: set<string>)
    requires Step(p, e) != Broken && PendingAgrees(pending, p)
    ensures PendingAgrees(PendingNext(pending, e), Step(p, e))
  {
    var q := Step(p, e);
    if e.ToolStart? {
      StartAgrees(p, e, pending);
    } else if e.ToolEnd? {
      EndAgrees(p, e, pending);
    } else if p.Turn? && q.Turn? {
      assert q.running == p.running && q.ended == p.ended;
      assert forall k :: k in p.running || k in p.ended ==> IdOf(q, k) == IdOf(p, k);
    }
  }

  lemma StartAgrees(p: Phase, e: Event, pending: set<string>)
    requires e.ToolStart? && Step(p, e) != Broken && PendingAgrees(pending, p)
    ensures PendingAgrees(PendingNext(pending, e), Step(p, e))
  {
    var q := Step(p, e);
    assert q.running[e.k] == e.call && forall k <- p.running :: q.running[k] == p.running[k];
    assert forall k :: k in p.running || k in p.ended ==> IdOf(q, k) == IdOf(p, k);
    assert RunningIds(q) == RunningIds(p) + {e.call.id};
  }

  lemma EndAgrees(p: Phase, e: Event, pending: set<string>)
    requires e.ToolEnd? && Step(p, e) != Broken && PendingAgrees(pending, p)
    ensures PendingAgrees(PendingNext(pending, e), Step(p, e))
  {
    var q := Step(p, e);
    assert forall k <- q.running :: q.running[k] == p.running[k];
    assert forall k :: k in p.running || k in p.ended ==> IdOf(q, k) == IdOf(p, k);
    forall id | id in RunningIds(p) && id != e.call.id
      ensures id in RunningIds(q)
    {
      var k :| k in p.running && p.running[k].id == id;
      assert q.running[k].id == id;
    }
    if DistinctIds(q) {
      forall k | k in q.running
        ensures q.running[k].id != e.call.id
      {
        assert IdOf(q, k) != IdOf(q, e.k);
      }
      assert DistinctIds(p);
    }
  }

  lemma {:induction false} NoneFrom(log: seq<Delivery>, origin: Origin)
    requires forall d <- log :: d.origin != origin
    ensures From(log, origin) == []
  {
    if log != [] {
      NoneFrom(log[..|log| - 1], origin);
    }
  }

  /** The message open after an event, as the reducer tracks it. */
  function Streaming(open: Option<Message>, e: Event): Option<Message> {
    match e
    case MessageStart(m) => Some(m)
    case MessageUpdate(m) => Some(m)
    case MessageEnd(_) => None
    case AgentEnd(_) => None
    case _ => open
  }

  lemma OpenStep(p: Phase, e: Event)
    requires Step(p, e) != Broken
    ensures OpenMessage(Step(p, e)) == Streaming(OpenMessage(p), e)
  {
  }

  lemma ErrorSnoc(events: seq<Event>, e: Event)
    ensures ErrorAfter(events + [e]) ==
            if e.TurnEnd? && GivesError(e.message) then e.message.errorMessage
            else ErrorAfter(events)
  {
    assert (events + [e])[..|events|] == events;
  }

  lemma StepOfBroken(e: Event)
    ensures Step(Broken, e) == Broken
  {
  }

  class AbortSignal {
    var aborted: bool

    constructor ()
      ensures !aborted
    {
      aborted := false;
    }

    /** The user may abort at any point; an abort is never withdrawn. */
    method MayAbort()
      modifies this
      ensures old(aborted) ==> aborted
    {
      if * {
        aborted := true;
      }
    }
  }

  class AgentState {
    var messages: seq<Message>
    var isStreaming: bool
    var streamingMessage: Option<Message>
    var pendingToolCalls: set<string>
    var errorMessage: Option<string>

    ghost var initial: seq<Message>
    ghost var events: seq<Event>
    ghost var log: seq<Delivery>

    ghost function Phase(): Phase
      reads this
    {
      PhaseAfter(events)
    }

    ghost function Ends(): seq<Message>
      reads this
    {
      MessageEnds(events)
    }

    ghost function Delivered(origin: Origin): seq<Message>
      reads this
    {
      From(log, origin)
    }

    /** The reduced state is determined by the transcript before the run and the events of the run. */
    ghost predicate Valid()
      reads this
    {
      && messages == initial + MessageEnds(events)
      && messages == Messages(log)
      && errorMessage == ErrorAfter(events)
      && (PhaseAfter(events) != Broken ==>
            && streamingMessage == OpenMessage(PhaseAfter(events))
            && PendingAgrees(pendingToolCalls, PhaseAfter(events)))
    }

    constructor (history: seq<Message>)
      ensures Valid() && fresh(this)
      ensures messages == history && events == [] && !isStreaming
      ensures Delivered(Steering) == [] && Delivered(FollowUp) == []
    {
      messages, isStreaming, streamingMessage, pendingToolCalls, errorMessage := history, false, None, {}, None;
      initial, events := history, [];
      log := seq(|history|, i requires 0 <= i < |history| => Delivery(Initial, history[i]));
      new;
      NoneFrom(log, Steering);
      NoneFrom(log, FollowUp);
      assert messages == initial + MessageEnds(events);
    }

    /** The start of a run: what was reduced so far becomes its initial transcript. */
    method BeginRun()
      requires Valid()
      modifies this
      ensures Valid() && events == [] && initial == messages == old(messages) && log == old(log)
      ensures isStreaming
    {
      isStreaming, streamingMessage, errorMessage := true, None, None;
      pendingToolCalls := {};
      initial, events := messages, [];
      assert messages == initial + MessageEnds(events);
    }

    method FinishRun()
      requires Valid() && Phase() == Done
      modifies this
      ensures Valid() && !isStreaming && pendingToolCalls == {}
      ensures messages == old(messages) && events == old(events) && log == old(log) && initial == old(initial)
    {
      isStreaming, streamingMessage := false, None;
      pendingToolCalls := {};
    }

    /** Reduces one event. `origin` records, for a completed message, where it came from. */
    method Emit(e: Event, ghost origin: Origin)
      requires Valid()
      modifies this
      ensures Valid() && events == old(events) + [e] && initial == old(initial) && isStreaming == old(isStreaming)
      ensures Phase() == Step(old(Phase()), e)
      ensures Ends() == old(Ends()) + (if e.MessageEnd? then [e.message] else [])
      ensures Overlaps(events) <==> Overlaps(old(events)) || (e.ToolStart? && Busy(old(Phase())))
      ensures pendingToolCalls == PendingNext(old(pendingToolCalls), e)
      ensures forall o :: Delivered(o) ==
                          old(Delivered(o)) + (if e.MessageEnd? && o == origin then [e.message] else [])
    {
      hide Step, PendingAgrees, Overlaps, Busy, OpenMessage, PhaseAfter, MessageEnds, ErrorAfter, Messages, From;
      PhaseSnoc(events, e);
      MessageEndsSnoc(events, e);
      ErrorSnoc(events, e);
      OverlapsSnoc(events, e);
      StepOfBroken(e);
      if Step(PhaseAfter(events), e) != Broken {
        PendingStep(PhaseAfter(events), e, pendingToolCalls);
        OpenStep(PhaseAfter(events), e);
      }
      events := events + [e];
      match e {
        case MessageStart(m) => streamingMessage := Some(m);
        case MessageUpdate(m) => streamingMessage := Some(m);
        case MessageEnd(m) =>
          streamingMessage := None;
          messages := messages + [m];
          LogSnoc(log, Delivery(origin, m));
          log := log + [Delivery(origin, m)];
        case ToolStart(k, call) =>
          pendingToolCalls := pendingToolCalls + {call.id};
        case ToolEnd(k, call, _) =>
          pendingToolCalls := pendingToolCalls - {call.id};
        case TurnEnd(m, _) =>
          if GivesError(m) {
            errorMessage := m.errorMessage;
          }
        case AgentEnd(_) => streamingMessage := None;
        case _ =>
      }
    }
  }
}
