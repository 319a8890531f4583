/** The steering and follow-up queues of an agent, and the polls a run makes of them. */
module MessageQueues {
  import opened AgentTypes

  datatype QueueMode = All | OneAtATime

  /** Each queue remembers everything ever put in and everything ever taken out. */
  class PendingMessageQueue {
    var messages: seq<Message>
    var mode: QueueMode
    ghost var enqueued: seq<Message>
    ghost var drained: seq<Message>

    ghost predicate Valid()
      reads this
    {
      enqueued == drained + messages
    }

    constructor (mode: QueueMode)
      ensures Valid() && messages == enqueued == drained == [] && this.mode == mode
    {
      messages, this.mode, enqueued, drained := [], mode, [], [];
    }

    method Enqueue(message: Message)
      requires Valid()
      modifies this
      ensures Valid() && enqueued == old(enqueued) + [message] && drained == old(drained) && mode == old(mode)
      ensures messages == old(messages) + [message]
    {
      messages := messages + [message];
      enqueued := enqueued + [message];
    }

    method Drain() returns (taken: seq<Message>)
      requires Valid()
      modifies this
      ensures Valid() && enqueued == old(enqueued) && drained == old(drained) + taken && mode == old(mode)
      ensures old(messages) == taken + messages
      ensures mode.All? ==> messages == []
      ensures mode.OneAtATime? ==> |taken| == (if old(messages) == [] then 0 else 1)
    {
      if mode.All? {
        taken := messages;
        messages := [];
      } else if messages == [] {
        taken := [];
      } else {
        taken := [messages[0]];
        messages := messages[1..];
      }
      drained := drained + taken;
    }

    /** What the user may do while a run waits: queue any number of messages, and switch the mode. */
    method Interfere()
      requires Valid()
      modifies this
      ensures Valid() && old(enqueued) <= enqueued && drained == old(drained) && old(messages) <= messages
    {
      var n: nat := *;
      while n > 0
        invariant Valid() && old(enqueued) <= enqueued && drained == old(drained) && old(messages) <= messages
      {
        var message: Message := *;
        Enqueue(message);
        n := n - 1;
      }
      mode := *;
    }
  }

  /** What a run does around its queues. `continuing`: the turn's tool calls call for another response; `queued`: what
      stood in the queue when it was polled. */
  datatype Poll =
    | TurnDone(continuing: bool)
    | PolledSteering(got: seq<Message>, queued: seq<Message>)
    | PolledFollowUps(got: seq<Message>, queued: seq<Message>)

  /** A poll takes the oldest messages, and nothing only when there is nothing. */
  predicate TakesOldest(poll: Poll) {
    !poll.TurnDone? ==> poll.got <= poll.queued && (poll.got == [] <==> poll.queued == [])
  }

  /** Whether the loop goes on to a turn after poll i: at the start, with calls to continue, or with messages. */
  predicate CallsForTurn(polls: seq<Poll>, i: nat)
    requires i < |polls|
  {
    match polls[i]
    case TurnDone(_) => false
    case PolledSteering(got, _) => got != [] || i == 0 || (polls[i - 1].TurnDone? && polls[i - 1].continuing)
    case PolledFollowUps(got, _) => got != []
  }

  /** What may come after poll i: every turn is followed by a poll of the steering queue, which leads to the
      next turn or, when there is none to take, to a poll of the follow-ups, which leads to a turn or to nothing. */
  predicate Follows(polls: seq<Poll>, i: nat)
    requires i + 1 < |polls|
  {
    if polls[i].TurnDone? then polls[i + 1].PolledSteering?
    else if CallsForTurn(polls, i) then polls[i + 1].TurnDone?
    else polls[i].PolledSteering? && polls[i + 1].PolledFollowUps?
  }

  /** The polls of a run; `skip`: its first poll is left out. */
  predicate Scheduled(polls: seq<Poll>, skip: bool) {
    && (forall i :: 0 <= i < |polls| - 1 ==> Follows(polls, i))
    && (forall i :: 0 <= i < |polls| ==> TakesOldest(polls[i]))
    && (polls != [] ==> if skip then polls[0].TurnDone? else polls[0].PolledSteering?)
  }

  function TurnsDone(polls: seq<Poll>): nat {
    if polls == [] then 0
    else TurnsDone(polls[..|polls| - 1]) + (if polls[|polls| - 1].TurnDone? then 1 else 0)
  }

  /** Follow-ups are polled only after a turn with nothing to continue and an empty steering poll. */
  lemma FollowUpsWait(polls: seq<Poll>, skip: bool, i: nat)
    requires Scheduled(polls, skip) && i < |polls| && polls[i].PolledFollowUps?
    ensures i >= 2 && polls[i - 1] == PolledSteering([], []) && polls[i - 2] == TurnDone(false)
  {
    assert Follows(polls, i - 1);
    assert TakesOldest(polls[i - 1]);
    if i >= 2 {
      assert Follows(polls, i - 2);
    }
  }

  lemma ScheduleSnoc(polls: seq<Poll>, p: Poll, skip: bool)
    requires Scheduled(polls, skip) && TakesOldest(p)
    requires polls == [] ==> if skip then p.TurnDone? else p.PolledSteering?
    requires polls != [] ==> Follows(polls + [p], |polls| - 1)
    ensures Scheduled(polls + [p], skip)
    ensures TurnsDone(polls + [p]) == TurnsDone(polls) + (if p.TurnDone? then 1 else 0)
  {
    assert (polls + [p])[..|polls|] == polls;
    forall i | 0 <= i < |polls| - 1
      ensures Follows(polls + [p], i)
    {
      assert Follows(polls, i);
    }
  }

  class LoopQueues {
    const steering: PendingMessageQueue
    const followUps: PendingMessageQueue
    /** Set when the run was started with drained steering messages: its first poll is skipped. */
    var skipInitialSteeringPoll: bool
    ghost var polls: seq<Poll>

    ghost predicate Valid()
      reads this, steering, followUps
    {
      steering != followUps && steering.Valid() && followUps.Valid()
    }

    constructor (steering: PendingMessageQueue, followUps: PendingMessageQueue, skip: bool)
      requires steering != followUps && steering.Valid() && followUps.Valid()
      ensures Valid() && this.steering == steering && this.followUps == followUps && polls == []
      ensures skipInitialSteeringPoll == skip
    {
      this.steering, this.followUps, skipInitialSteeringPoll, polls := steering, followUps, skip, [];
    }

    /** A poll of the steering queue, with whatever the user queued while the run was waiting. */
    method GetSteeringMessages() returns (got: seq<Message>)
      requires Valid()
      modifies this, steering, followUps
      ensures Valid() && !skipInitialSteeringPoll
      ensures steering.drained == old(steering.drained) + got && followUps.drained == old(followUps.drained)
      ensures polls == old(polls) + (if old(skipInitialSteeringPoll) then []
                                     else [PolledSteering(got, got + steering.messages)])
      ensures old(skipInitialSteeringPoll) ==> got == []
      ensures old(steering.messages) <= got + steering.messages
      ensures old(followUps.messages) <= followUps.messages
      ensures !old(skipInitialSteeringPoll) ==> TakesOldest(PolledSteering(got, got + steering.messages))
    {
      steering.Interfere();
      followUps.Interfere();
      if skipInitialSteeringPoll {
        skipInitialSteeringPoll := false;
        return [];
      }
      got := steering.Drain();
      polls := polls + [PolledSteering(got, got + steering.messages)];
    }

    method GetFollowUpMessages() returns (got: seq<Message>)
      requires Valid()
      modifies this, steering, followUps
      ensures Valid() && skipInitialSteeringPoll == old(skipInitialSteeringPoll)
      ensures followUps.drained == old(followUps.drained) + got && steering.drained == old(steering.drained)
      ensures polls == old(polls) + [PolledFollowUps(got, got + followUps.messages)]
      ensures old(followUps.messages) <= got + followUps.messages
      ensures old(steering.messages) <= steering.messages
      ensures TakesOldest(PolledFollowUps(got, got + followUps.messages))
    {
      steering.Interfere();
      followUps.Interfere();
      got := followUps.Drain();
      polls := polls + [PolledFollowUps(got, got + followUps.messages)];
    }

    ghost method NoteTurn(continuing: bool)
      modifies this`polls
      ensures polls == old(polls) + [TurnDone(continuing)]
    {
      polls := polls + [TurnDone(continuing)];
    }
  }
}
