/** Rebuilding an assistant message from the events of a proxy stream. */
module Proxy {
  import opened Text
  import opened Ansi

  datatype Kind = TextKind | ThinkingKind | ToolKind

  datatype ProxyEvent =
    | Begin
    | BlockStart(i: nat, kind: Kind, id: string, name: string)
    | BlockDelta(i: nat, kind: Kind, delta: string)
    | BlockEnd(i: nat, kind: Kind, signature: Option<string>)
    | Done(reason: string)
    | Error(reason: string, errorMessage: Option<string>)

  /** `json` is the text a tool call's arguments are salvaged from, until the call ends. */
  datatype Block =
    | TextBlock(text: string, signature: Option<string>)
    | ThinkingBlock(text: string, signature: Option<string>)
    | ToolBlock(id: string, name: string, arguments: string, json: Option<string>)

  datatype Message = Message(content: map<nat, Block>, stopReason: string, errorMessage: Option<string>)

  /** What is pushed to the consumer; the end of a block carries what the block holds. */
  datatype Pushed = Echo(event: ProxyEvent) | Ended(i: nat, block: Block) | Failure(message: string)

  predicate HasKind(content: map<nat, Block>, i: nat, kind: Kind) {
    i in content &&
    match content[i]
    case TextBlock(_, _) => kind.TextKind?
    case ThinkingBlock(_, _) => kind.ThinkingKind?
    case ToolBlock(_, _, _, _) => kind.ToolKind?
  }

  predicate IsBlockEvent(e: ProxyEvent) { e.BlockStart? || e.BlockDelta? || e.BlockEnd? }

  /** The block an event leaves at its index; nothing when the event is refused. `salvage` reads JSON cut off
      anywhere. */
  function NewBlock(content: map<nat, Block>, e: ProxyEvent, salvage: string -> string): Option<Block>
    requires IsBlockEvent(e)
  {
    match e
    case BlockStart(_, TextKind, _, _) => Some(TextBlock("", None))
    case BlockStart(_, ThinkingKind, _, _) => Some(ThinkingBlock("", None))
    case BlockStart(_, ToolKind, id, name) => Some(ToolBlock(id, name, "{}", Some("")))
    case BlockDelta(i, kind, delta) =>
      if !HasKind(content, i, kind) then None
      else if content[i].ToolBlock? then
        // A delta after the end of the call is appended to the text of a missing value.
        var json := (if content[i].json.Some? then content[i].json.value else "undefined") + delta;
        Some(content[i].(json := Some(json), arguments := salvage(json)))
      else Some(content[i].(text := content[i].text + delta))
    case BlockEnd(i, kind, signature) =>
      if !HasKind(content, i, kind) then None
      else if content[i].ToolBlock? then Some(content[i].(json := None))
      else Some(content[i].(signature := signature))
  }

  /** An event is refused when it speaks of a block that is not there or of another kind; the end of a missing
      tool call is only ignored. */
  predicate Ignored(content: map<nat, Block>, e: ProxyEvent) {
    e.BlockEnd? && e.kind.ToolKind? && !HasKind(content, e.i, ToolKind)
  }

  predicate Refused(content: map<nat, Block>, e: ProxyEvent) {
    (e.BlockDelta? || e.BlockEnd?) && !HasKind(content, e.i, e.kind) && !Ignored(content, e)
  }

  function Apply(content: map<nat, Block>, e: ProxyEvent, salvage: string -> string): map<nat, Block> {
    if !IsBlockEvent(e) then content
    else
      var block := NewBlock(content, e, salvage);
      if block.None? then content else content[e.i := block.value]
  }

  class PartialMessage {
    var content: map<nat, Block>
    var stopReason: string
    var errorMessage: Option<string>

    constructor ()
      ensures content == map[] && stopReason == "pending" && errorMessage == None
    {
      content, stopReason, errorMessage := map[], "pending", None;
    }

    /** `processProxyEvent`; `thrown` reports an exception, which leaves the message as it was. */
    method Process(e: ProxyEvent, salvage: string -> string) returns (pushed: seq<Pushed>, thrown: bool)
      modifies this
      ensures thrown == Refused(old(content), e)
      ensures content == Apply(old(content), e, salvage)
      ensures thrown ==> content == old(content) && stopReason == old(stopReason) && errorMessage == old(errorMessage)
      ensures stopReason == if e.Done? || e.Error? then e.reason else old(stopReason)
      ensures errorMessage == if e.Error? then e.errorMessage else old(errorMessage)
      ensures pushed == if thrown || Ignored(old(content), e) then []
                        else if e.BlockEnd? then [Ended(e.i, content[e.i])] else [Echo(e)]
    {
      pushed, thrown := [Echo(e)], false;
      match e {
        case Begin =>
        case BlockStart(i, TextKind, _, _) =>
          content := content[i := TextBlock("", None)];
        case BlockStart(i, ThinkingKind, _, _) =>
          content := content[i := ThinkingBlock("", None)];
        case BlockStart(i, ToolKind, id, name) =>
          content := content[i := ToolBlock(id, name, "{}", Some(""))];
        case BlockDelta(i, kind, delta) =>
          if !HasKind(content, i, kind) {
            return [], true;
          }
          var block := content[i];
          if kind.ToolKind? {
            var json := (if block.json.Some? then block.json.value else "undefined") + delta;
            block := block.(json := Some(json));
            block := block.(arguments := salvage(json));
          } else {
            block := block.(text := block.text + delta);
          }
          content := content[i := block];
        case BlockEnd(i, kind, signature) =>
          if !HasKind(content, i, kind) {
            return [], !kind.ToolKind?;
          }
          content := content[i := if kind.ToolKind? then content[i].(json := None)
                                  else content[i].(signature := signature)];
          pushed := [Ended(i, content[i])];
        case Done(reason) =>
          stopReason := reason;
        case Error(reason, message) =>
          stopReason, errorMessage := reason, message;
      }
    }
  }

  // ----- what the blocks hold -----

  function Replay(events: seq<ProxyEvent>, salvage: string -> string): map<nat, Block> {
    if events == [] then map[]
    else Apply(Replay(events[..|events| - 1], salvage), events[|events| - 1], salvage)
  }

  predicate Accepted(events: seq<ProxyEvent>, salvage: string -> string) {
    forall n :: 0 <= n < |events| ==> !Refused(Replay(events[..n], salvage), events[n])
  }

  predicate StartsAt(e: ProxyEvent, i: nat) { e.BlockStart? && e.i == i }

  predicate About(e: ProxyEvent, i: nat) { IsBlockEvent(e) && e.i == i }

  /** The deltas for one index, joined. */
  function Joined(events: seq<ProxyEvent>, i: nat): string {
    if events == [] then ""
    else Joined(events[..|events| - 1], i)
         + (var e := events[|events| - 1]; if e.BlockDelta? && e.i == i then e.delta else "")
  }

  lemma JoinedSnoc(events: seq<ProxyEvent>, e: ProxyEvent, i: nat)
    ensures Joined(events + [e], i) ==
            if e.BlockDelta? && e.i == i then Joined(events, i) + e.delta else Joined(events, i)
  {
    assert (events + [e])[..|events|] == events;
  }

  predicate Ends(e: ProxyEvent, i: nat, kind: Kind) { e.BlockEnd? && e.i == i && e.kind == kind }

  predicate NoEnd(events: seq<ProxyEvent>, i: nat, kind: Kind) {
    forall n :: 0 <= n < |events| ==> !Ends(events[n], i, kind)
  }

  predicate NoDelta(events: seq<ProxyEvent>, i: nat) {
    forall n :: 0 <= n < |events| ==> !(events[n].BlockDelta? && events[n].i == i)
  }

  /** The last end of the block is event k. */
  predicate LastEnd(events: seq<ProxyEvent>, i: nat, kind: Kind, k: int) {
    0 <= k < |events| && Ends(events[k], i, kind) && NoEnd(events[k + 1..], i, kind)
  }

  /** A text or thinking block holds the deltas and the signature of its last end. */
  ghost predicate ProseHolds(block: Block, kind: Kind, i: nat, since: seq<ProxyEvent>)
    requires !block.ToolBlock?
  {
    && block.text == Joined(since, i)
    && (NoEnd(since, i, kind) ==> block.signature == None)
    && forall k :: LastEnd(since, i, kind, k) ==> block.signature == since[k].signature
  }

  /** A call holds the text of its arguments until it ends, and what can be read of it. Deltas after an end are
      joined to the name of the missing text. */
  ghost predicate CallHolds(block: Block, start: ProxyEvent, i: nat, since: seq<ProxyEvent>, salvage: string -> string)
    requires block.ToolBlock? && start.BlockStart?
  {
    && block.id == start.id && block.name == start.name
    && (NoEnd(since, i, ToolKind) ==> block.json == Some(Joined(since, i)))
    && (NoDelta(since, i) ==> block.arguments == "{}")
    && (NoEnd(since, i, ToolKind) && !NoDelta(since, i) ==> block.arguments == salvage(Joined(since, i)))
    && forall k :: LastEnd(since, i, ToolKind, k) ==>
         var late := since[k + 1..];
         && block.json == (if NoDelta(late, i) then None else Some("undefined" + Joined(late, i)))
         && (!NoDelta(late, i) ==> block.arguments == salvage("undefined" + Joined(late, i)))
         && (NoDelta(late, i) && NoEnd(since[..k], i, ToolKind) && !NoDelta(since[..k], i) ==>
               block.arguments == salvage(Joined(since[..k], i)))
  }

  /** What the block at i holds, `since` its latest start. */
  ghost predicate Holds(content: map<nat, Block>, start: ProxyEvent, i: nat, since: seq<ProxyEvent>,
                        salvage: string -> string)
    requires start.BlockStart?
  {
    && HasKind(content, i, start.kind)
    && (if content[i].ToolBlock? then CallHolds(content[i], start, i, since, salvage)
        else ProseHolds(content[i], start.kind, i, since))
  }

  lemma HoldsAtStart(content: map<nat, Block>, start: ProxyEvent, i: nat, salvage: string -> string)
    requires StartsAt(start, i)
    ensures Holds(Apply(content, start, salvage), start, i, [], salvage)
  {
  }

  lemma EndSnoc(since: seq<ProxyEvent>, e: ProxyEvent, i: nat, kind: Kind, k: int)
    ensures NoEnd(since + [e], i, kind) <==> NoEnd(since, i, kind) && !Ends(e, i, kind)
    ensures NoDelta(since + [e], i) <==> NoDelta(since, i) && !(e.BlockDelta? && e.i == i)
    ensures LastEnd(since + [e], i, kind, k) <==> if Ends(e, i, kind) then k == |since| else LastEnd(since, i, kind, k)
  {
    var longer := since + [e];
    assert longer[|since|] == e && forall n :: 0 <= n < |since| ==> longer[n] == since[n];
    if 0 <= k < |since| {
      assert longer[k + 1..] == since[k + 1..] + [e];
      var late := since[k + 1..];
      assert (late + [e])[|late|] == e && forall n :: 0 <= n < |late| ==> (late + [e])[n] == late[n];
    } else if k == |since| {
      assert longer[k + 1..] == [];
    }
  }

  lemma ProseHoldsOn(block: Block, kind: Kind, i: nat, since: seq<ProxyEvent>, e: ProxyEvent)
    requires !block.ToolBlock? && ProseHolds(block, kind, i, since)
    ensures ProseHolds(if e.BlockDelta? && e.i == i then block.(text := block.text + e.delta)
                       else if Ends(e, i, kind) then block.(signature := e.signature) else block,
                       kind, i, since + [e])
  {
    hide Joined, LastEnd, NoEnd;
    JoinedSnoc(since, e, i);
    EndSnoc(since, e, i, kind, 0);
    forall k
      ensures LastEnd(since + [e], i, kind, k) <==>
              if Ends(e, i, kind) then k == |since| else LastEnd(since, i, kind, k)
    {
      EndSnoc(since, e, i, kind, k);
    }
    forall k | LastEnd(since, i, kind, k) ensures 0 <= k < |since| && (since + [e])[k] == since[k] {
      LastEndIsThere(since, i, kind, k);
    }
  }

  lemma LastEndIsThere(since: seq<ProxyEvent>, i: nat, kind: Kind, k: int)
    requires LastEnd(since, i, kind, k)
    ensures 0 <= k < |since|
  {
  }

  lemma NothingLate(i: nat)
    ensures NoDelta([], i) && NoEnd([], i, ToolKind) && Joined([], i) == ""
  {
  }

  lemma {:induction false} NoDeltaJoins(events: seq<ProxyEvent>, i: nat)
    ensures NoDelta(events, i) ==> Joined(events, i) == ""
  {
    if NoDelta(events, i) && events != [] {
      NoDeltaJoins(events[..|events| - 1], i);
    }
  }

  function JsonAfter(block: Block, delta: string): string
    requires block.ToolBlock?
  {
    (if block.json.Some? then block.json.value else "undefined") + delta
  }

  lemma CallHoldsOn(block: Block, start: ProxyEvent, i: nat, since: seq<ProxyEvent>, e: ProxyEvent,
                    salvage: string -> string)
    requires block.ToolBlock? && start.BlockStart? && CallHolds(block, start, i, since, salvage)
    ensures CallHolds(if e.BlockDelta? && e.i == i then
                        block.(json := Some(JsonAfter(block, e.delta)), arguments := salvage(JsonAfter(block, e.delta)))
                      else if Ends(e, i, ToolKind) then block.(json := None) else block, start, i, since + [e], salvage)
  {
    hide Joined, LastEnd, NoEnd, NoDelta;
    var all := since + [e];
    JoinedSnoc(since, e, i);
    EndSnoc(since, e, i, ToolKind, 0);
    forall k
      ensures LastEnd(all, i, ToolKind, k) <==>
              if Ends(e, i, ToolKind) then k == |since| else LastEnd(since, i, ToolKind, k)
    {
      EndSnoc(since, e, i, ToolKind, k);
    }
    assert all[|since| + 1..] == [] && all[..|since|] == since;
    NothingLate(i);
    forall k | LastEnd(since, i, ToolKind, k)
      ensures 0 <= k < |since| && all[..k] == since[..k]
      ensures NoDelta(all[k + 1..], i) <==> NoDelta(since[k + 1..], i) && !(e.BlockDelta? && e.i == i)
      ensures "undefined" + Joined(all[k + 1..], i) ==
              if e.BlockDelta? && e.i == i then "undefined" + Joined(since[k + 1..], i) + e.delta
              else "undefined" + Joined(since[k + 1..], i)
      ensures NoDelta(since[k + 1..], i) ==> "undefined" + Joined(since[k + 1..], i) == "undefined"
    {
      LastEndIsThere(since, i, ToolKind, k);
      assert all[k + 1..] == since[k + 1..] + [e];
      JoinedSnoc(since[k + 1..], e, i);
      EndSnoc(since[k + 1..], e, i, ToolKind, 0);
      NoDeltaJoins(since[k + 1..], i);
    }
    if e.BlockDelta? && e.i == i {
      var json := JsonAfter(block, e.delta);
      assert CallHolds(block.(json := Some(json), arguments := salvage(json)), start, i, all, salvage);
    } else if Ends(e, i, ToolKind) {
      assert CallHolds(block.(json := None), start, i, all, salvage);
    } else {
      assert CallHolds(block, start, i, all, salvage);
    }
  }

  lemma HoldsOn(content: map<nat, Block>, start: ProxyEvent, i: nat, since: seq<ProxyEvent>, e: ProxyEvent,
                salvage: string -> string)
    requires start.BlockStart? && Holds(content, start, i, since, salvage)
    requires !StartsAt(e, i) && !Refused(content, e)
    ensures Holds(Apply(content, e, salvage), start, i, since + [e], salvage)
  {
    hide ProseHolds, CallHolds;
    if content[i].ToolBlock? {
      CallHoldsOn(content[i], start, i, since, e, salvage);
    } else {
      ProseHoldsOn(content[i], start.kind, i, since, e);
    }
  }

  /** At every index that was started there is a block of the kind of its latest start; text and thinking hold
      exactly the deltas for that index since then, and so does the JSON of a tool call until it ends. */
  lemma {:induction false} BlockHoldsItsDeltas(events: seq<ProxyEvent>, s: nat, i: nat, salvage: string -> string)
    requires Accepted(events, salvage)
    requires s < |events| && StartsAt(events[s], i)
    requires forall n :: s < n < |events| ==> !StartsAt(events[n], i)
    ensures Holds(Replay(events, salvage), events[s], i, events[s + 1..], salvage)
    decreases |events|
  {
    hide Holds, Apply, Refused, Accepted;
    var last := events[|events| - 1];
    var before := events[..|events| - 1];
    if s == |events| - 1 {
      assert events[s + 1..] == [];
      HoldsAtStart(Replay(before, salvage), last, i, salvage);
    } else {
      AcceptedPrefix(events, salvage);
      BlockHoldsItsDeltas(before, s, i, salvage);
      HoldsOn(Replay(before, salvage), events[s], i, before[s + 1..], last, salvage);
      assert before[s + 1..] + [last] == events[s + 1..];
    }
  }

  lemma AcceptedPrefix(events: seq<ProxyEvent>, salvage: string -> string)
    requires Accepted(events, salvage) && events != []
    ensures Accepted(events[..|events| - 1], salvage)
    ensures !Refused(Replay(events[..|events| - 1], salvage), events[|events| - 1])
  {
    hide Refused, Replay;
    var before := events[..|events| - 1];
    forall n | 0 <= n < |before|
      ensures !Refused(Replay(before[..n], salvage), before[n])
    {
      assert before[..n] == events[..n];
    }
  }

  /** There is a block at an index only after a start. */
  lemma {:induction false} NoBlockWithoutStart(events: seq<ProxyEvent>, i: nat, salvage: string -> string)
    requires forall n :: 0 <= n < |events| ==> !StartsAt(events[n], i)
    ensures i !in Replay(events, salvage)
  {
    if events != [] {
      var last := events[|events| - 1];
      assert !StartsAt(last, i);
      NoBlockWithoutStart(events[..|events| - 1], i, salvage);
    }
  }

  /** The events about one index. */
  function Only(events: seq<ProxyEvent>, i: nat): seq<ProxyEvent> {
    if events == [] then []
    else
      Only(events[..|events| - 1], i) + (if About(events[|events| - 1], i) then [events[|events| - 1]] else [])
  }

  predicate SameAt(a: map<nat, Block>, b: map<nat, Block>, i: nat) {
    (i in a <==> i in b) && (i in a ==> a[i] == b[i])
  }

  /** The block at an index depends on nothing but the events about that index, however they are interleaved. */
  lemma {:induction false} BlocksAreIndependent(events: seq<ProxyEvent>, i: nat, salvage: string -> string)
    ensures SameAt(Replay(events, salvage), Replay(Only(events, i), salvage), i)
  {
    if events != [] {
      hide Apply, About, SameAt;
      var before := events[..|events| - 1];
      var last := events[|events| - 1];
      BlocksAreIndependent(before, i, salvage);
      if About(last, i) {
        ReplaySnoc(Only(before, i), last, salvage);
        SameAfter(Replay(before, salvage), Replay(Only(before, i), salvage), last, i, salvage);
      } else {
        assert Only(events, i) == Only(before, i);
        OthersUntouched(Replay(before, salvage), Replay(Only(before, i), salvage), last, i, salvage);
      }
    } else {
      assert Only(events, i) == events;
    }
  }

  lemma ReplaySnoc(events: seq<ProxyEvent>, e: ProxyEvent, salvage: string -> string)
    ensures Replay(events + [e], salvage) == Apply(Replay(events, salvage), e, salvage)
  {
    assert (events + [e])[..|events|] == events;
  }

  lemma SameAfter(a: map<nat, Block>, b: map<nat, Block>, e: ProxyEvent, i: nat, salvage: string -> string)
    requires About(e, i) && SameAt(a, b, i)
    ensures SameAt(Apply(a, e, salvage), Apply(b, e, salvage), i)
  {
  }

  lemma OthersUntouched(a: map<nat, Block>, b: map<nat, Block>, e: ProxyEvent, i: nat, salvage: string -> string)
    requires !About(e, i) && SameAt(a, b, i)
    ensures SameAt(Apply(a, e, salvage), b, i)
  {
  }

  // ----- reading the stream -----

  function Trim(s: string): string {
    if s != "" && IsSpace(s[0]) then Trim(s[1..])
    else if s != "" && IsSpace(s[|s| - 1]) then Trim(s[..|s| - 1])
    else s
  }

  const DATA_PREFIX: string := "data: "

  /** What a line of the stream carries. */
  function Payload(line: string): Option<string> {
    if DATA_PREFIX <= line && Trim(line[|DATA_PREFIX|..]) != "" then Some(Trim(line[|DATA_PREFIX|..])) else None
  }

  /** The lines of a text that are complete, and what follows the last of them. */
  function Lines(s: string): seq<string> {
    var parts := Split(s, '\n');
    parts[..|parts| - 1]
  }

  function Rest(s: string): string {
    var parts := Split(s, '\n');
    parts[|parts| - 1]
  }

  /** A character put before the first part. */
  function Prepend(c: char, parts: seq<string>): (r: seq<string>)
    requires parts != []
    ensures |r| > 0
  {
    if c == '\n' then [""] + parts else [[c] + parts[0]] + parts[1..]
  }

  lemma SplitStep(s: string)
    requires s != ""
    ensures Split(s, '\n') == Prepend(s[0], Split(s[1..], '\n'))
  {
  }

  lemma PrependAcross(c: char, parts: seq<string>, tail: seq<string>)
    requires |parts| > 1 || (parts != [] && c == '\n')
    requires tail != []
    ensures var all := Prepend(c, parts);
            && all[|all| - 1] == parts[|parts| - 1]
            && Prepend(c, parts[..|parts| - 1] + tail) == all[..|all| - 1] + tail
  {
  }

  lemma {:induction false} SplitAcross(a: string, b: string)
    ensures Split(a + b, '\n') == Lines(a) + Split(Rest(a) + b, '\n')
    decreases |a|
  {
    hide Split, Prepend;
    if |Split(a, '\n')| == 1 {
      SplitJoins(a, '\n');
    } else {
      if a == "" {
        SplitWithout("", '\n');
      }
      SplitStep(a);
      SplitStep(a + b);
      assert (a + b)[1..] == a[1..] + b;
      SplitAcross(a[1..], b);
      MoreParts(a[0], Split(a[1..], '\n'));
      PrependAcross(a[0], Split(a[1..], '\n'), Split(Rest(a[1..]) + b, '\n'));
    }
  }

  lemma MoreParts(c: char, parts: seq<string>)
    requires parts != [] && |Prepend(c, parts)| > 1
    ensures |parts| > 1 || c == '\n'
  {
  }

  /** Cutting a text anywhere: the rest of the first piece is completed by the second. */
  lemma LinesAcross(a: string, b: string)
    ensures Lines(a + b) == Lines(a) + Lines(Rest(a) + b)
    ensures Rest(a + b) == Rest(Rest(a) + b)
  {
    SplitAcross(a, b);
  }

  datatype Decoded = Event(event: ProxyEvent) | Malformed(message: string)

  /** What the events so far have made of the message, and whether an exception ended the reading. */
  datatype Trace = Trace(message: Message, pushed: seq<Pushed>, failed: bool)

  function RefusalMessage(e: ProxyEvent): string
    requires e.BlockDelta? || e.BlockEnd?
  {
    match e.kind
    case TextKind =>
      if e.BlockDelta? then "Received text_delta for non-text content" else "Received text_end for non-text content"
    case ThinkingKind =>
      if e.BlockDelta? then "Received thinking_delta for non-thinking content"
      else "Received thinking_end for non-thinking content"
    case ToolKind => "Received toolcall_delta for non-toolCall content"
  }

  function Fail(t: Trace, message: string): Trace {
    Trace(t.message.(stopReason := "error", errorMessage := Some(message)), t.pushed + [Failure(message)], true)
  }

  function PushedBy(before: map<nat, Block>, e: ProxyEvent, after: map<nat, Block>): seq<Pushed> {
    if Ignored(before, e) then []
    else if e.BlockEnd? && e.i in after then [Ended(e.i, after[e.i])]
    else [Echo(e)]
  }

  function OnEvent(t: Trace, e: ProxyEvent, salvage: string -> string): Trace {
    if Refused(t.message.content, e) then Fail(t, RefusalMessage(e))
    else
      var content := Apply(t.message.content, e, salvage);
      var message := Message(content, if e.Done? || e.Error? then e.reason else t.message.stopReason,
                             if e.Error? then e.errorMessage else t.message.errorMessage);
      Trace(message, t.pushed + PushedBy(t.message.content, e, content), false)
  }

  function OnLine(t: Trace, line: string, decode: string -> Decoded, salvage: string -> string): Trace {
    if t.failed || Payload(line).None? then t
    else
      match decode(Payload(line).value)
      case Malformed(message) => Fail(t, message)
      case Event(e) => OnEvent(t, e, salvage)
  }

  function OnLines(t: Trace, lines: seq<string>, decode: string -> Decoded, salvage: string -> string): Trace {
    if lines == [] then t
    else OnLine(OnLines(t, lines[..|lines| - 1], decode, salvage), lines[|lines| - 1], decode, salvage)
  }

  lemma {:induction false} OnMoreLines(t: Trace, a: seq<string>, b: seq<string>, decode: string -> Decoded,
                                       salvage: string -> string)
    ensures OnLines(t, a + b, decode, salvage) == OnLines(OnLines(t, a, decode, salvage), b, decode, salvage)
    decreases |b|
  {
    if b == [] {
      assert a + b == a;
    } else {
      assert (a + b)[..|a + b| - 1] == a + b[..|b| - 1];
      OnMoreLines(t, a, b[..|b| - 1], decode, salvage);
    }
  }

  lemma {:induction false} FailedStays(t: Trace, lines: seq<string>, decode: string -> Decoded,
                                       salvage: string -> string)
    requires t.failed
    ensures OnLines(t, lines, decode, salvage) == t
  {
    if lines != [] {
      FailedStays(t, lines[..|lines| - 1], decode, salvage);
    }
  }

  // ----- what a stream comes to -----

  /** The lines are those of the text: joined again they give it back, and no line holds a line feed. */
  lemma LinesMakeUp(s: string)
    ensures Join(Lines(s) + [Rest(s)], '\n') == s
    ensures '\n' !in Rest(s) && forall line <- Lines(s) :: '\n' !in line
  {
    SplitJoins(s, '\n');
    SplitParts(s, '\n');
    assert Lines(s) + [Rest(s)] == Split(s, '\n');
  }

  lemma {:induction false} SplitParts(s: string, sep: char)
    ensures forall part <- Split(s, sep) :: sep !in part
    decreases |s|
  {
    if s != "" {
      SplitParts(s[1..], sep);
      var rest := Split(s[1..], sep);
      assert rest[0] in rest && forall part <- rest[1..] :: part in rest;
    }
  }

  predicate AllSpace(s: string) { forall c <- s :: IsSpace(c) }

  /** Trimming takes white space from both ends, and all of it. */
  lemma {:induction false} TrimIsInner(s: string) returns (a: string, b: string)
    ensures s == a + Trim(s) + b && AllSpace(a) && AllSpace(b)
    ensures Trim(s) != "" ==> !IsSpace(Trim(s)[0]) && !IsSpace(Trim(s)[|Trim(s)| - 1])
    decreases |s|
  {
    hide IsSpace;
    if s != "" && IsSpace(s[0]) {
      a, b := TrimIsInner(s[1..]);
      a := [s[0]] + a;
    } else if s != "" && IsSpace(s[|s| - 1]) {
      a, b := TrimIsInner(s[..|s| - 1]);
      b := b + [s[|s| - 1]];
      assert s == a + Trim(s) + b;
    } else {
      a, b := "", "";
    }
  }

  /** The lines that carry nothing. */
  lemma PayloadMeans(line: string)
    ensures Payload(line).None? <==> !("data: " <= line && exists c :: c in line[6..] && !IsSpace(c))
    ensures Payload(line).Some? ==> Payload(line).value == Trim(line[6..])
  {
    hide IsSpace;
    if "data: " <= line {
      var inner := line[6..];
      var a, b := TrimIsInner(inner);
      if Trim(inner) != "" {
        assert Trim(inner)[0] in inner;
      }
    }
  }

  /** The events the lines carry. */
  function Carried(lines: seq<string>, decode: string -> Decoded): seq<ProxyEvent> {
    if lines == [] then []
    else
      var last := Payload(lines[|lines| - 1]);
      Carried(lines[..|lines| - 1], decode)
      + (if last.Some? && decode(last.value).Event? then [decode(last.value).event] else [])
  }

  predicate Decodes(lines: seq<string>, decode: string -> Decoded) {
    forall line <- lines :: Payload(line).Some? ==> decode(Payload(line).value).Event?
  }

  const START: Trace := Trace(Message(map[], "pending", None), [], false)

  predicate Closes(e: ProxyEvent) { e.Done? || e.Error? }

  predicate NoneCloses(events: seq<ProxyEvent>) { forall n :: 0 <= n < |events| ==> !Closes(events[n]) }

  predicate NoError(events: seq<ProxyEvent>) { forall n :: 0 <= n < |events| ==> !events[n].Error? }

  predicate LastClose(events: seq<ProxyEvent>, k: int) {
    0 <= k < |events| && Closes(events[k]) && NoneCloses(events[k + 1..])
  }

  predicate LastError(events: seq<ProxyEvent>, k: int) {
    0 <= k < |events| && events[k].Error? && NoError(events[k + 1..])
  }

  /** The stop reason is that of the last event that closes the message, the error that of the last error. */
  ghost predicate ClosedBy(message: Message, events: seq<ProxyEvent>) {
    && (NoneCloses(events) ==> message.stopReason == "pending")
    && (forall k :: LastClose(events, k) ==> message.stopReason == events[k].reason)
    && (NoError(events) ==> message.errorMessage == None)
    && (forall k :: LastError(events, k) ==> message.errorMessage == events[k].errorMessage)
  }

  /** Every event is passed on as it came, except that the end of a block brings the block as it then stands and the
      end of a call that is not there brings nothing. */
  ghost predicate PassedOn(pushed: seq<Pushed>, events: seq<ProxyEvent>, salvage: string -> string)
    decreases |events|
  {
    if events == [] then pushed == []
    else
      var before, e := events[..|events| - 1], events[|events| - 1];
      if Ignored(Replay(before, salvage), e) then PassedOn(pushed, before, salvage)
      else
        && pushed != [] && PassedOn(pushed[..|pushed| - 1], before, salvage)
        && if e.BlockEnd?
           then pushed[|pushed| - 1].Ended? && pushed[|pushed| - 1].i == e.i && e.i in Replay(events, salvage)
                && pushed[|pushed| - 1].block == Replay(events, salvage)[e.i]
           else pushed[|pushed| - 1] == Echo(e)
  }

  lemma CloseSnoc(events: seq<ProxyEvent>, e: ProxyEvent, k: int)
    ensures NoneCloses(events + [e]) <==> NoneCloses(events) && !Closes(e)
    ensures NoError(events + [e]) <==> NoError(events) && !e.Error?
    ensures LastClose(events + [e], k) <==> if Closes(e) then k == |events| else LastClose(events, k)
    ensures LastError(events + [e], k) <==> if e.Error? then k == |events| else LastError(events, k)
    ensures 0 <= k < |events| ==> (events + [e])[k] == events[k]
  {
    var all := events + [e];
    assert all[|events|] == e && forall n :: 0 <= n < |events| ==> all[n] == events[n];
    if 0 <= k < |events| {
      var late := events[k + 1..];
      assert all[k + 1..] == late + [e];
      assert (late + [e])[|late|] == e && forall n :: 0 <= n < |late| ==> (late + [e])[n] == late[n];
    } else if k == |events| {
      assert all[k + 1..] == [];
    }
  }

  lemma ClosedSnoc(message: Message, events: seq<ProxyEvent>, e: ProxyEvent)
    requires ClosedBy(message, events)
    ensures ClosedBy(message.(stopReason := if Closes(e) then e.reason else message.stopReason,
                              errorMessage := if e.Error? then e.errorMessage else message.errorMessage), events + [e])
  {
    hide NoneCloses, NoError, LastClose, LastError;
    var all := events + [e];
    CloseSnoc(events, e, 0);
    forall k
      ensures LastClose(all, k) <==> if Closes(e) then k == |events| else LastClose(events, k)
      ensures LastError(all, k) <==> if e.Error? then k == |events| else LastError(events, k)
    {
      CloseSnoc(events, e, k);
    }
    forall k | LastClose(events, k) || LastError(events, k) ensures 0 <= k < |events| && all[k] == events[k] {
      LastIsThere(events, k);
      CloseSnoc(events, e, k);
    }
  }

  lemma LastIsThere(events: seq<ProxyEvent>, k: int)
    requires LastClose(events, k) || LastError(events, k)
    ensures 0 <= k < |events|
  {
  }

  /** A stream whose lines all decode and whose events are all accepted: the message is what the events replay. */
  lemma {:induction false} StreamAccepted(lines: seq<string>, decode: string -> Decoded, salvage: string -> string)
    requires Decodes(lines, decode) && Accepted(Carried(lines, decode), salvage)
    ensures var t, events := OnLines(START, lines, decode, salvage), Carried(lines, decode);
      && !t.failed && t.message.content == Replay(events, salvage)
      && ClosedBy(t.message, events) && PassedOn(t.pushed, events, salvage)
  {
    if lines != [] {
      var init, line := lines[..|lines| - 1], lines[|lines| - 1];
      assert forall l <- init :: l in lines;
      var events := Carried(init, decode);
      if Payload(line).None? {
        assert Carried(lines, decode) == events + [] == events;
        StreamAccepted(init, decode, salvage);
      } else {
        assert line in lines;
        var e := decode(Payload(line).value).event;
        var all := Carried(lines, decode);
        assert all == events + [e] && all[..|all| - 1] == events && all[|all| - 1] == e;
        AcceptedPrefix(all, salvage);
        StreamAccepted(init, decode, salvage);
        EventIsTraced(OnLines(START, init, decode, salvage), events, e, salvage);
      }
    }
  }

  lemma EventIsTraced(t: Trace, events: seq<ProxyEvent>, e: ProxyEvent, salvage: string -> string)
    requires !t.failed && t.message.content == Replay(events, salvage) && !Refused(t.message.content, e)
    requires ClosedBy(t.message, events) && PassedOn(t.pushed, events, salvage)
    ensures var u := OnEvent(t, e, salvage);
      && !u.failed && u.message.content == Replay(events + [e], salvage)
      && ClosedBy(u.message, events + [e]) && PassedOn(u.pushed, events + [e], salvage)
  {
    hide ClosedBy, Apply, Ignored, Refused, PassedOn;
    var all, u := events + [e], OnEvent(t, e, salvage);
    ReplaySnoc(events, e, salvage);
    ClosedSnoc(t.message, events, e);
    ClosedIgnoresContent(u.message, t.message.(stopReason := if Closes(e) then e.reason else t.message.stopReason,
                         errorMessage := if e.Error? then e.errorMessage else t.message.errorMessage), all);
    PassedSnoc(t.pushed, events, e, salvage);
  }

  lemma PassedSnoc(pushed: seq<Pushed>, events: seq<ProxyEvent>, e: ProxyEvent, salvage: string -> string)
    requires PassedOn(pushed, events, salvage) && !Refused(Replay(events, salvage), e)
    ensures var before := Replay(events, salvage);
      PassedOn(pushed + PushedBy(before, e, Apply(before, e, salvage)), events + [e], salvage)
  {
    var all := events + [e];
    var before := Replay(events, salvage);
    var more := PushedBy(before, e, Apply(before, e, salvage));
    assert all[..|all| - 1] == events && all[|all| - 1] == e;
    ReplaySnoc(events, e, salvage);
    if Ignored(before, e) {
      assert pushed + more == pushed;
    } else {
      assert (pushed + more)[..|pushed + more| - 1] == pushed;
    }
  }

  lemma ClosedIgnoresContent(a: Message, b: Message, events: seq<ProxyEvent>)
    requires a.stopReason == b.stopReason && a.errorMessage == b.errorMessage && ClosedBy(b, events)
    ensures ClosedBy(a, events)
  {
  }

  /** The first line that does not decode, or whose event is refused, ends the reading: what came before stands, the
      message stops with an error, and nothing behind it counts. */
  lemma StreamFails(lines: seq<string>, n: nat, decode: string -> Decoded, salvage: string -> string)
    requires n < |lines| && Decodes(lines[..n], decode) && Accepted(Carried(lines[..n], decode), salvage)
    requires Payload(lines[n]).Some?
    requires var d := decode(Payload(lines[n]).value);
      d.Malformed? || Refused(Replay(Carried(lines[..n], decode), salvage), d.event)
    ensures var t, d := OnLines(START, lines, decode, salvage), decode(Payload(lines[n]).value);
      && t.failed && t.message.content == Replay(Carried(lines[..n], decode), salvage)
      && t.message.stopReason == "error"
      && t.message.errorMessage == Some(if d.Malformed? then d.message else RefusalMessage(d.event))
      && t.pushed != [] && t.pushed[|t.pushed| - 1] == Failure(t.message.errorMessage.value)
      && PassedOn(t.pushed[..|t.pushed| - 1], Carried(lines[..n], decode), salvage)
  {
    hide Payload, ClosedBy, PassedOn, Replay, Carried, Decodes, Accepted, Refused;
    var upto, read := lines[..n + 1], lines[..n];
    assert upto == read + [lines[n]] && upto[..|upto| - 1] == read && lines == upto + lines[n + 1..];
    StreamAccepted(read, decode, salvage);
    var t := OnLines(START, upto, decode, salvage);
    assert t == OnLine(OnLines(START, read, decode, salvage), lines[n], decode, salvage);
    assert t.pushed[..|t.pushed| - 1] == OnLines(START, read, decode, salvage).pushed;
    OnMoreLines(START, upto, lines[n + 1..], decode, salvage);
    FailedStays(t, lines[n + 1..], decode, salvage);
  }

  ghost predicate Agrees(partial: PartialMessage, pushed: seq<Pushed>, failed: bool, t: Trace)
    reads partial
  {
    t == Trace(Message(partial.content, partial.stopReason, partial.errorMessage), pushed, failed)
  }

  /** One line of the stream. */
  method ProcessLine(partial: PartialMessage, line: string, decode: string -> Decoded, salvage: string -> string,
                     pushed0: seq<Pushed>, ghost t: Trace)
    returns (pushed: seq<Pushed>, failed: bool)
    requires Agrees(partial, pushed0, false, t)
    modifies partial
    ensures Agrees(partial, pushed, failed, OnLine(t, line, decode, salvage))
  {
    pushed, failed := pushed0, false;
    var payload := Payload(line);
    if payload.None? {
      return;
    }
    var decoded := decode(payload.value);
    var message;
    if decoded.Event? {
      var events, thrown := partial.Process(decoded.event, salvage);
      if !thrown {
        pushed := pushed0 + events;
        return;
      }
      message := RefusalMessage(decoded.event);
    } else {
      message := decoded.message;
    }
    partial.stopReason, partial.errorMessage := "error", Some(message);
    pushed, failed := pushed0 + [Failure(message)], true;
  }

  /** The read loop of `streamProxy`. What it makes of the message, and what it pushes, depends on the text
      received alone and not on how it was cut into chunks. */
  method ReadStream(partial: PartialMessage, chunks: seq<string>, decode: string -> Decoded, salvage: string -> string)
    returns (pushed: seq<Pushed>, failed: bool)
    modifies partial
    ensures Agrees(partial, pushed, failed,
                   OnLines(old(Trace(Message(partial.content, partial.stopReason, partial.errorMessage), [], false)),
                           Lines(Concat(chunks)), decode, salvage))
  {
    hide Agrees, OnLine, Lines, Rest;
    ghost var t0 := Trace(Message(partial.content, partial.stopReason, partial.errorMessage), [], false);
    pushed, failed := [], false;
    var buffer := "";
    Begins(partial, t0, decode, salvage);
    var i := 0;
    while i < |chunks|
      invariant i <= |chunks| && !failed && buffer == Rest(Concat(chunks[..i]))
      invariant Agrees(partial, pushed, failed, OnLines(t0, Lines(Concat(chunks[..i])), decode, salvage))
    {
      ghost var before := Concat(chunks[..i]);
      assert chunks[..i + 1] == chunks[..i] + [chunks[i]];
      ConcatSnoc(chunks[..i], chunks[i]);
      LinesAcross(before, chunks[i]);
      OnMoreLines(t0, Lines(before), Lines(buffer + chunks[i]), decode, salvage);
      var lines := Lines(buffer + chunks[i]);
      buffer := Rest(buffer + chunks[i]);
      pushed, failed := ProcessLines(partial, lines, decode, salvage, pushed,
                                     OnLines(t0, Lines(before), decode, salvage));
      i := i + 1;
      if failed {
        FailedEarly(partial, pushed, chunks, i, t0, decode, salvage);
        return;
      }
    }
    assert chunks[..|chunks|] == chunks;
  }

  lemma Begins(partial: PartialMessage, t0: Trace, decode: string -> Decoded, salvage: string -> string)
    requires t0 == Trace(Message(partial.content, partial.stopReason, partial.errorMessage), [], false)
    ensures Agrees(partial, [], false, OnLines(t0, Lines(""), decode, salvage)) && Rest("") == ""
  {
  }

  lemma FailedEarly(partial: PartialMessage, pushed: seq<Pushed>, chunks: seq<string>, i: nat, t0: Trace,
                    decode: string -> Decoded, salvage: string -> string)
    requires i <= |chunks|
    requires Agrees(partial, pushed, true, OnLines(t0, Lines(Concat(chunks[..i])), decode, salvage))
    ensures Agrees(partial, pushed, true, OnLines(t0, Lines(Concat(chunks)), decode, salvage))
  {
    hide OnLines, OnLine, Lines, Rest, Concat;
    ConcatPrefix(chunks, i);
    var before, all := Concat(chunks[..i]), Concat(chunks);
    assert all == before + all[|before|..];
    LinesAcross(before, all[|before|..]);
    OnMoreLines(t0, Lines(before), Lines(Rest(before) + all[|before|..]), decode, salvage);
    FailedStays(OnLines(t0, Lines(before), decode, salvage), Lines(Rest(before) + all[|before|..]), decode, salvage);
  }

  /** The complete lines of one chunk, up to the first exception. */
  method ProcessLines(partial: PartialMessage, lines: seq<string>, decode: string -> Decoded, salvage: string -> string,
                      pushed0: seq<Pushed>, ghost t: Trace)
    returns (pushed: seq<Pushed>, failed: bool)
    requires Agrees(partial, pushed0, false, t)
    modifies partial
    ensures Agrees(partial, pushed, failed, OnLines(t, lines, decode, salvage))
  {
    hide Agrees, OnLine;
    pushed, failed := pushed0, false;
    var i := 0;
    while i < |lines|
      invariant i <= |lines| && !failed
      invariant Agrees(partial, pushed, failed, OnLines(t, lines[..i], decode, salvage))
    {
      assert lines[..i + 1][..i] == lines[..i];
      pushed, failed := ProcessLine(partial, lines[i], decode, salvage, pushed,
                                    OnLines(t, lines[..i], decode, salvage));
      i := i + 1;
      if failed {
        FailedInLines(partial, pushed, lines, i, t, decode, salvage);
        return;
      }
    }
    assert lines[..|lines|] == lines;
  }

  lemma FailedInLines(partial: PartialMessage, pushed: seq<Pushed>, lines: seq<string>, i: nat, t: Trace,
                      decode: string -> Decoded, salvage: string -> string)
    requires i <= |lines| && Agrees(partial, pushed, true, OnLines(t, lines[..i], decode, salvage))
    ensures Agrees(partial, pushed, true, OnLines(t, lines, decode, salvage))
  {
    hide OnLines, OnLine;
    assert lines == lines[..i] + lines[i..];
    OnMoreLines(t, lines[..i], lines[i..], decode, salvage);
    FailedStays(OnLines(t, lines[..i], decode, salvage), lines[i..], decode, salvage);
  }
}
