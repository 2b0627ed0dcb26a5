/** What the messages and tool events of a transcript say, block by block. */
module TranscriptLaws {
  import opened Wrappers
  import opened Sequences
  import opened Transcript

  // ---------- places ----------

  /** A block, by the index of its event and its own. */
  type Place = (nat, nat)

  predicate Precedes(p: Place, q: Place) {
    p.0 < q.0 || (p.0 == q.0 && p.1 < q.1)
  }

  ghost predicate InOrder(at: seq<Place>) {
    forall j, k :: 0 <= j < k < |at| ==> Precedes(at[j], at[k])
  }

  ghost predicate Reaches(at: seq<Place>, p: Place) {
    exists k :: 0 <= k < |at| && at[k] == p
  }

  /** The block is a tool call of an event of the message; events without an id or
      without usage are of no message. */
  ghost predicate IsCallAt(events: seq<Event>, p: Place, call: Call, id: string) {
    && id != "" && p.0 < |events| && events[p.0].Assistant?
    && events[p.0].id == id && events[p.0].usage.Some?
    && p.1 < |events[p.0].content| && events[p.0].content[p.1] == ToolUse(call)
  }

  /** The block is a result of a tool call, in an event of the user. */
  ghost predicate IsResultAt(events: seq<Event>, p: Place, id: string, text: string) {
    p.0 < |events| && events[p.0].User?
    && p.1 < |events[p.0].content| && events[p.0].content[p.1] == ToolResult(id, text)
  }

  // ---------- the calls of one event ----------

  predicate IsUse(b: Block) {
    b.ToolUse?
  }

  predicate UseOf(b: Block, c: Call) {
    b == ToolUse(c)
  }

  /** The calls of an event are its tool_use blocks, each once and in order. */
  lemma {:induction false} CallsAreTheToolUses(content: seq<Block>)
    ensures Picked(content, IsUse, UseOf, ToolUses(content))
    ensures |ToolUses(content)| == Kept(content, IsUse)
  {
    if content == [] {
      NothingPicked<Block, Call>(IsUse, UseOf);
    } else {
      var init, last := Init(content), Last(content);
      CallsAreTheToolUses(init);
      PickedLast(init, last, IsUse, UseOf, ToolUses(init), if last.ToolUse? then [last.call] else []);
      assert init + [last] == content;
    }
  }

  // ---------- the calls of one message ----------

  /** The calls stand at these places, and no other call of the message stands anywhere. */
  ghost predicate StandAt(events: seq<Event>, id: string, calls: seq<Call>, at: seq<Place>) {
    && |at| == |calls| && InOrder(at)
    && (forall k :: 0 <= k < |at| ==> IsCallAt(events, at[k], calls[k], id))
    && (forall p, call :: IsCallAt(events, p, call, id) ==> Reaches(at, p))
  }

  lemma NoMoreCalls(events: seq<Event>, e: Event, id: string, calls: seq<Call>, at: seq<Place>)
    requires StandAt(events, id, calls, at) && !(Counted(e) && e.id == id)
    ensures StandAt(events + [e], id, calls, at)
  {
    forall p, call | IsCallAt(events + [e], p, call, id)
      ensures Reaches(at, p)
    {
      assert IsCallAt(events, p, call, id);
    }
    forall k | 0 <= k < |at|
      ensures IsCallAt(events + [e], at[k], calls[k], id)
    {
      assert IsCallAt(events, at[k], calls[k], id);
    }
  }

  function InEvent(e: nat, blocks: seq<nat>): seq<Place> {
    seq(|blocks|, k requires 0 <= k < |blocks| => (e, blocks[k]))
  }

  lemma MoreCallsInOrder(events: seq<Event>, id: string, calls: seq<Call>, at: seq<Place>, blocks: seq<nat>)
    requires StandAt(events, id, calls, at) && Increasing(blocks)
    ensures InOrder(at + InEvent(|events|, blocks))
  {
    var all := at + InEvent(|events|, blocks);
    forall j, k | 0 <= j < k < |all|
      ensures Precedes(all[j], all[k])
    {
      if j < |at| {
        assert IsCallAt(events, at[j], calls[j], id);
      }
    }
  }

  lemma MoreCallsReached(events: seq<Event>, e: Event, id: string, calls: seq<Call>, at: seq<Place>, blocks: seq<nat>,
                         p: Place, call: Call)
    requires StandAt(events, id, calls, at)
    requires Counted(e) && e.id == id && PickedAt(e.content, IsUse, UseOf, ToolUses(e.content), blocks)
    requires IsCallAt(events + [e], p, call, id)
    ensures Reaches(at + InEvent(|events|, blocks), p)
  {
    var all := at + InEvent(|events|, blocks);
    if p.0 < |events| {
      assert IsCallAt(events, p, call, id);
      var k :| 0 <= k < |at| && at[k] == p;
      assert all[k] == p;
    } else {
      assert Hits(blocks, p.1);
      var k :| 0 <= k < |blocks| && blocks[k] == p.1;
      assert all[|at| + k] == p;
    }
  }

  lemma MoreCalls(events: seq<Event>, e: Event, id: string, calls: seq<Call>, at: seq<Place>, blocks: seq<nat>)
    requires StandAt(events, id, calls, at)
    requires Counted(e) && e.id == id && PickedAt(e.content, IsUse, UseOf, ToolUses(e.content), blocks)
    ensures StandAt(events + [e], id, calls + ToolUses(e.content), at + InEvent(|events|, blocks))
  {
    MoreCallsInOrder(events, id, calls, at, blocks);
    var all, all' := at + InEvent(|events|, blocks), calls + ToolUses(e.content);
    forall k | 0 <= k < |all|
      ensures IsCallAt(events + [e], all[k], all'[k], id)
    {
      if k < |at| {
        assert IsCallAt(events, at[k], calls[k], id);
      } else {
        assert UseOf(e.content[blocks[k - |at|]], ToolUses(e.content)[k - |at|]);
      }
    }
    forall p, call | IsCallAt(events + [e], p, call, id)
      ensures Reaches(all, p)
    {
      MoreCallsReached(events, e, id, calls, at, blocks, p, call);
    }
  }

  /** The calls of a message are those of all its events, block after block. */
  lemma {:induction false} CallsStandInPlace(events: seq<Event>, id: string) returns (at: seq<Place>)
    ensures StandAt(events, id, CallsOf(events, id), at)
  {
    if events == [] {
      at := [];
    } else {
      var init, e := Init(events), Last(events);
      assert init + [e] == events;
      at := CallsStandInPlace(init, id);
      if Counted(e) && e.id == id {
        CallsAreTheToolUses(e.content);
        var blocks: seq<nat> :| PickedAt(e.content, IsUse, UseOf, ToolUses(e.content), blocks);
        MoreCalls(init, e, id, CallsOf(init, id), at, blocks);
        at := at + InEvent(|init|, blocks);
      } else {
        NoMoreCalls(init, e, id, CallsOf(init, id), at);
      }
    }
  }

  // ---------- no tool call is lost or repeated ----------

  lemma {:induction false} NamesOfCalls(calls: seq<Call>)
    ensures |Names(calls)| == |calls| && forall k :: 0 <= k < |calls| ==> Names(calls)[k] == calls[k].name
  {
    if calls == [] {
    } else {
      NamesOfCalls(Init(calls));
    }
  }

  /** A message's tools, with the places of the blocks that name them. */
  ghost predicate ToolsFrom(events: seq<Event>, id: string, tools: seq<string>, at: seq<Place>) {
    && |at| == |tools| && InOrder(at)
    && forall k :: 0 <= k < |at| ==> exists call :: IsCallAt(events, at[k], call, id) && tools[k] == call.name
  }

  ghost predicate IsMessage(events: seq<Event>, t: nat, id: string) {
    t < |FirstSeen(events)| && FirstSeen(events)[t] == id
  }

  /** The k-th tool of the t-th message comes from this place. */
  ghost predicate ComesFrom(places: seq<seq<Place>>, t: nat, k: nat, p: Place) {
    t < |places| && k < |places[t]| && places[t][k] == p
  }

  ghost predicate ReachesAll(events: seq<Event>, id: string, at: seq<Place>) {
    forall p, call :: IsCallAt(events, p, call, id) ==> Reaches(at, p)
  }

  /** The tools of the t-th message come from these places, and it has no other calls. */
  ghost predicate MessageFrom(events: seq<Event>, target: Targeting, t: nat, at: seq<Place>)
    requires t < |Messages(events, target)|
  {
    var id := FirstSeen(events)[t];
    ToolsFrom(events, id, Messages(events, target)[t].tools, at) && ReachesAll(events, id, at)
  }

  ghost predicate AllFrom(events: seq<Event>, target: Targeting, places: seq<seq<Place>>) {
    && |places| == |Messages(events, target)|
    && forall t :: 0 <= t < |places| ==> MessageFrom(events, target, t, places[t])
  }

  /** The places of a message's calls. */
  ghost function PlacesOf(events: seq<Event>, id: string): (at: seq<Place>)
    ensures StandAt(events, id, CallsOf(events, id), at)
  {
    CallsHavePlaces(events, id);
    var at :| StandAt(events, id, CallsOf(events, id), at);
    at
  }

  lemma CallsHavePlaces(events: seq<Event>, id: string)
    ensures exists at :: StandAt(events, id, CallsOf(events, id), at)
  {
    var at := CallsStandInPlace(events, id);
  }

  lemma ToolsOfMessage(events: seq<Event>, target: Targeting, t: nat)
    requires t < |Messages(events, target)|
    ensures MessageFrom(events, target, t, PlacesOf(events, FirstSeen(events)[t]))
  {
    var id := FirstSeen(events)[t];
    var at := PlacesOf(events, id);
    NamesOfCalls(CallsOf(events, id));
    forall k | 0 <= k < |at|
      ensures exists call :: IsCallAt(events, at[k], call, id) && Messages(events, target)[t].tools[k] == call.name
    {
      assert IsCallAt(events, at[k], CallsOf(events, id)[k], id);
    }
  }

  lemma CallIsOfASeenMessage(events: seq<Event>, p: Place, call: Call, id: string) returns (t: nat)
    requires IsCallAt(events, p, call, id)
    ensures t < |FirstSeen(events)| && FirstSeen(events)[t] == id
  {
    FirstSeenAreTheIds(events);
    assert Counted(events[p.0]) && events[p.0].id == id;
    assert id in FirstSeen(events);
    t :| 0 <= t < |FirstSeen(events)| && FirstSeen(events)[t] == id;
  }

  /** Main result: every tool_use block of an event that belongs to a message is exactly
      one tool of exactly one message, its own; and every tool of a message is such a
      block, block after block. */
  lemma NoCallLostOrRepeated(events: seq<Event>, target: Targeting) returns (places: seq<seq<Place>>)
    ensures AllFrom(events, target, places)
    ensures forall p, call, id :: IsCallAt(events, p, call, id) ==>
              exists t: nat, k: nat :: ComesFrom(places, t, k, p) && IsMessage(events, t, id)
    ensures forall p, t: nat, k: nat, t': nat, k': nat ::
              ComesFrom(places, t, k, p) && ComesFrom(places, t', k', p) ==> t == t' && k == k'
  {
    var ids := FirstSeen(events);
    places := seq(|ids|, t requires 0 <= t < |ids| => PlacesOf(events, ids[t]));
    forall t | 0 <= t < |places|
      ensures MessageFrom(events, target, t, places[t])
    {
      ToolsOfMessage(events, target, t);
    }
    forall p, call, id | IsCallAt(events, p, call, id)
      ensures exists t: nat, k: nat :: ComesFrom(places, t, k, p) && IsMessage(events, t, id)
    {
      var t := CallIsOfASeenMessage(events, p, call, id);
      assert MessageFrom(events, target, t, places[t]);
      assert Reaches(places[t], p);
      var k :| 0 <= k < |places[t]| && places[t][k] == p;
      assert ComesFrom(places, t, k, p);
    }
    forall p, t: nat, k: nat, t': nat, k': nat | ComesFrom(places, t, k, p) && ComesFrom(places, t', k', p)
      ensures t == t' && k == k'
    {
      FirstSeenAreTheIds(events);
      assert MessageFrom(events, target, t, places[t]) && MessageFrom(events, target, t', places[t']);
      PlaceIsUnique(events, p, FirstSeen(events)[t], Messages(events, target)[t].tools, places[t], k,
                    FirstSeen(events)[t'], Messages(events, target)[t'].tools, places[t'], k');
    }
  }

  /** A block is of one message only, and at most one of its tools. */
  lemma PlaceIsUnique(events: seq<Event>, p: Place, id: string, tools: seq<string>, at: seq<Place>, k: nat,
                      id': string, tools': seq<string>, at': seq<Place>, k': nat)
    requires ToolsFrom(events, id, tools, at) && ToolsFrom(events, id', tools', at')
    requires k < |at| && at[k] == p && k' < |at'| && at'[k'] == p
    ensures id == id'
    ensures at == at' ==> k == k'
  {
    var call :| IsCallAt(events, at[k], call, id);
    var call' :| IsCallAt(events, at'[k'], call', id');
  }

  // ---------- the other columns of a message ----------

  function HasTarget(target: Targeting): Call -> bool {
    (call: Call) => target(call.name, call.input) != ""
  }

  function TargetOf(target: Targeting): (Call, string) -> bool {
    (call: Call, t: string) => t == target(call.name, call.input)
  }

  /** The targets are those of the calls that have one, in order. */
  lemma {:induction false} TargetsOfCalls(calls: seq<Call>, target: Targeting)
    ensures Picked(calls, HasTarget(target), TargetOf(target), Targets(calls, target))
  {
    if calls == [] {
      NothingPicked<Call, string>(HasTarget(target), TargetOf(target));
    } else {
      var init, last := Init(calls), Last(calls);
      var t := target(last.name, last.input);
      TargetsOfCalls(init, target);
      PickedLast(init, last, HasTarget(target), TargetOf(target), Targets(init, target), if t != "" then [t] else []);
      assert init + [last] == calls;
    }
  }

  /** The event is one of the message and no earlier one is. */
  ghost predicate IsFirstOf(events: seq<Event>, i: nat, id: string) {
    && id != "" && i < |events| && events[i].Assistant? && events[i].id == id && events[i].usage.Some?
    && forall j :: 0 <= j < i && events[j].Assistant? && events[j].usage.Some? ==> events[j].id != id
  }

  /** Usage, stop reason and model of a message are those of its first event. */
  lemma MessageShowsFirstEvent(events: seq<Event>, target: Targeting, t: nat) returns (i: nat)
    requires t < |Messages(events, target)|
    ensures IsFirstOf(events, i, FirstSeen(events)[t])
    ensures var m := Messages(events, target)[t];
            && m.usage == events[i].usage.value && m.stop == events[i].stop && m.model == events[i].model
            && Picked(CallsOf(events, FirstSeen(events)[t]), HasTarget(target), TargetOf(target), m.targets)
  {
    i := FirstIndex(events, FirstSeen(events)[t]);
    TargetsOfCalls(CallsOf(events, FirstSeen(events)[t]), target);
  }

  // ---------- result texts ----------

  /** The text is that of the last result for the call. */
  ghost predicate IsLastResult(events: seq<Event>, id: string, text: string) {
    exists p :: IsResultAt(events, p, id, text) && NoLaterResult(events, id, p)
  }

  ghost predicate NoLaterResult(events: seq<Event>, id: string, p: Place) {
    forall q, text :: IsResultAt(events, q, id, text) ==> q == p || Precedes(q, p)
  }

  ghost predicate NoResult(events: seq<Event>, id: string) {
    forall q, text :: !IsResultAt(events, q, id, text)
  }

  /** The last block of this kind in one event. */
  ghost predicate LastIn(content: seq<Block>, id: string, b: nat) {
    && b < |content| && content[b].ToolResult? && content[b].toolUseId == id
    && forall c :: b < c < |content| && content[c].ToolResult? ==> content[c].toolUseId != id
  }

  ghost predicate NoneIn(content: seq<Block>, id: string) {
    forall c :: 0 <= c < |content| && content[c].ToolResult? ==> content[c].toolUseId != id
  }

  /** A result in the event replaces what was recorded. */
  lemma {:induction false} LastResultInEvent(content: seq<Block>, results: map<string, string>, id: string)
    returns (b: nat)
    ensures var r := ResultsIn(content, results);
            if NoneIn(content, id) then (id in r <==> id in results) && (id in r ==> r[id] == results[id])
            else LastIn(content, id, b) && id in r && r[id] == content[b].text
  {
    b := 0;
    if content == [] {
    } else {
      var init, last := Init(content), Last(content);
      if last.ToolResult? && last.toolUseId == id {
        b := |content| - 1;
        assert !NoneIn(content, id);
      } else {
        b := LastResultInEvent(init, results, id);
        assert forall c :: 0 <= c < |init| ==> init[c] == content[c];
        assert NoneIn(content, id) <==> NoneIn(init, id);
      }
    }
  }

  lemma ResultsBefore(events: seq<Event>, e: Event, id: string, p: Place, text: string)
    ensures p.0 < |events| ==> (IsResultAt(events + [e], p, id, text) <==> IsResultAt(events, p, id, text))
    ensures IsResultAt(events + [e], p, id, text) ==> p.0 <= |events|
  {
  }

  lemma NoResultInEvent(events: seq<Event>, e: Event, id: string, text: string)
    requires !e.User? || NoneIn(e.content, id)
    ensures NoResult(events, id) ==> NoResult(events + [e], id)
    ensures IsLastResult(events, id, text) ==> IsLastResult(events + [e], id, text)
  {
    forall q, other | IsResultAt(events + [e], q, id, other)
      ensures IsResultAt(events, q, id, other)
    {
    }
    if IsLastResult(events, id, text) {
      var p :| IsResultAt(events, p, id, text) && NoLaterResult(events, id, p);
      assert IsResultAt(events + [e], p, id, text);
      assert NoLaterResult(events + [e], id, p);
    }
  }

  lemma ResultInEvent(events: seq<Event>, e: Event, id: string, b: nat)
    requires e.User? && LastIn(e.content, id, b)
    ensures IsLastResult(events + [e], id, e.content[b].text)
  {
    var p := (|events|, b);
    assert IsResultAt(events + [e], p, id, e.content[b].text);
    forall q, text | IsResultAt(events + [e], q, id, text)
      ensures q == p || Precedes(q, p)
    {
    }
    assert NoLaterResult(events + [e], id, p);
  }

  /** The text recorded for a call is that of the last result for it. */
  lemma {:induction false} ResultsAreTheLast(events: seq<Event>, id: string)
    ensures var r := ResultTexts(events);
            if id in r then IsLastResult(events, id, r[id]) else NoResult(events, id)
  {
    if events == [] {
    } else {
      var init, e := Init(events), Last(events);
      assert init + [e] == events;
      ResultsAreTheLast(init, id);
      var b := LastResultInEvent(if e.User? then e.content else [], ResultTexts(init), id);
      if e.User? && !NoneIn(e.content, id) {
        ResultInEvent(init, e, id, b);
      } else {
        NoResultInEvent(init, e, id, if id in ResultTexts(init) then ResultTexts(init)[id] else "");
      }
    }
  }

  // ---------- tool_events ----------

  /** The events of one turn. */
  function InTurn(out: seq<ToolEvent>, turn: nat): seq<ToolEvent> {
    if out == [] then []
    else InTurn(Init(out), turn) + if Last(out).turn == turn then [Last(out)] else []
  }

  lemma InTurnOneMore(out: seq<ToolEvent>, e: ToolEvent, turn: nat)
    ensures InTurn(out + [e], turn) == InTurn(out, turn) + if e.turn == turn then [e] else []
  {
    assert Init(out + [e]) == out;
  }

  lemma {:induction false} InTurnConcat(a: seq<ToolEvent>, b: seq<ToolEvent>, turn: nat)
    ensures InTurn(a + b, turn) == InTurn(a, turn) + InTurn(b, turn)
  {
    if b == [] {
      assert a + b == a;
    } else {
      var init, last := Init(b), Last(b);
      assert b == init + [last] && a + b == a + init + [last];
      InTurnOneMore(init, last, turn);
      InTurnOneMore(a + init, last, turn);
      InTurnConcat(a, init, turn);
      Associative(InTurn(a, turn), InTurn(init, turn), if last.turn == turn then [last] else []);
    }
  }

  ghost predicate Shows(e: ToolEvent, turn: nat, call: Call, results: map<string, string>) {
    && e.turn == turn && e.name == call.name && e.input == call.input
    && e.result == if call.id in results then results[call.id] else ""
  }

  lemma {:induction false} TurnEventsShowCalls(turn: nat, calls: seq<Call>, results: map<string, string>)
    ensures var out := TurnEvents(turn, calls, results);
            |out| == |calls| && forall k :: 0 <= k < |calls| ==> Shows(out[k], turn, calls[k], results)
  {
    if calls == [] {
    } else {
      TurnEventsShowCalls(turn, Init(calls), results);
      assert Shows(EventFor(turn, Last(calls), results), turn, Last(calls), results);
    }
  }

  lemma {:induction false} TurnEventsInTurn(turn: nat, calls: seq<Call>, results: map<string, string>, t: nat)
    ensures InTurn(TurnEvents(turn, calls, results), t) == if t == turn then TurnEvents(turn, calls, results) else []
  {
    if calls == [] {
    } else {
      TurnEventsInTurn(turn, Init(calls), results, t);
      InTurnOneMore(TurnEvents(turn, Init(calls), results), EventFor(turn, Last(calls), results), t);
    }
  }

  ghost predicate TurnsAscend(out: seq<ToolEvent>, bound: nat) {
    && (forall i :: 0 <= i < |out| ==> out[i].turn <= bound)
    && forall i, j :: 0 <= i < j < |out| ==> out[i].turn <= out[j].turn
  }

  lemma TurnsStillAscend(before: seq<ToolEvent>, n: nat, calls: seq<Call>, results: map<string, string>)
    requires n > 0 && TurnsAscend(before, n - 1)
    ensures TurnsAscend(before + TurnEvents(n, calls, results), n)
  {
    TurnEventsShowCalls(n, calls, results);
  }

  lemma {:induction false} EventsShowTurns(turns: seq<seq<Call>>, results: map<string, string>, t: nat)
    ensures var out := EventsOfTurns(turns, results);
            && TurnsAscend(out, |turns|)
            && InTurn(out, t) == if 1 <= t <= |turns| then TurnEvents(t, turns[t - 1], results) else []
  {
    if turns == [] {
    } else {
      var init, n := Init(turns), |turns|;
      var before, latest := EventsOfTurns(init, results), TurnEvents(n, Last(turns), results);
      EventsShowTurns(init, results, t);
      TurnEventsInTurn(n, Last(turns), results, t);
      TurnsStillAscend(before, n, Last(turns), results);
      InTurnConcat(before, latest, t);
      assert 1 <= t < n ==> init[t - 1] == turns[t - 1];
    }
  }

  /** Main result: the events come turn after turn; those of a turn are the calls of its
      message in order, each with its name, its input and the text of the last result
      recorded for it, or none. */
  lemma ToolEventsShowCalls(events: seq<Event>, t: nat)
    requires 1 <= t <= |FirstSeen(events)|
    ensures var out := EventsOfTurns(CallsByTurn(events), ResultTexts(events));
            var calls := CallsOf(events, FirstSeen(events)[t - 1]);
            && TurnsAscend(out, |FirstSeen(events)|)
            && |InTurn(out, t)| == |calls|
            && forall k :: 0 <= k < |calls| ==> Shows(InTurn(out, t)[k], t, calls[k], ResultTexts(events))
  {
    EventsShowTurn(CallsByTurn(events), ResultTexts(events), t);
  }

  lemma EventsShowTurn(turns: seq<seq<Call>>, results: map<string, string>, t: nat)
    requires 1 <= t <= |turns|
    ensures var out := EventsOfTurns(turns, results);
            && TurnsAscend(out, |turns|)
            && |InTurn(out, t)| == |turns[t - 1]|
            && forall k :: 0 <= k < |turns[t - 1]| ==> Shows(InTurn(out, t)[k], t, turns[t - 1][k], results)
  {
    EventsShowTurns(turns, results, t);
    TurnEventsShowCalls(t, turns[t - 1], results);
  }
}
