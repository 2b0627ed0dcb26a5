/** Collapsing a stream of transcript events into one record per assistant message
    (`token_bench/transcript.py`).  Events are those `load` keeps: sub-agent rows
    and unparsable lines are already gone. */
module Transcript {
  import opened Wrappers
  import opened Sequences

  function Init<T>(s: seq<T>): seq<T>
    requires s != []
  {
    s[..|s| - 1]
  }

  function Last<T>(s: seq<T>): T
    requires s != []
  {
    s[|s| - 1]
  }

  datatype Usage = Usage(input: int, cacheCreation: int, cacheRead: int, output: int)

  datatype Call = Call(id: string, name: string, input: string)

  datatype Block =
    | ToolUse(call: Call)
    | ToolResult(toolUseId: string, text: string)
    | OtherBlock

  /** A missing id is the empty string; missing or empty usage is `None`. */
  datatype Event =
    | Assistant(id: string, usage: Option<Usage>, stop: string, model: string, content: seq<Block>)
    | User(content: seq<Block>)
    | OtherEvent

  datatype Message = Message(usage: Usage, tools: seq<string>, targets: seq<string>, stop: string, model: string)

  /** What a tool call acted on, or "" (`tool_target`). */
  type Targeting = (string, string) -> string

  predicate Counted(e: Event) {
    e.Assistant? && e.id != "" && e.usage.Some?
  }

  function ToolUses(content: seq<Block>): seq<Call> {
    if content == [] then []
    else ToolUses(Init(content)) + if Last(content).ToolUse? then [Last(content).call] else []
  }

  // ---------- the group-by the code is meant to be ----------

  /** Message ids in the order of their first event. */
  function FirstSeen(events: seq<Event>): seq<string> {
    if events == [] then []
    else
      var seen := FirstSeen(Init(events));
      if Counted(Last(events)) && Last(events).id !in seen then seen + [Last(events).id] else seen
  }

  /** Every tool call made under a message id, in event order. */
  function CallsOf(events: seq<Event>, id: string): seq<Call> {
    if events == [] then []
    else
      CallsOf(Init(events), id)
      + if Counted(Last(events)) && Last(events).id == id then ToolUses(Last(events).content) else []
  }

  lemma {:induction false} FirstSeenAreTheIds(events: seq<Event>)
    ensures forall id :: id in FirstSeen(events) <==>
                         exists i :: 0 <= i < |events| && Counted(events[i]) && events[i].id == id
    ensures forall i, j :: 0 <= i < j < |FirstSeen(events)| ==> FirstSeen(events)[i] != FirstSeen(events)[j]
  {
    if events == [] {
    } else {
      FirstSeenAreTheIds(Init(events));
      forall id
        ensures id in FirstSeen(events) <==> exists i :: 0 <= i < |events| && Counted(events[i]) && events[i].id == id
      {
        if id in FirstSeen(Init(events)) {
          var i :| 0 <= i < |Init(events)| && Counted(Init(events)[i]) && Init(events)[i].id == id;
          assert Counted(events[i]) && events[i].id == id;
        }
        if i :| 0 <= i < |events| && Counted(events[i]) && events[i].id == id {
          if i < |events| - 1 {
            assert Init(events)[i].id == id;
          }
        }
      }
    }
  }

  /** The index of the first event of a message. */
  function FirstIndex(events: seq<Event>, id: string): (i: nat)
    requires id in FirstSeen(events)
    ensures i < |events| && Counted(events[i]) && events[i].id == id
    ensures forall j :: 0 <= j < i && Counted(events[j]) ==> events[j].id != id
  {
    FirstSeenAreTheIds(Init(events));
    if id in FirstSeen(Init(events)) then FirstIndex(Init(events), id)
    else
      assert forall j :: 0 <= j < |events| - 1 && Counted(events[j]) ==> Init(events)[j].id != id;
      |events| - 1
  }

  /** First-seen order: the first events of successive ids come one after another. */
  lemma {:induction false} FirstSeenInOrder(events: seq<Event>, i: nat, j: nat)
    requires i < j < |FirstSeen(events)|
    ensures FirstIndex(events, FirstSeen(events)[i]) < FirstIndex(events, FirstSeen(events)[j])
  {
    var seen := FirstSeen(Init(events));
    FirstSeenAreTheIds(Init(events));
    if j < |seen| {
      FirstSeenInOrder(Init(events), i, j);
    }
  }

  function Names(calls: seq<Call>): seq<string>
  {
    if calls == [] then [] else Names(Init(calls)) + [Last(calls).name]
  }

  function Targets(calls: seq<Call>, target: Targeting): seq<string>
  {
    if calls == [] then []
    else
      var t := target(Last(calls).name, Last(calls).input);
      Targets(Init(calls), target) + if t != "" then [t] else []
  }

  /** The record of one message: usage, stop reason and model of its first event,
      tool calls of all its events. */
  function Collapsed(events: seq<Event>, id: string, target: Targeting): Message
    requires id in FirstSeen(events)
  {
    var first, calls := events[FirstIndex(events, id)], CallsOf(events, id);
    Message(first.usage.value, Names(calls), Targets(calls, target), first.stop, first.model)
  }

  function Messages(events: seq<Event>, target: Targeting): (r: seq<Message>)
    ensures |r| == |FirstSeen(events)|
  {
    seq(|FirstSeen(events)|, i requires 0 <= i < |FirstSeen(events)| =>
      Collapsed(events, FirstSeen(events)[i], target))
  }

  // ---------- the loops ----------

  lemma NamesAppend(calls: seq<Call>, c: Call, target: Targeting)
    ensures Names(calls + [c]) == Names(calls) + [c.name]
    ensures Targets(calls + [c], target) ==
            Targets(calls, target) + if target(c.name, c.input) != "" then [target(c.name, c.input)] else []
  {
    assert Init(calls + [c]) == calls;
  }

  /** Appends the tool calls of one event to what its message has so far. */
  method AppendCalls(content: seq<Block>, ghost calls: seq<Call>, tools: seq<string>, targets: seq<string>,
                     target: Targeting)
    returns (tools': seq<string>, targets': seq<string>)
    requires tools == Names(calls) && targets == Targets(calls, target)
    ensures tools' == Names(calls + ToolUses(content))
    ensures targets' == Targets(calls + ToolUses(content), target)
  {
    tools', targets' := tools, targets;
    ghost var all := calls;
    for i := 0 to |content|
      invariant all == calls + ToolUses(content[..i])
      invariant tools' == Names(all) && targets' == Targets(all, target)
    {
      var block := content[i];
      assert Init(content[..i + 1]) == content[..i] && Last(content[..i + 1]) == block;
      if block.ToolUse? {
        NamesAppend(all, block.call, target);
        all := all + [block.call];
        tools' := tools' + [block.call.name];
        var t := target(block.call.name, block.call.input);
        if t != "" {
          targets' := targets' + [t];
        }
      }
    }
    assert content[..|content|] == content;
  }

  /** The group-by of the events read so far, as a dictionary.  The code keeps the five
      parts of a record in five dictionaries with the same keys. */
  ghost function Records(events: seq<Event>, target: Targeting): map<string, Message> {
    map id | id in FirstSeen(events) :: Collapsed(events, id, target)
  }

  lemma OtherMessagesStand(events: seq<Event>, e: Event, id: string, target: Targeting)
    requires id in FirstSeen(events)
    requires Counted(e) ==> e.id != id
    ensures id in FirstSeen(events + [e])
    ensures Collapsed(events + [e], id, target) == Collapsed(events, id, target)
  {
    assert Init(events + [e]) == events;
    assert FirstIndex(events + [e], id) == FirstIndex(events, id);
    assert CallsOf(events + [e], id) == CallsOf(events, id);
  }

  /** An event that counts extends the record of its message and no other. */
  lemma MessageGrows(events: seq<Event>, e: Event)
    requires Counted(e)
    ensures e.id in FirstSeen(events + [e])
    ensures CallsOf(events + [e], e.id) == CallsOf(events, e.id) + ToolUses(e.content)
    ensures FirstSeen(events + [e]) ==
            if e.id in FirstSeen(events) then FirstSeen(events) else FirstSeen(events) + [e.id]
    ensures FirstIndex(events + [e], e.id) ==
            if e.id in FirstSeen(events) then FirstIndex(events, e.id) else |events|
  {
    assert Init(events + [e]) == events;
  }

  lemma {:induction false} UnseenHasNoCalls(events: seq<Event>, id: string)
    requires id !in FirstSeen(events)
    ensures CallsOf(events, id) == []
  {
    if events == [] {
    } else {
      UnseenHasNoCalls(Init(events), id);
    }
  }

  /** The record of the event's message once the event is added. */
  method Absorb(ghost done: seq<Event>, row: Event, target: Targeting, known: Option<Message>) returns (record: Message)
    requires Counted(row)
    requires known == if row.id in FirstSeen(done) then Some(Collapsed(done, row.id, target)) else None
    ensures row.id in FirstSeen(done + [row])
    ensures record == Collapsed(done + [row], row.id, target)
  {
    MessageGrows(done, row);
    if known.None? {
      UnseenHasNoCalls(done, row.id);
    }
    record := if known.Some? then known.value else Message(row.usage.value, [], [], row.stop, row.model);
    var names, acted := AppendCalls(row.content, CallsOf(done, row.id), record.tools, record.targets, target);
    record := record.(tools := names, targets := acted);
  }

  lemma FirstSeenGrows(events: seq<Event>, e: Event)
    ensures FirstSeen(events + [e]) ==
            if Counted(e) && e.id !in FirstSeen(events) then FirstSeen(events) + [e.id] else FirstSeen(events)
  {
    assert Init(events + [e]) == events;
  }

  lemma MapGrows<K, V>(before: map<K, V>, after: map<K, V>, k: K, v: V)
    requires after.Keys == before.Keys + {k} && after[k] == v
    requires forall x :: x in before && x != k ==> after[x] == before[x]
    ensures after == before[k := v]
  {
  }

  lemma RecordStands(done: seq<Event>, row: Event, id: string, target: Targeting)
    requires id in Records(done, target) && (Counted(row) ==> id != row.id)
    ensures id in Records(done + [row], target) && Records(done + [row], target)[id] == Records(done, target)[id]
  {
    OtherMessagesStand(done, row, id, target);
  }

  lemma RecordKeys(done: seq<Event>, row: Event, target: Targeting)
    ensures Records(done + [row], target).Keys == Records(done, target).Keys + if Counted(row) then {row.id} else {}
  {
    FirstSeenGrows(done, row);
  }

  lemma RecordsStand(done: seq<Event>, row: Event, target: Targeting)
    ensures forall id :: id in Records(done, target) && (Counted(row) ==> id != row.id) ==>
              id in Records(done + [row], target) && Records(done + [row], target)[id] == Records(done, target)[id]
  {
    forall id | id in Records(done, target) && (Counted(row) ==> id != row.id)
      ensures id in Records(done + [row], target) && Records(done + [row], target)[id] == Records(done, target)[id]
    {
      RecordStands(done, row, id, target);
    }
  }

  lemma RecordOfNew(done: seq<Event>, row: Event, target: Targeting)
    requires Counted(row)
    ensures row.id in FirstSeen(done + [row]) && row.id in Records(done + [row], target)
    ensures Records(done + [row], target)[row.id] == Collapsed(done + [row], row.id, target)
  {
    FirstSeenGrows(done, row);
  }

  /** A counted event changes the record of its own message and no other. */
  lemma RecordsGrow(done: seq<Event>, row: Event, target: Targeting)
    requires Counted(row)
    ensures row.id in FirstSeen(done + [row])
    ensures Records(done + [row], target) == Records(done, target)[row.id := Collapsed(done + [row], row.id, target)]
  {
    RecordKeys(done, row, target);
    RecordsStand(done, row, target);
    RecordOfNew(done, row, target);
    MapGrows(Records(done, target), Records(done + [row], target), row.id, Collapsed(done + [row], row.id, target));
  }

  lemma MapStays<K, V>(before: map<K, V>, after: map<K, V>)
    requires after.Keys == before.Keys && forall x :: x in before ==> after[x] == before[x]
    ensures after == before
  {
  }

  lemma RecordsStay(done: seq<Event>, row: Event, target: Targeting)
    requires !Counted(row)
    ensures Records(done + [row], target) == Records(done, target)
  {
    RecordKeys(done, row, target);
    RecordsStand(done, row, target);
    MapStays(Records(done, target), Records(done + [row], target));
  }

  method AssistantMessages(events: seq<Event>, target: Targeting) returns (messages: seq<Message>)
    ensures messages == Messages(events, target)
  {
    var records: map<string, Message> := map[];
    var order: seq<string> := [];
    for i := 0 to |events|
      invariant order == FirstSeen(events[..i]) && records == Records(events[..i], target)
    {
      var row := events[i];
      ghost var done := events[..i];
      assert events[..i + 1] == done + [row];
      FirstSeenGrows(done, row);
      if row.Assistant? && row.id != "" && row.usage.Some? {
        RecordsGrow(done, row, target);
        var record := Absorb(done, row, target, if row.id in records then Some(records[row.id]) else None);
        if row.id !in records {
          order := order + [row.id];
        }
        records := records[row.id := record];
      } else {
        RecordsStay(done, row, target);
      }
    }
    assert events[..|events|] == events;
    messages := seq(|order|, i requires 0 <= i < |order| => assert order[i] in order; records[order[i]]);
  }

  // ---------- tool_events ----------

  datatype ToolEvent = ToolEvent(turn: nat, name: string, input: string, result: string)

  /** The result texts recorded for tool calls; a later result replaces an earlier one. */
  function ResultsIn(content: seq<Block>, results: map<string, string>): map<string, string> {
    if content == [] then results
    else
      var before := ResultsIn(Init(content), results);
      if Last(content).ToolResult? then before[Last(content).toolUseId := Last(content).text] else before
  }

  function ResultTexts(events: seq<Event>): map<string, string> {
    if events == [] then map[]
    else
      var before := ResultTexts(Init(events));
      if Last(events).User? then ResultsIn(Last(events).content, before) else before
  }

  function EventFor(turn: nat, call: Call, results: map<string, string>): ToolEvent
  {
    ToolEvent(turn, call.name, call.input, if call.id in results then results[call.id] else "")
  }

  function TurnEvents(turn: nat, calls: seq<Call>, results: map<string, string>): seq<ToolEvent>
  {
    if calls == [] then [] else TurnEvents(turn, Init(calls), results) + [EventFor(turn, Last(calls), results)]
  }

  /** The tool calls of every message, messages in first-seen order. */
  function CallsByTurn(events: seq<Event>): (r: seq<seq<Call>>)
    ensures |r| == |FirstSeen(events)|
  {
    seq(|FirstSeen(events)|, i requires 0 <= i < |FirstSeen(events)| => CallsOf(events, FirstSeen(events)[i]))
  }

  function EventsOfTurns(turns: seq<seq<Call>>, results: map<string, string>): seq<ToolEvent> {
    if turns == [] then []
    else EventsOfTurns(Init(turns), results) + TurnEvents(|turns|, Last(turns), results)
  }

  method ReadResults(content: seq<Block>, results: map<string, string>) returns (results': map<string, string>)
    ensures results' == ResultsIn(content, results)
  {
    results' := results;
    for i := 0 to |content|
      invariant results' == ResultsIn(content[..i], results)
    {
      assert Init(content[..i + 1]) == content[..i];
      if content[i].ToolResult? {
        results' := results'[content[i].toolUseId := content[i].text];
      }
    }
    assert content[..|content|] == content;
  }

  method ReadCalls(content: seq<Block>) returns (calls: seq<Call>)
    ensures calls == ToolUses(content)
  {
    calls := [];
    for i := 0 to |content|
      invariant calls == ToolUses(content[..i])
    {
      assert Init(content[..i + 1]) == content[..i];
      if content[i].ToolUse? {
        calls := calls + [content[i].call];
      }
    }
    assert content[..|content|] == content;
  }

  method GroupCalls(events: seq<Event>)
    returns (msgs: map<string, seq<Call>>, order: seq<string>, results: map<string, string>)
    ensures order == FirstSeen(events) && results == ResultTexts(events)
    ensures forall id :: id in order <==> id in msgs
    ensures forall id :: id in msgs ==> msgs[id] == CallsOf(events, id)
  {
    msgs, order, results := map[], [], map[];
    for i := 0 to |events|
      invariant order == FirstSeen(events[..i]) && results == ResultTexts(events[..i])
      invariant forall id :: id in order <==> id in msgs
      invariant forall id :: id in msgs ==> msgs[id] == CallsOf(events[..i], id)
    {
      var row := events[i];
      ghost var done := events[..i];
      assert Init(events[..i + 1]) == done && Last(events[..i + 1]) == row;
      if row.Assistant? {
        if row.id == "" || row.usage.None? {
          continue;
        }
        var calls := ReadCalls(row.content);
        if row.id !in msgs {
          UnseenHasNoCalls(done, row.id);
          msgs := msgs[row.id := []];
          order := order + [row.id];
        }
        msgs := msgs[row.id := msgs[row.id] + calls];
      } else if row.User? {
        results := ReadResults(row.content, results);
      }
    }
    assert events[..|events|] == events;
  }

  /** The events of one turn: its calls, each with the result text recorded for it. */
  method EventsOfTurn(turn: nat, calls: seq<Call>, results: map<string, string>) returns (added: seq<ToolEvent>)
    ensures added == TurnEvents(turn, calls, results)
  {
    added := [];
    for k := 0 to |calls|
      invariant added == TurnEvents(turn, calls[..k], results)
    {
      assert Init(calls[..k + 1]) == calls[..k];
      added := added + [EventFor(turn, calls[k], results)];
    }
    assert calls[..|calls|] == calls;
  }

  method ToolEvents(events: seq<Event>) returns (out: seq<ToolEvent>)
    ensures out == EventsOfTurns(CallsByTurn(events), ResultTexts(events))
  {
    var msgs, order, results := GroupCalls(events);
    ghost var turns := CallsByTurn(events);
    out := [];
    for t := 0 to |order|
      invariant out == EventsOfTurns(turns[..t], results)
    {
      assert order[t] in order;
      assert Init(turns[..t + 1]) == turns[..t];
      var added := EventsOfTurn(t + 1, msgs[order[t]], results);
      out := out + added;
    }
    assert turns[..|turns|] == turns;
  }

  function NamesInTurn(out: seq<ToolEvent>, turn: nat): seq<string> {
    if out == [] then []
    else NamesInTurn(Init(out), turn) + if Last(out).turn == turn then [Last(out).name] else []
  }

  function NameIn(e: ToolEvent, turn: nat): seq<string> {
    if e.turn == turn then [e.name] else []
  }

  lemma NamesInTurnOneMore(out: seq<ToolEvent>, e: ToolEvent, turn: nat)
    ensures NamesInTurn(out + [e], turn) == NamesInTurn(out, turn) + NameIn(e, turn)
  {
    assert Init(out + [e]) == out;
  }

  lemma {:induction false} NamesInTurnConcat(a: seq<ToolEvent>, b: seq<ToolEvent>, turn: nat)
    ensures NamesInTurn(a + b, turn) == NamesInTurn(a, turn) + NamesInTurn(b, turn)
  {
    if b == [] {
      assert a + b == a;
    } else {
      var init, last := Init(b), Last(b);
      assert b == init + [last] && a + b == a + init + [last];
      NamesInTurnOneMore(init, last, turn);
      NamesInTurnOneMore(a + init, last, turn);
      NamesInTurnConcat(a, init, turn);
      Associative(NamesInTurn(a, turn), NamesInTurn(init, turn), NameIn(last, turn));
    }
  }

  lemma {:induction false} NamesOfTurnEvents(turn: nat, calls: seq<Call>, results: map<string, string>, t: nat)
    ensures NamesInTurn(TurnEvents(turn, calls, results), t) == if t == turn then Names(calls) else []
  {
    if calls == [] {
    } else {
      NamesOfTurnEvents(turn, Init(calls), results, t);
      var shorter := TurnEvents(turn, Init(calls), results);
      assert Init(shorter + [EventFor(turn, Last(calls), results)]) == shorter;
    }
  }

  lemma {:induction false} NamesOfTurns(turns: seq<seq<Call>>, results: map<string, string>, t: nat)
    ensures NamesInTurn(EventsOfTurns(turns, results), t) == if 1 <= t <= |turns| then Names(turns[t - 1]) else []
  {
    if turns == [] {
    } else {
      var init, n := Init(turns), |turns|;
      var before, latest := EventsOfTurns(init, results), TurnEvents(n, Last(turns), results);
      NamesOfTurns(init, results, t);
      NamesOfTurnEvents(n, Last(turns), results, t);
      NamesInTurnConcat(before, latest, t);
      assert NamesInTurn(EventsOfTurns(turns, results), t) == NamesInTurn(before, t) + NamesInTurn(latest, t);
      assert 1 <= t < n ==> init[t - 1] == turns[t - 1];
    }
  }

  /** `tool_events` numbers the turns and names their tools as `assistant_messages` does. */
  lemma ToolEventsMatchMessages(events: seq<Event>, target: Targeting, t: nat)
    ensures NamesInTurn(EventsOfTurns(CallsByTurn(events), ResultTexts(events)), t) ==
            if 1 <= t <= |Messages(events, target)| then Messages(events, target)[t - 1].tools else []
  {
    NamesOfTurns(CallsByTurn(events), ResultTexts(events), t);
  }
}
