/** The assistant's conversation (apps/backend/src/assistant/chat.ts): the rows a turn
    saves, and the messages the model is sent back. */
module Chat {
  import opened Text
  import opened StableSort

  datatype Call = Call(id: string, name: string, arguments: string)

  /** A stored row; Assistant's calls are [] when the column is null or unreadable. */
  datatype Row =
    | User(content: string)
    | Assistant(content: string, calls: seq<Call>)
    | Tool(content: string, callId: Option<string>)
    | Event(content: string)
    | Unknown(role: string)

  datatype Message =
    | UserMessage(text: string)
    | AssistantMessage(words: Option<string>, toolCalls: seq<Call>)
    | ToolMessage(id: string, result: string)

  const HISTORY_MESSAGES: nat := 80
  const MAX_ROUNDS: nat := 15
  const NOTE := "[HSI] "

  function Note(content: string): Message { UserMessage(NOTE + content) }

  /** An answer without words is sent as null. */
  function Words(content: string): (words: Option<string>)
    ensures words.None? <==> content == ""
    ensures words.Some? ==> words.value == content
  {
    if content == "" then None else Some(content)
  }

  // ── What a window means ─────────────────────────────────────────────────────

  function Answered(rows: seq<Row>): set<string> {
    set r | r in rows && r.Tool? && r.callId.Some? :: r.callId.value
  }

  function Ids(calls: seq<Call>): seq<string> {
    if calls == [] then [] else [calls[0].id] + Ids(calls[1..])
  }

  /** A result that some waiting call asked for; an empty id counts as none. */
  predicate Waits(callId: Option<string>, waiting: set<string>) {
    callId.Some? && callId.value != "" && callId.value in waiting
  }

  /** Reads the results of the waited calls; events met on the way come after them.
      It stops at the last result, or at any other message. */
  function Gather(rows: seq<Row>, waiting: set<string>): (g: (seq<Message>, seq<Message>, seq<Row>))
    ensures |g.2| <= |rows|
  {
    if waiting == {} || rows == [] then ([], [], rows)
    else
      match rows[0]
      case Tool(content, callId) =>
        if Waits(callId, waiting) then
          var (results, notes, rest) := Gather(rows[1..], waiting - {callId.value});
          ([ToolMessage(callId.value, content)] + results, notes, rest)
        else Gather(rows[1..], waiting)
      case Event(content) =>
        var (results, notes, rest) := Gather(rows[1..], waiting);
        (results, [Note(content)] + notes, rest)
      case _ => ([], [], rows)
  }

  function IdSet(calls: seq<Call>): set<string> { set c | c in calls :: c.id }

  /** The conversation the rows stand for: each assistant message with the calls that
      have a result somewhere, its results at once, then what was noted meanwhile. */
  function Render(rows: seq<Row>, answered: set<string>): seq<Message>
    decreases |rows|
  {
    if rows == [] then []
    else
      match rows[0]
      case User(content) => [UserMessage(content)] + Render(rows[1..], answered)
      case Event(content) => [Note(content)] + Render(rows[1..], answered)
      case Assistant(content, calls) =>
        var kept := Filter(calls, (c: Call) => c.id in answered);
        var (results, notes, rest) := Gather(rows[1..], IdSet(kept));
        [AssistantMessage(Words(content), kept)] + results + notes + Render(rest, answered)
      case _ => Render(rows[1..], answered)
  }

  /** The rest of the conversation, with calls waiting and notes held back. */
  function Resume(rows: seq<Row>, answered: set<string>, waiting: set<string>, notes: seq<Message>): seq<Message> {
    var (results, more, rest) := Gather(rows, waiting);
    results + notes + more + Render(rest, answered)
  }

  /** The first user row at or after `from`, or the end. */
  function FirstUser(stored: seq<Row>, from: nat): (start: nat)
    requires from <= |stored|
    ensures from <= start <= |stored|
    ensures start < |stored| ==> stored[start].User?
    ensures forall k :: from <= k < start ==> !stored[k].User?
    decreases |stored| - from
  {
    if from == |stored| || stored[from].User? then from else FirstUser(stored, from + 1)
  }

  lemma {:induction false} ResumeHeld(rows: seq<Row>, answered: set<string>, notes: seq<Message>)
    ensures Resume(rows, answered, {}, notes) == notes + Resume(rows, answered, {}, [])
  {}

  /** out is what is written, and all what the whole will be. */
  ghost predicate Reading(out: seq<Message>, rows: seq<Row>, answered: set<string>, waiting: set<string>,
      notes: seq<Message>, all: seq<Message>) {
    (waiting == {} ==> notes == []) && out + Resume(rows, answered, waiting, notes) == all
  }

  lemma {:induction false} ReadTool(out: seq<Message>, m: Row, rest: seq<Row>, answered: set<string>,
      waiting: set<string>, notes: seq<Message>, all: seq<Message>)
    requires Reading(out, [m] + rest, answered, waiting, notes, all) && m.Tool?
    ensures var hit := Waits(m.callId, waiting);
            var out' := if hit then out + [ToolMessage(m.callId.value, m.content)] else out;
            var waiting' := if hit then waiting - {m.callId.value} else waiting;
            if waiting' == {} then Reading(out' + notes, rest, answered, waiting', [], all)
            else Reading(out', rest, answered, waiting', notes, all)
  {
    assert ([m] + rest)[1..] == rest;
    ResumeHeld(rest, answered, notes);
  }

  lemma {:induction false} ReadEvent(out: seq<Message>, m: Row, rest: seq<Row>, answered: set<string>,
      waiting: set<string>, notes: seq<Message>, all: seq<Message>)
    requires Reading(out, [m] + rest, answered, waiting, notes, all) && m.Event?
    ensures var notes' := notes + [Note(m.content)];
            if waiting == {} then Reading(out + notes', rest, answered, waiting, [], all)
            else Reading(out, rest, answered, waiting, notes', all)
  {
    var rows := [m] + rest;
    assert rows[1..] == rest;
    if waiting == {} {
      ResumeIdle(rows, answered);
      ResumeIdle(rest, answered);
    } else {
      var (results, more, after) := Gather(rest, waiting);
      assert Gather(rows, waiting) == (results, [Note(m.content)] + more, after);
      assert results + (notes + [Note(m.content)]) + more == results + notes + ([Note(m.content)] + more);
    }
  }

  lemma {:induction false} ResumeStops(m: Row, rest: seq<Row>, answered: set<string>, waiting: set<string>,
      notes: seq<Message>)
    requires !m.Tool? && !m.Event?
    ensures Resume([m] + rest, answered, waiting, notes) == notes + Render([m] + rest, answered)
  {}

  lemma {:induction false} ReadUser(out: seq<Message>, m: Row, rest: seq<Row>, answered: set<string>,
      waiting: set<string>, notes: seq<Message>, all: seq<Message>)
    requires Reading(out, [m] + rest, answered, waiting, notes, all) && m.User?
    ensures Reading(out + notes + [UserMessage(m.content)], rest, answered, {}, [], all)
  {
    assert ([m] + rest)[1..] == rest;
    ResumeStops(m, rest, answered, waiting, notes);
    ResumeIdle(rest, answered);
    assert Render([m] + rest, answered) == [UserMessage(m.content)] + Render(rest, answered);
    hide Resume, Render;
    Assoc(out, notes, Render([m] + rest, answered));
    Assoc(out + notes, [UserMessage(m.content)], Render(rest, answered));
  }

  lemma {:induction false} ReadUnknown(out: seq<Message>, m: Row, rest: seq<Row>, answered: set<string>,
      waiting: set<string>, notes: seq<Message>, all: seq<Message>)
    requires Reading(out, [m] + rest, answered, waiting, notes, all) && m.Unknown?
    ensures Reading(out + notes, rest, answered, {}, [], all)
  {
    assert ([m] + rest)[1..] == rest;
    ResumeStops(m, rest, answered, waiting, notes);
    ResumeIdle(rest, answered);
    Assoc(out, notes, Render(rest, answered));
  }

  lemma {:induction false} ReadAssistant(out: seq<Message>, m: Row, rest: seq<Row>, answered: set<string>,
      waiting: set<string>, notes: seq<Message>, all: seq<Message>)
    requires Reading(out, [m] + rest, answered, waiting, notes, all) && m.Assistant?
    ensures var kept := Filter(m.calls, (c: Call) => c.id in answered);
            Reading(out + notes + [AssistantMessage(Words(m.content), kept)], rest, answered, IdSet(kept), [], all)
  {
    var kept := Filter(m.calls, (c: Call) => c.id in answered);
    ResumeStops(m, rest, answered, waiting, notes);
    RenderAssistant(m, rest, answered);
    hide Resume, Render, Filter;
    Assoc(out, notes, Render([m] + rest, answered));
    Assoc(out + notes, [AssistantMessage(Words(m.content), kept)], Resume(rest, answered, IdSet(kept), []));
  }

  lemma {:induction false} RenderAssistant(m: Row, rest: seq<Row>, answered: set<string>)
    requires m.Assistant?
    ensures var kept := Filter(m.calls, (c: Call) => c.id in answered);
            Render([m] + rest, answered) == [AssistantMessage(Words(m.content), kept)]
              + Resume(rest, answered, IdSet(kept), [])
  {
    assert ([m] + rest)[1..] == rest;
    var (results, notes, after) := Gather(rest, IdSet(Filter(m.calls, (c: Call) => c.id in answered)));
    assert results + [] + notes == results + notes;
  }

  lemma {:induction false} Assoc(x: seq<Message>, y: seq<Message>, z: seq<Message>)
    ensures (x + y) + z == x + (y + z)
  {}

  method HistoryForModel(stored: seq<Row>, limit: nat) returns (out: seq<Message>)
    ensures var start := FirstUser(stored, if |stored| > limit then |stored| - limit else 0);
            out == Render(stored[start..], Answered(stored))
    ensures out != [] ==> out[0].UserMessage?
  {
    hide Reading, Render, Resume, Filter, IdSet, Answered;
    var start := if |stored| > limit then |stored| - limit else 0;
    while start < |stored| && !stored[start].User?
      invariant start <= |stored|
      invariant FirstUser(stored, start) == FirstUser(stored, if |stored| > limit then |stored| - limit else 0)
    {
      start := start + 1;
    }
    out := [];
    var answered := Answered(stored);
    var waiting: set<string>, notes: seq<Message> := {}, [];
    ghost var all := Render(stored[start..], answered);
    ReadStart(stored[start..], answered);
    for k := start to |stored|
      invariant Reading(out, stored[k..], answered, waiting, notes, all)
    {
      var m := stored[k];
      assert stored[k..] == [m] + stored[k + 1..];
      match m {
      case Tool(content, callId) =>
        ReadTool(out, m, stored[k + 1..], answered, waiting, notes, all);
        if Waits(callId, waiting) {
          waiting := waiting - {callId.value};
          out := out + [ToolMessage(callId.value, content)];
        }
        if waiting == {} { out, notes := out + notes, []; }
      case Event(content) =>
        ReadEvent(out, m, stored[k + 1..], answered, waiting, notes, all);
        notes := notes + [Note(content)];
        if waiting == {} { out, notes := out + notes, []; }
      case User(content) =>
        ReadUser(out, m, stored[k + 1..], answered, waiting, notes, all);
        waiting := {};
        out, notes := out + notes, [];
        out := out + [UserMessage(content)];
      case Assistant(content, calls) =>
        ReadAssistant(out, m, stored[k + 1..], answered, waiting, notes, all);
        waiting := {};
        out, notes := out + notes, [];
        var kept := Filter(calls, (c: Call) => c.id in answered);
        waiting := IdSet(kept);
        out := out + [AssistantMessage(Words(content), kept)];
      case Unknown(_) =>
        ReadUnknown(out, m, stored[k + 1..], answered, waiting, notes, all);
        waiting := {};
        out, notes := out + notes, [];
      }
    }
    assert stored[|stored|..] == [];
    ReadEnd(out, answered, waiting, notes, all);
    out := out + notes;
    RenderStarts(stored[start..], answered);
  }

  lemma {:induction false} ReadStart(rows: seq<Row>, answered: set<string>)
    ensures Reading([], rows, answered, {}, [], Render(rows, answered))
  {
    ResumeIdle(rows, answered);
  }

  lemma {:induction false} ReadEnd(out: seq<Message>, answered: set<string>, waiting: set<string>, notes: seq<Message>,
      all: seq<Message>)
    requires Reading(out, [], answered, waiting, notes, all)
    ensures out + notes == all
  {}

  lemma {:induction false} ResumeIdle(rows: seq<Row>, answered: set<string>)
    ensures Resume(rows, answered, {}, []) == Render(rows, answered)
  {}

  lemma {:induction false} RenderStarts(rows: seq<Row>, answered: set<string>)
    requires rows == [] || rows[0].User?
    ensures Render(rows, answered) == [] || Render(rows, answered)[0].UserMessage?
  {}

  // ── Logs a conversation can have ────────────────────────────────────────────

  /** Each result answers the next unanswered call of the latest assistant message;
      pend is what waits before the first row. Events may stand anywhere, and a turn
      may stop at any point: the next message of another kind ends the waiting. */
  ghost predicate Orderly(rows: seq<Row>, pend: seq<string>) {
    rows == [] ||
    match rows[0]
    case Tool(_, callId) => pend != [] && callId == Some(pend[0]) && Orderly(rows[1..], pend[1..])
    case Event(_) => Orderly(rows[1..], pend)
    case Assistant(_, calls) => Orderly(rows[1..], Ids(calls))
    case _ => Orderly(rows[1..], [])
  }

  ghost function PendingAfter(rows: seq<Row>, pend: seq<string>): seq<string> {
    if rows == [] then pend
    else
      match rows[0]
      case Tool(_, _) => PendingAfter(rows[1..], if pend == [] then [] else pend[1..])
      case Event(_) => PendingAfter(rows[1..], pend)
      case Assistant(_, calls) => PendingAfter(rows[1..], Ids(calls))
      case _ => PendingAfter(rows[1..], [])
  }

  /** The ids of all calls made. */
  ghost function AllIds(rows: seq<Row>): seq<string> {
    if rows == [] then [] else (if rows[0].Assistant? then Ids(rows[0].calls) else []) + AllIds(rows[1..])
  }

  /** What the next row makes of the waiting calls. */
  ghost function PendNext(r: Row, pend: seq<string>): seq<string> {
    match r
    case Tool(_, _) => if pend == [] then [] else pend[1..]
    case Event(_) => pend
    case Assistant(_, calls) => Ids(calls)
    case _ => []
  }

  ghost predicate FitsPend(r: Row, pend: seq<string>) {
    r.Tool? ==> pend != [] && r.callId == Some(pend[0])
  }

  lemma {:induction false} OrderlyCons(r: Row, rest: seq<Row>, pend: seq<string>)
    ensures Orderly([r] + rest, pend) <==> FitsPend(r, pend) && Orderly(rest, PendNext(r, pend))
    ensures PendingAfter([r] + rest, pend) == PendingAfter(rest, PendNext(r, pend))
    ensures AllIds([r] + rest) == (if r.Assistant? then Ids(r.calls) else []) + AllIds(rest)
  {
    assert ([r] + rest)[1..] == rest;
  }

  lemma {:induction false} OrderlyConcat(a: seq<Row>, b: seq<Row>, pend: seq<string>)
    ensures Orderly(a + b, pend) <==> Orderly(a, pend) && Orderly(b, PendingAfter(a, pend))
    ensures PendingAfter(a + b, pend) == PendingAfter(b, PendingAfter(a, pend))
    ensures AllIds(a + b) == AllIds(a) + AllIds(b)
  {
    if a == [] {
      assert a + b == b;
    } else {
      var r, rest := a[0], a[1..];
      assert a == [r] + rest && a + b == [r] + (rest + b);
      OrderlyConcat(rest, b, PendNext(r, pend));
      OrderlyCons(r, rest, pend);
      OrderlyCons(r, rest + b, pend);
      hide Orderly, PendingAfter, AllIds, PendNext, FitsPend;
    }
  }

  lemma {:induction false} AppendKeepsOrder(log: seq<Row>, r: Row)
    requires Orderly(log, []) && FitsPend(r, PendingAfter(log, []))
    ensures Orderly(log + [r], []) && PendingAfter(log + [r], []) == PendNext(r, PendingAfter(log, []))
    ensures AllIds(log + [r]) == AllIds(log) + if r.Assistant? then Ids(r.calls) else []
  {
    OrderlyConcat(log, [r], []);
    OrderlyCons(r, [], PendingAfter(log, []));
    assert [r] + [] == [r];
  }

  // ── Well-formed conversations ───────────────────────────────────────────────

  /** Reads messages with pend still to be answered: every result answers the next
      call, and nothing else is said before all are. None when that fails. */
  ghost function Read(msgs: seq<Message>, pend: seq<string>): Option<seq<string>> {
    if msgs == [] then Some(pend)
    else
      match msgs[0]
      case ToolMessage(id, _) => if pend != [] && id == pend[0] then Read(msgs[1..], pend[1..]) else None
      case AssistantMessage(_, calls) => if pend == [] then Read(msgs[1..], Ids(calls)) else None
      case UserMessage(_) => if pend == [] then Read(msgs[1..], pend) else None
  }

  ghost predicate WellFormed(msgs: seq<Message>) { Read(msgs, []) == Some([]) }

  lemma {:induction false} ReadConcat(a: seq<Message>, b: seq<Message>, pend: seq<string>)
    ensures Read(a + b, pend) == if Read(a, pend) == None then None else Read(b, Read(a, pend).value)
  {
    if a == [] {
      assert a + b == b;
    } else {
      assert (a + b)[1..] == a[1..] + b;
      match a[0]
      case ToolMessage(id, _) => if pend != [] && id == pend[0] { ReadConcat(a[1..], b, pend[1..]); }
      case AssistantMessage(_, calls) => ReadConcat(a[1..], b, Ids(calls));
      case UserMessage(_) => ReadConcat(a[1..], b, pend);
    }
  }

  /** The results that come before the next message of another kind. */
  ghost function AnswerCount(rows: seq<Row>): nat {
    if rows == [] then 0
    else
      match rows[0]
      case Tool(_, _) => 1 + AnswerCount(rows[1..])
      case Event(_) => AnswerCount(rows[1..])
      case _ => 0
  }

  ghost function SetOf(ids: seq<string>): set<string> { set x | x in ids }

  ghost function ToolPairs(rows: seq<Row>): seq<(string, string)> {
    if rows == [] then []
    else
      (if rows[0].Tool? && rows[0].callId.Some? then [(rows[0].callId.value, rows[0].content)] else [])
      + ToolPairs(rows[1..])
  }

  ghost function ResultPairs(msgs: seq<Message>): seq<(string, string)> {
    if msgs == [] then []
    else (if msgs[0].ToolMessage? then [(msgs[0].id, msgs[0].result)] else []) + ResultPairs(msgs[1..])
  }

  /** What users said and what was noted, in order. */
  ghost function RowTexts(rows: seq<Row>): seq<string> {
    if rows == [] then []
    else
      (if rows[0].User? then [rows[0].content] else if rows[0].Event? then [NOTE + rows[0].content] else [])
      + RowTexts(rows[1..])
  }

  ghost function UserTexts(msgs: seq<Message>): seq<string> {
    if msgs == [] then [] else (if msgs[0].UserMessage? then [msgs[0].text] else []) + UserTexts(msgs[1..])
  }

  lemma {:induction false} UserTextsConcat(a: seq<Message>, b: seq<Message>)
    ensures UserTexts(a + b) == UserTexts(a) + UserTexts(b)
  {
    if a == [] {
      assert a + b == b;
    } else {
      assert (a + b)[1..] == a[1..] + b;
      UserTextsConcat(a[1..], b);
    }
  }

  lemma {:induction false} ResultPairsConcat(a: seq<Message>, b: seq<Message>)
    ensures ResultPairs(a + b) == ResultPairs(a) + ResultPairs(b)
  {
    if a == [] {
      assert a + b == b;
    } else {
      assert (a + b)[1..] == a[1..] + b;
      ResultPairsConcat(a[1..], b);
    }
  }

  lemma {:induction false} TextsConcat(a: seq<Message>, b: seq<Message>)
    ensures UserTexts(a + b) == UserTexts(a) + UserTexts(b)
    ensures ResultPairs(a + b) == ResultPairs(a) + ResultPairs(b)
  {
    hide *;
    UserTextsConcat(a, b);
    ResultPairsConcat(a, b);
  }

  lemma {:induction false} GatherTexts(rows: seq<Row>, waiting: set<string>)
    ensures var g := Gather(rows, waiting);
            UserTexts(g.0) == [] && ResultPairs(g.1) == [] && UserTexts(g.1) + RowTexts(g.2) == RowTexts(rows)
  {
    if waiting != {} && rows != [] && (rows[0].Tool? || rows[0].Event?) {
      var r, rest := rows[0], rows[1..];
      var w := if r.Tool? && Waits(r.callId, waiting) then waiting - {r.callId.value} else waiting;
      GatherTexts(rest, w);
      var g := Gather(rest, w);
      assert RowTexts(rows) == (if r.Event? then [NOTE + r.content] else []) + RowTexts(rest);
      if r.Event? {
        assert Gather(rows, waiting) == (g.0, [Note(r.content)] + g.1, g.2);
        hide Gather, RowTexts;
        NoteText(Note(r.content), g.1);
      } else if w != waiting {
        var m := ToolMessage(r.callId.value, r.content);
        assert Gather(rows, waiting) == ([m] + g.0, g.1, g.2);
        hide Gather, RowTexts;
        NoteText(m, g.0);
      }
    }
  }

  lemma {:induction false} NoteText(m: Message, more: seq<Message>)
    ensures UserTexts([m] + more) == (if m.UserMessage? then [m.text] else []) + UserTexts(more)
    ensures ResultPairs([m] + more) == (if m.ToolMessage? then [(m.id, m.result)] else []) + ResultPairs(more)
  {
    assert ([m] + more)[1..] == more;
  }

  lemma {:induction false} AssistantNotes(m: Message, tail: seq<Row>, waiting: set<string>, answered: set<string>)
    requires m.AssistantMessage?
      && UserTexts(Render(Gather(tail, waiting).2, answered)) == RowTexts(Gather(tail, waiting).2)
    ensures var g := Gather(tail, waiting); UserTexts([m] + g.0 + g.1 + Render(g.2, answered)) == RowTexts(tail)
  {
    var g := Gather(tail, waiting);
    assert [m][1..] == [] && UserTexts([m]) == [];
    hide Gather, UserTexts, RowTexts, Render;
    GatherTexts(tail, waiting);
    TextsConcat([m] + g.0 + g.1, Render(g.2, answered));
    TextsConcat([m] + g.0, g.1);
    TextsConcat([m], g.0);
    assert [] + [] + UserTexts(g.1) == UserTexts(g.1);
  }

  /** Every event and every user message of the rows is sent once, in order, whatever
      the rows are. */
  lemma {:induction false} EveryNoteIsSent(rows: seq<Row>, answered: set<string>)
    ensures UserTexts(Render(rows, answered)) == RowTexts(rows)
    decreases |rows|
  {
    if rows != [] {
      var tail := rows[1..];
      match rows[0]
      case User(content) =>
        EveryNoteIsSent(tail, answered);
        TextsConcat([UserMessage(content)], Render(tail, answered));
      case Event(content) =>
        EveryNoteIsSent(tail, answered);
        TextsConcat([Note(content)], Render(tail, answered));
      case Assistant(content, calls) =>
        var kept := Filter(calls, (c: Call) => c.id in answered);
        EveryNoteIsSent(Gather(tail, IdSet(kept)).2, answered);
        AssistantNotes(AssistantMessage(Words(content), kept), tail, IdSet(kept), answered);
      case _ => EveryNoteIsSent(tail, answered);
    }
  }

  /** What the assistant said in the rows, with the calls that have a result. */
  ghost function RowReplies(rows: seq<Row>, answered: set<string>): seq<(string, seq<Call>)> {
    if rows == [] then []
    else
      (if rows[0].Assistant? then [(rows[0].content, Filter(rows[0].calls, (c: Call) => c.id in answered))] else [])
      + RowReplies(rows[1..], answered)
  }

  /** What the assistant said in the messages; no words stand for none said. */
  ghost function SentReplies(msgs: seq<Message>): seq<(string, seq<Call>)> {
    if msgs == [] then []
    else
      (match msgs[0]
       case AssistantMessage(words, calls) => [(if words.Some? then words.value else "", calls)]
       case _ => []) + SentReplies(msgs[1..])
  }

  lemma {:induction false} SentRepliesConcat(a: seq<Message>, b: seq<Message>)
    ensures SentReplies(a + b) == SentReplies(a) + SentReplies(b)
  {
    if a == [] {
      assert a + b == b;
    } else {
      assert (a + b)[1..] == a[1..] + b;
      SentRepliesConcat(a[1..], b);
    }
  }

  lemma {:induction false} SentRepliesCons(m: Message, more: seq<Message>)
    requires !m.AssistantMessage?
    ensures SentReplies([m] + more) == SentReplies(more)
  {
    assert ([m] + more)[1..] == more;
  }

  lemma {:induction false} GatherReplies(rows: seq<Row>, waiting: set<string>, answered: set<string>)
    ensures var g := Gather(rows, waiting);
            SentReplies(g.0) == [] && SentReplies(g.1) == [] && RowReplies(g.2, answered) == RowReplies(rows, answered)
  {
    if waiting != {} && rows != [] && (rows[0].Tool? || rows[0].Event?) {
      var r, rest := rows[0], rows[1..];
      var w := if r.Tool? && Waits(r.callId, waiting) then waiting - {r.callId.value} else waiting;
      GatherReplies(rest, w, answered);
      var g := Gather(rest, w);
      assert RowReplies(rows, answered) == RowReplies(rest, answered);
      if r.Event? {
        assert Gather(rows, waiting) == (g.0, [Note(r.content)] + g.1, g.2);
        SentRepliesCons(Note(r.content), g.1);
      } else if w != waiting {
        assert Gather(rows, waiting) == ([ToolMessage(r.callId.value, r.content)] + g.0, g.1, g.2);
        SentRepliesCons(ToolMessage(r.callId.value, r.content), g.0);
      }
    }
  }

  /** Every reply of the assistant is sent once, in order: its words, whole, and of its
      calls exactly those that have a result. */
  lemma {:induction false} EveryReplyIsSent(rows: seq<Row>, answered: set<string>)
    ensures SentReplies(Render(rows, answered)) == RowReplies(rows, answered)
    decreases |rows|
  {
    if rows != [] {
      var tail := rows[1..];
      match rows[0]
      case User(content) =>
        EveryReplyIsSent(tail, answered);
        SentRepliesCons(UserMessage(content), Render(tail, answered));
      case Event(content) =>
        EveryReplyIsSent(tail, answered);
        SentRepliesCons(Note(content), Render(tail, answered));
      case Assistant(content, calls) =>
        var kept := Filter(calls, (c: Call) => c.id in answered);
        EveryReplyIsSent(Gather(tail, IdSet(kept)).2, answered);
        ReplySent(content, kept, tail, answered);
      case _ => EveryReplyIsSent(tail, answered);
    }
  }

  lemma {:induction false} ReplySent(content: string, kept: seq<Call>, tail: seq<Row>, answered: set<string>)
    requires var rest := Gather(tail, IdSet(kept)).2;
             SentReplies(Render(rest, answered)) == RowReplies(rest, answered)
    ensures var g := Gather(tail, IdSet(kept)); var m := AssistantMessage(Words(content), kept);
            SentReplies([m] + g.0 + g.1 + Render(g.2, answered)) == [(content, kept)] + RowReplies(tail, answered)
  {
    var g, m := Gather(tail, IdSet(kept)), AssistantMessage(Words(content), kept);
    assert [m][1..] == [] && SentReplies([m]) == [(content, kept)];
    hide Gather, SentReplies, RowReplies, Render;
    GatherReplies(tail, IdSet(kept), answered);
    SentRepliesConcat([m] + g.0 + g.1, Render(g.2, answered));
    SentRepliesConcat([m] + g.0, g.1);
    SentRepliesConcat([m], g.0);
  }
}
