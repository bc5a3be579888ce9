/** A turn of the assistant: what runTurn saves and what it sends, under aborts, limits,
    failing calls and events noted at any wait (apps/backend/src/assistant/chat.ts). */
module ChatTurn {
  import opened Text
  import opened StableSort
  import opened Chat
  import opened ChatWellFormed

  /** What a model call gives: a reply, or a failure after some text. */
  datatype Reply = Answer(content: string, calls: seq<Call>) | Broken(partial: string)

  datatype TurnEnd = Finished | LimitReached | Stopped | Failed | TooManyRounds

  /** A tool that was run, and what it gave; None when it threw. */
  datatype Ran = Ran(call: Call, outcome: Option<string>)

  /** A call to the model: what came back, whether the user had stopped the turn by then,
      whether the limit allows more (None when that was not counted), and the tools run. */
  datatype Exchange = Exchange(reply: Reply, stopped: bool, within: Option<bool>, ran: seq<Ran>)

  const MAX_TOOL_CHARS: nat := 40_000

  const REFUSAL := "{\"error\":\"Not run: the daily limit of the assistant is reached\"}"

  function CapToolContent(text: string): (r: string)
    ensures |text| <= MAX_TOOL_CHARS ==> r == text
    ensures |text| > MAX_TOOL_CHARS ==> text[..MAX_TOOL_CHARS] <= r
  {
    if |text| <= MAX_TOOL_CHARS then text
    else
      text[..MAX_TOOL_CHARS] + "\n[cut: " + Decimal(|text| - MAX_TOOL_CHARS)
      + " more characters. Ask for less, e.g. a narrower search or a smaller part.]"
  }

  // ── What a turn is to save ──────────────────────────────────────────────────

  /** The rows other than events. */
  ghost function Told(rows: seq<Row>): seq<Row> { Filter(rows, (r: Row) => !r.Event?) }

  ghost function Results(ran: seq<Ran>): seq<Row> {
    if ran == [] then []
    else
      var last := ran[|ran| - 1];
      Results(ran[..|ran| - 1])
      + if last.outcome.Some? then [Tool(CapToolContent(last.outcome.value), Some(last.call.id))] else []
  }

  ghost function Refusals(calls: seq<Call>): seq<Row> {
    if calls == [] then [] else Refusals(calls[..|calls| - 1]) + [Tool(REFUSAL, Some(calls[|calls| - 1].id))]
  }

  /** What a call to the model leaves in the log: its reply, and a result for each call of
      it that was run or refused; of a broken reply, the text that came. */
  ghost function RowsOf(x: Exchange): seq<Row> {
    match x.reply
    case Broken(partial) => if partial == "" then [] else [Assistant(partial, [])]
    case Answer(content, calls) =>
      [Assistant(content, calls)] + if x.within == Some(false) then Refusals(calls) else Results(x.ran)
  }

  ghost function AllRows(rounds: seq<Exchange>): seq<Row> {
    if rounds == [] then [] else AllRows(rounds[..|rounds| - 1]) + RowsOf(rounds[|rounds| - 1])
  }

  ghost predicate AllGave(ran: seq<Ran>) { forall k :: 0 <= k < |ran| ==> ran[k].outcome.Some? }

  /** The tools run are those called, in order, up to one that threw. */
  ghost predicate InTurn(ran: seq<Ran>, calls: seq<Call>) {
    && |ran| <= |calls| && (forall k :: 0 <= k < |ran| ==> ran[k].call == calls[k])
    && (ran != [] ==> AllGave(ran[..|ran| - 1]))
  }

  /** The calls of a reply were run within the limit. */
  ghost predicate Running(x: Exchange) {
    && x.reply.Answer? && x.reply.calls != [] && x.within == Some(true)
    && InTurn(x.ran, x.reply.calls)
  }

  /** A round that leads to the next one ran every call of its reply. */
  ghost predicate GoesOn(x: Exchange) { Running(x) && AllGave(x.ran) && |x.ran| == |x.reply.calls| }

  /** Why a turn ends: it fails only when a reply broke without the user's stop, the limit
      could not be counted, a tool threw or the database refused a row. */
  ghost predicate EndsAs(x: Exchange, end: TurnEnd, refused: bool) {
    match end
    case Finished => x.reply.Answer? && x.reply.calls == [] && x.ran == []
    case LimitReached => x.reply.Answer? && x.reply.calls != [] && x.within == Some(false) && x.ran == []
    case Stopped => if x.reply.Broken? then x.stopped && x.ran == [] else Running(x) && AllGave(x.ran)
    case Failed =>
      && (x.ran == [] || Running(x))
      && (refused || !AllGave(x.ran) || if x.reply.Broken? then !x.stopped else x.within.None?)
    case TooManyRounds => GoesOn(x)
  }

  /** The last round's rows are all saved, unless the turn failed: then up to the failure,
      and nothing of a broken reply or one that could not be counted. */
  ghost predicate Recorded(before: seq<Row>, after: seq<Row>, x: Exchange, failed: bool) {
    if !failed then after == before + RowsOf(x)
    else
      && before <= after <= before + RowsOf(x)
      && (x.reply.Broken? || x.within.None? ==> after == before)
      && (x.ran != [] ==> after == before + RowsOf(x.(ran := x.ran[..|x.ran| - 1])))
  }

  /** What a turn did: each round but the last ran all the calls it got, the rows saved are
      the replies and results in order, and each call was sent the history and these. */
  ghost predicate Went(before: seq<Row>, after: seq<Row>, history: seq<Message>, sent: seq<seq<Message>>,
      rounds: seq<Exchange>, end: TurnEnd, refused: bool) {
    && rounds != [] && |sent| == |rounds| <= MAX_ROUNDS
    && (forall i :: 0 <= i < |rounds| - 1 ==> GoesOn(rounds[i]))
    && EndsAs(rounds[|rounds| - 1], end, refused)
    && Recorded(before + AllRows(rounds[..|rounds| - 1]), after, rounds[|rounds| - 1], end.Failed?)
    && AllSendable(sent, history, rounds)
    && (end.TooManyRounds? ==> |rounds| == MAX_ROUNDS)
  }

  /** Call i is sent the history and what was saved before it, well formed with it. */
  ghost predicate Sendable(m: seq<Message>, history: seq<Message>, rounds: seq<Exchange>, i: nat)
    requires i <= |rounds|
  {
    && m == history + Said(AllRows(rounds[..i]))
    && (WellFormed(history) ==> WellFormed(m))
  }

  ghost predicate AllSendable(sent: seq<seq<Message>>, history: seq<Message>, rounds: seq<Exchange>) {
    |sent| <= |rounds| && forall i :: 0 <= i < |sent| ==> Sendable(sent[i], history, rounds, i)
  }

  ghost predicate AllWell(sent: seq<seq<Message>>) { forall m :: m in sent ==> WellFormed(m) }

  lemma {:induction false} WentWell(before: seq<Row>, after: seq<Row>, history: seq<Message>, sent: seq<seq<Message>>,
      rounds: seq<Exchange>, end: TurnEnd, refused: bool)
    requires Went(before, after, history, sent, rounds, end, refused) && WellFormed(history)
    ensures AllWell(sent)
  {
    hide Recorded, EndsAs, GoesOn, WellFormed, Said, AllRows;
    forall m | m in sent ensures WellFormed(m) {
      var i :| 0 <= i < |sent| && sent[i] == m;
      assert Sendable(sent[i], history, rounds, i);
    }
  }

  /** The messages the turn keeps for the rows it saved; events are not among them. */
  ghost function Said(rows: seq<Row>): seq<Message> {
    if rows == [] then []
    else
      (match rows[0]
       case Assistant(content, calls) => [AssistantMessage(Words(content), calls)]
       case Tool(content, callId) => if callId.Some? then [ToolMessage(callId.value, content)] else []
       case _ => []) + Said(rows[1..])
  }

  ghost predicate AllEvents(rows: seq<Row>) { forall r :: r in rows ==> r.Event? }

  lemma {:induction false} SaidConcat(a: seq<Row>, b: seq<Row>)
    ensures Said(a + b) == Said(a) + Said(b)
  {
    if a == [] {
      assert a + b == b;
    } else {
      assert (a + b)[1..] == a[1..] + b;
      SaidConcat(a[1..], b);
    }
  }

  lemma {:induction false} SaidEvents(rows: seq<Row>)
    requires AllEvents(rows)
    ensures Said(rows) == []
  {
    if rows != [] {
      assert rows[0] in rows;
      SaidEvents(rows[1..]);
    }
  }

  lemma {:induction false} ToldNext(log: seq<Row>, r: Row)
    ensures Told(log + [r]) == if r.Event? then Told(log) else Told(log) + [r]
  {
    FilterConcat(log, [r], (r: Row) => !r.Event?);
    assert [r][1..] == [];
  }

  lemma {:induction false} ToldEvents(log: seq<Row>, notes: seq<Row>)
    requires AllEvents(notes)
    ensures Told(log + notes) == Told(log)
    decreases |notes|
  {
    if notes == [] {
      assert log + notes == log;
    } else {
      assert notes[0] in notes && log + notes == (log + [notes[0]]) + notes[1..];
      ToldNext(log, notes[0]);
      ToldEvents(log + [notes[0]], notes[1..]);
    }
  }

  /** Events are not said, so what was said is what was told. */
  lemma {:induction false} SaidTold(rows: seq<Row>)
    ensures Said(Told(rows)) == Said(rows)
  {
    if rows != [] {
      SaidTold(rows[1..]);
      assert rows == [rows[0]] + rows[1..];
      FilterCons(rows[0], rows[1..], (r: Row) => !r.Event?);
      if !rows[0].Event? { SaidConcat([rows[0]], Told(rows[1..])); }
      SaidConcat([rows[0]], rows[1..]);
      if rows[0].Event? { SaidEvents([rows[0]]); }
    }
  }

  lemma {:induction false} SaidAll(start: seq<Row>, log: seq<Row>, rows: seq<Row>)
    requires start <= log && Told(log) == Told(start) + rows
    ensures Said(log[|start|..]) == Said(rows)
  {
    assert log == start + log[|start|..];
    FilterConcat(start, log[|start|..], (r: Row) => !r.Event?);
    assert Told(log[|start|..]) == (Told(start) + Told(log[|start|..]))[|Told(start)|..];
    SaidTold(log[|start|..]);
  }

  lemma {:induction false} EventsKeepOrder(log: seq<Row>, notes: seq<Row>)
    requires Orderly(log, []) && AllEvents(notes)
    ensures AllIds(log + notes) == AllIds(log)
    ensures Orderly(log + notes, []) && PendingAfter(log + notes, []) == PendingAfter(log, [])
    decreases |notes|
  {
    if notes == [] {
      assert log + notes == log;
    } else {
      assert notes[0] in notes && notes == [notes[0]] + notes[1..];
      AppendKeepsOrder(log, notes[0]);
      EventsKeepOrder(log + [notes[0]], notes[1..]);
      assert log + notes == log + [notes[0]] + notes[1..];
      hide Orderly, PendingAfter, AllIds;
    }
  }

  /** The state of a turn: the log it started from, the calls it waits for, and that
      what is kept in memory is the history followed by what was saved since. */
  ghost predicate Mirrors(log: seq<Row>, start: seq<Row>, history: seq<Message>, messages: seq<Message>) {
    && start <= log && Orderly(log, [])
    && messages == history + Said(log[|start|..])
  }

  /** In a round: what is waited for in the log is waited for in memory. */
  ghost predicate Waiting(log: seq<Row>, history: seq<Message>, messages: seq<Message>, pend: seq<string>) {
    PendingAfter(log, []) == pend && Goes(history, messages, pend)
  }

  /** What was added to the history reads well, and pend is still to be answered. */
  ghost predicate Goes(history: seq<Message>, messages: seq<Message>, pend: seq<string>) {
    history <= messages && Read(messages[|history|..], []) == Some(pend)
  }

  lemma {:induction false} MirrorEvents(log: seq<Row>, notes: seq<Row>, start: seq<Row>, history: seq<Message>,
      messages: seq<Message>)
    requires Mirrors(log, start, history, messages) && AllEvents(notes)
    ensures AllIds(log + notes) == AllIds(log) && Told(log + notes) == Told(log)
    ensures Mirrors(log + notes, start, history, messages) && PendingAfter(log + notes, []) == PendingAfter(log, [])
  {
    EventsKeepOrder(log, notes);
    ToldEvents(log, notes);
    hide Told;
    assert (log + notes)[|start|..] == log[|start|..] + notes;
    SaidConcat(log[|start|..], notes);
    SaidEvents(notes);
    assert Said(log[|start|..]) + [] == Said(log[|start|..]);
  }

  lemma {:induction false} MirrorRow(log: seq<Row>, r: Row, start: seq<Row>, history: seq<Message>,
      messages: seq<Message>)
    requires Mirrors(log, start, history, messages) && FitsPend(r, PendingAfter(log, []))
    ensures AllIds(log + [r]) == AllIds(log) + if r.Assistant? then Ids(r.calls) else []
    ensures Mirrors(log + [r], start, history, messages + Said([r]))
      && PendingAfter(log + [r], []) == PendNext(r, PendingAfter(log, []))
  {
    AppendKeepsOrder(log, r);
    assert (log + [r])[|start|..] == log[|start|..] + [r];
    SaidConcat(log[|start|..], [r]);
    assert history + Said(log[|start|..]) + Said([r]) == history + (Said(log[|start|..]) + Said([r]));
  }

  lemma {:induction false} SaidOne(r: Row)
    ensures r.Assistant? ==> Said([r]) == [AssistantMessage(Words(r.content), r.calls)]
    ensures r.Tool? && r.callId.Some? ==> Said([r]) == [ToolMessage(r.callId.value, r.content)]
  {
    assert [r][1..] == [];
  }

  lemma {:induction false} GoesAsked(history: seq<Message>, messages: seq<Message>, words: Option<string>,
      calls: seq<Call>)
    requires Goes(history, messages, [])
    ensures Goes(history, messages + [AssistantMessage(words, calls)], Ids(calls))
  {
    var a := [AssistantMessage(words, calls)];
    ReadConcat(messages[|history|..], a, []);
    assert a[1..] == [] && (messages + a)[|history|..] == messages[|history|..] + a;
  }

  lemma {:induction false} GoesResult(history: seq<Message>, messages: seq<Message>, id: string, content: string,
      pend: seq<string>)
    requires pend != [] && pend[0] == id && Goes(history, messages, pend)
    ensures Goes(history, messages + [ToolMessage(id, content)], pend[1..])
  {
    var a := [ToolMessage(id, content)];
    ReadConcat(messages[|history|..], a, []);
    assert a[1..] == [] && (messages + a)[|history|..] == messages[|history|..] + a;
  }

  /** With a well-formed history, what is sent is well formed. */
  lemma {:induction false} GoesWell(history: seq<Message>, messages: seq<Message>)
    requires Goes(history, messages, [])
    ensures WellFormed(history) ==> WellFormed(messages)
    ensures history <= messages && WellFormed(messages[|history|..])
  {
    ReadConcat(history, messages[|history|..], []);
    assert history + messages[|history|..] == messages;
  }

  lemma {:induction false} GoesStart(history: seq<Message>)
    ensures Goes(history, history, [])
  {
    assert history[|history|..] == [];
  }

  lemma {:induction false} IdsFrom(calls: seq<Call>, k: nat)
    requires k < |calls|
    ensures |Ids(calls)| == |calls| && Ids(calls)[k] == calls[k].id && Ids(calls)[k..][0] == calls[k].id
    ensures Ids(calls)[k..][1..] == Ids(calls)[k + 1..]
  {
    IdsTake(calls, k);
  }

  class Conversation {
    /** The stored rows, oldest first. */
    var log: seq<Row>
    /** Whether the user stopped the turn; once set it stays. */
    var aborted: bool
    /** The conversations sent to the model, one a call. */
    ghost var sent: seq<seq<Message>>
    /** What came of each of these calls. */
    ghost var rounds: seq<Exchange>
    /** How many rows the database refused. */
    ghost var refused: nat

    constructor ()
      ensures log == [] && !aborted && sent == [] && rounds == [] && refused == 0
    {
      log, aborted, sent, rounds, refused := [], false, [], [], 0;
    }

    /** Time passes: decisions can be noted and the user can stop. */
    method Await()
      modifies this`log, this`aborted
      ensures old(log) <= log && AllEvents(log[|old(log)|..]) && (old(aborted) ==> aborted)
    {
      var n: nat :| n >= 0;
      for i := 0 to n
        invariant old(log) <= log && AllEvents(log[|old(log)|..]) && aborted == old(aborted)
      {
        var note: string := *;
        ghost var before := log;
        log := log + [Event(note)];
        assert log[|old(log)|..] == before[|old(log)|..] + [Event(note)];
      }
      var stop: bool := *;
      aborted := aborted || stop;
    }

    /** Waits, keeping what the turn relies on. */
    method Wait(ghost start: seq<Row>, ghost history: seq<Message>, ghost messages: seq<Message>)
      requires Mirrors(log, start, history, messages)
      modifies this`log, this`aborted
      ensures Mirrors(log, start, history, messages) && PendingAfter(log, []) == old(PendingAfter(log, []))
      ensures old(log) <= log && (old(aborted) ==> aborted)
      ensures AllIds(log) == old(AllIds(log)) && Told(log) == old(Told(log))
    {
      hide Mirrors, PendingAfter, AllIds, Told;
      Await();
      MirrorEvents(old(log), log[|old(log)|..], start, history, messages);
      assert old(log) + log[|old(log)|..] == log;
    }

    /** Saves a row; false when the database refused it. */
    method Save(r: Row, ghost start: seq<Row>, ghost history: seq<Message>, ghost messages: seq<Message>)
        returns (ok: bool, ghost after: seq<Message>)
      requires Mirrors(log, start, history, messages) && FitsPend(r, PendingAfter(log, [])) && !r.Event?
      modifies this`log, this`aborted, this`refused
      ensures Mirrors(log, start, history, after) && after == if ok then messages + Said([r]) else messages
      ensures PendingAfter(log, []) == if ok then PendNext(r, old(PendingAfter(log, [])))
        else old(PendingAfter(log, []))
      ensures AllIds(log) == old(AllIds(log)) + if ok && r.Assistant? then Ids(r.calls) else []
      ensures Told(log) == if ok then old(Told(log)) + [r] else old(Told(log))
      ensures refused == old(refused) + if ok then 0 else 1
      ensures old(log) <= log && (old(aborted) ==> aborted)
    {
      hide Mirrors, PendingAfter, Said, Told;
      Wait(start, history, messages);
      ok, after := *, messages;
      if ok {
        MirrorRow(log, r, start, history, messages);
        ToldNext(log, r);
        log, after := log + [r], messages + Said([r]);
        Wait(start, history, after);
      } else {
        refused := refused + 1;
      }
    }

    /** One call to the model. */
    method Stream(messages: seq<Message>, ghost start: seq<Row>, ghost history: seq<Message>) returns (reply: Reply)
      requires Mirrors(log, start, history, messages)
      modifies this
      ensures Mirrors(log, start, history, messages) && PendingAfter(log, []) == old(PendingAfter(log, []))
      ensures old(log) <= log && (old(aborted) ==> aborted) && Told(log) == old(Told(log))
      ensures sent == old(sent) + [messages] && rounds == old(rounds) + [Exchange(reply, aborted, None, [])]
      ensures refused == old(refused)
    {
      sent := sent + [messages];
      Wait(start, history, messages);
      reply := *;
      rounds := rounds + [Exchange(reply, aborted, None, [])];
    }

    /** Counts what the last call cost: whether the limit allows more, or None on a failure. */
    method Used(ghost start: seq<Row>, ghost history: seq<Message>, ghost messages: seq<Message>)
        returns (within: Option<bool>)
      requires Mirrors(log, start, history, messages) && rounds != []
      modifies this`log, this`aborted, this`rounds
      ensures Mirrors(log, start, history, messages) && PendingAfter(log, []) == old(PendingAfter(log, []))
      ensures old(log) <= log && (old(aborted) ==> aborted) && Told(log) == old(Told(log))
      ensures rounds == old(rounds[..|rounds| - 1] + [rounds[|rounds| - 1].(within := within)])
    {
      Wait(start, history, messages);
      within := *;
      rounds := rounds[..|rounds| - 1] + [rounds[|rounds| - 1].(within := within)];
    }

    /** Runs a tool for the last reply, never after the user's stop; None when it threw. */
    method RunTool(call: Call, ghost start: seq<Row>, ghost history: seq<Message>, ghost messages: seq<Message>)
        returns (outcome: Option<string>)
      requires Mirrors(log, start, history, messages) && rounds != [] && !aborted
      modifies this`log, this`aborted, this`rounds
      ensures Mirrors(log, start, history, messages) && PendingAfter(log, []) == old(PendingAfter(log, []))
      ensures old(log) <= log && (old(aborted) ==> aborted) && Told(log) == old(Told(log))
      ensures rounds == old(AddRan(rounds, Ran(call, outcome)))
    {
      Wait(start, history, messages);
      outcome := *;
      rounds := AddRan(rounds, Ran(call, outcome));
    }

    /** Answers every call of the last reply without running it. */
    method RefuseCalls(calls: seq<Call>, ghost start: seq<Row>, ghost history: seq<Message>, ghost kept: seq<Message>)
        returns (ok: bool, ghost messages: seq<Message>)
      requires Mirrors(log, start, history, kept) && PendingAfter(log, []) == Ids(calls)
      modifies this`log, this`aborted, this`refused
      ensures Mirrors(log, start, history, messages) && (ok ==> PendingAfter(log, []) == [])
      ensures old(log) <= log && (old(aborted) ==> aborted)
      ensures old(Told(log)) <= Told(log) <= old(Told(log)) + Refusals(calls)
      ensures refused >= old(refused) && (!ok ==> refused > old(refused))
      ensures ok ==> Told(log) == old(Told(log)) + Refusals(calls)
    {
      hide Mirrors, PendingAfter, Said, Orderly, Ids, Told, Refusals;
      messages, ok := kept, true;
      IdsTake(calls, 0);
      assert Ids(calls)[0..] == Ids(calls);
      RefusalsTake(calls, 0);
      for k := 0 to |calls|
        invariant |Ids(calls)| == |calls|
        invariant Mirrors(log, start, history, messages) && PendingAfter(log, []) == Ids(calls)[k..]
        invariant old(log) <= log && (old(aborted) ==> aborted) && refused == old(refused)
        invariant Told(log) == old(Told(log)) + Refusals(calls[..k]) && Refusals(calls[..k]) <= Refusals(calls)
      {
        IdsFrom(calls, k);
        RefusalsTake(calls, k);
        var r := Tool(REFUSAL, Some(calls[k].id));
        var done;
        done, messages := Save(r, start, history, messages);
        if !done { return false, messages; }
      }
      assert calls[..|calls|] == calls;
    }

    /** Runs the calls of the last reply, one by one, and saves their results. */
    method RunCalls(calls: seq<Call>, kept: seq<Message>, ghost start: seq<Row>, ghost history: seq<Message>)
        returns (end: Option<TurnEnd>, messages: seq<Message>)
      requires Mirrors(log, start, history, kept) && Waiting(log, history, kept, Ids(calls))
      requires rounds != [] && rounds[|rounds| - 1].ran == []
      modifies this`log, this`aborted, this`rounds, this`refused
      ensures Mirrors(log, start, history, messages) && old(log) <= log && (old(aborted) ==> aborted)
      ensures end.None? ==> Waiting(log, history, messages, []) && refused == old(refused)
      ensures end.Some? ==> (end.value.Stopped? && aborted) || end.value.Failed?
      ensures |rounds| == old(|rounds|) && refused >= old(refused)
      ensures var ran := rounds[|rounds| - 1].ran;
              && rounds == old(WithRan(rounds, ran)) && InTurn(ran, calls) && (end != Some(Failed) ==> AllGave(ran))
              && (end.None? ==> |ran| == |calls|)
              && (end == Some(Failed) ==> ran != [] && (refused > old(refused) || !AllGave(ran)))
              && Told(log) == old(Told(log)) + Results(if end == Some(Failed) then ran[..|ran| - 1] else ran)
    {
      hide Mirrors, PendingAfter, Said, Orderly, Ids, Read, CapToolContent, Told, Results, AllGave, InTurn, WithRan,
        AddRan;
      messages, end := kept, None;
      IdsTake(calls, 0);
      assert Ids(calls)[0..] == Ids(calls);
      ghost var ran: seq<Ran> := [];
      NoneRan(rounds, calls);
      for k := 0 to |calls|
        invariant |Ids(calls)| == |calls| && end.None?
        invariant Mirrors(log, start, history, messages) && Waiting(log, history, messages, Ids(calls)[k..])
        invariant old(log) <= log && (old(aborted) ==> aborted) && refused == old(refused)
        invariant rounds == WithRan(old(rounds), ran) && |ran| == k && InTurn(ran, calls) && AllGave(ran)
        invariant Told(log) == old(Told(log)) + Results(ran)
      {
        IdsFrom(calls, k);
        LastRan(old(rounds), ran);
        if aborted { return Some(Stopped), messages; }
        var outcome := RunTool(calls[k], start, history, messages);
        OneMoreRan(old(rounds), ran, Ran(calls[k], outcome), calls);
        ghost var before := ran;
        ran := ran + [Ran(calls[k], outcome)];
        LastRan(old(rounds), ran);
        assert ran[..|ran| - 1] == before;
        if outcome.None? { return Some(Failed), messages; }
        var content := CapToolContent(outcome.value);
        var r := Tool(content, Some(calls[k].id));
        var saved, _ := Save(r, start, history, messages);
        if !saved { return Some(Failed), messages; }
        SaidOne(r);
        GoesResult(history, messages, calls[k].id, content, Ids(calls)[k..]);
        messages := messages + [ToolMessage(calls[k].id, content)];
      }
      LastRan(old(rounds), ran);
    }

    /** A call that failed: what was written before the user's stop is kept. */
    method KeepPartial(partial: string, ghost start: seq<Row>, ghost history: seq<Message>,
        ghost messages: seq<Message>) returns (end: TurnEnd)
      requires Mirrors(log, start, history, messages)
      modifies this`log, this`aborted, this`refused
      ensures Orderly(log, []) && old(log) <= log && (old(aborted) ==> aborted)
      ensures (end.Stopped? && aborted) || end.Failed?
      ensures old(aborted) && partial == "" ==> end.Stopped? && log == old(log)
      ensures refused >= old(refused) && (end.Failed? ==> !old(aborted) || refused > old(refused))
      ensures end.Stopped? ==> old(aborted)
      ensures end.Stopped? ==>
        Mirrors(log, start, history, if partial == "" then messages else messages + Said([Assistant(partial, [])]))
      ensures Told(log) == old(Told(log)) + if end.Stopped? && partial != "" then [Assistant(partial, [])] else []
    {
      hide Told;
      MirrorGives(log, start, history, messages);
      if !aborted { return Failed; }
      if partial == "" { return Stopped; }
      var saved, after := Save(Assistant(partial, []), start, history, messages);
      MirrorGives(log, start, history, after);
      end := if saved then Stopped else Failed;
    }

    /** runTurn: each call is sent the history and the replies and results so far, which is
        well formed when the history is; these are the rows saved; the log stays orderly;
        and a turn that was neither stopped nor failed leaves no call without its result. */
    method RunTurn(history: seq<Message>) returns (end: TurnEnd)
      requires Orderly(log, [])
      modifies this
      ensures Orderly(log, []) && old(log) <= log && (old(aborted) ==> aborted)
      ensures old(sent) <= sent && old(rounds) <= rounds && refused >= old(refused)
      ensures Went(old(Told(log)), Told(log), history, sent[|old(sent)|..], rounds[|old(rounds)|..], end,
        refused > old(refused))
      ensures end.Finished? || end.LimitReached? || end.TooManyRounds? ==> PendingAfter(log, []) == []
      ensures end.Stopped? ==> aborted
    {
      ghost var start, past := log, rounds;
      var messages := history;
      MirrorStart(log, history);
      GoesStart(history);
      hide Mirrors, PendingAfter, Said, Orderly, Ids, Read, WellFormed, Goes, AllSendable, Told, AllRows, GoesOn,
        Went, EndsAs, Recorded, Under;
      TurnBegins(history, start, sent, rounds);
      for round := 0 to MAX_ROUNDS
        invariant Mirrors(log, start, history, messages) && Goes(history, messages, [])
        invariant (round > 0 ==> !aborted && PendingAfter(log, []) == []) && (old(aborted) ==> aborted)
        invariant old(log) <= log && old(sent) <= sent && past <= rounds && refused == old(refused)
        invariant |sent| == |old(sent)| + round && |rounds| == |past| + round
        invariant Under(Told(start), Told(log), history, sent[|old(sent)|..], rounds[|past|..])
      {
        var stop;
        stop, messages := NextRound(messages, start, history, |old(sent)|, |past|);
        if stop.Some? { return stop.value; }
      }
      MirrorGives(log, start, history, messages);
      end := TooManyRounds;
      TurnTooLong(Told(start), Told(log), history, sent[|old(sent)|..], rounds[|past|..]);
    }

    /** One round: a call to the model and what its reply leads to. sentFrom and from are
        where the turn starts in sent and rounds. */
    method NextRound(kept: seq<Message>, ghost start: seq<Row>, ghost history: seq<Message>, ghost sentFrom: nat,
        ghost from: nat) returns (stop: Option<TurnEnd>, messages: seq<Message>)
      requires Mirrors(log, start, history, kept) && Goes(history, kept, [])
      requires sentFrom <= |sent| && from <= |rounds| < from + MAX_ROUNDS && (from < |rounds| ==> !aborted)
      requires Under(Told(start), Told(log), history, sent[sentFrom..], rounds[from..])
      modifies this
      ensures Orderly(log, []) && old(log) <= log && (old(aborted) ==> aborted)
      ensures old(sent) <= sent && |sent| == old(|sent|) + 1
      ensures old(rounds) <= rounds && |rounds| == old(|rounds|) + 1 && refused >= old(refused)
      ensures stop.None? ==>
        && !aborted && Mirrors(log, start, history, messages) && Waiting(log, history, messages, [])
        && Under(Told(start), Told(log), history, sent[sentFrom..], rounds[from..]) && refused == old(refused)
      ensures stop.Some? ==>
        && Went(Told(start), Told(log), history, sent[sentFrom..], rounds[from..], stop.value, refused > old(refused))
        && !stop.value.TooManyRounds? && (stop.value.Stopped? ==> aborted)
        && (stop.value.Finished? || stop.value.LimitReached? ==> PendingAfter(log, []) == [])
    {
      hide Mirrors, PendingAfter, Said, Orderly, Ids, Read, WellFormed, Goes, AllSendable, Told, AllRows, GoesOn,
        Went, EndsAs, Recorded, Under;
      ghost var told, said, done := Told(log), sent[sentFrom..], rounds[from..];
      InTime(Told(start), told, history, said, done);
      var reply := Ask(kept, start, history, sentFrom, from);
      ghost var begun := rounds[|rounds| - 1];
      messages := kept;
      if reply.Broken? {
        var end := KeepPartial(reply.partial, start, history, kept);
        EndsBroken(Told(start), told, Told(log), history, said, sent[sentFrom..], done, begun, end,
          refused > old(refused));
        return Some(end), messages;
      }
      ghost var asked := rounds[..|rounds| - 1];
      stop, messages := Round(reply.content, reply.calls, kept, start, history);
      ghost var x := rounds[|rounds| - 1];
      assert rounds == asked + [x] && rounds[from..] == done + [x];
      RoundEnds(Told(start), told, Told(log), history, said, sent[sentFrom..], done, begun, x, stop,
        refused > old(refused));
    }

    /** Sends the conversation, after the user's stop only if it is the turn's first call. */
    method Ask(messages: seq<Message>, ghost start: seq<Row>, ghost history: seq<Message>, ghost sentFrom: nat,
        ghost from: nat) returns (reply: Reply)
      requires Mirrors(log, start, history, messages) && Goes(history, messages, [])
      requires sentFrom <= |sent| && from <= |rounds| && (from < |rounds| ==> !aborted)
      requires Under(Told(start), Told(log), history, sent[sentFrom..], rounds[from..])
      modifies this
      ensures Mirrors(log, start, history, messages) && PendingAfter(log, []) == old(PendingAfter(log, []))
      ensures start <= log && old(log) <= log && (old(aborted) ==> aborted) && Told(log) == old(Told(log))
      ensures sent == old(sent) + [messages] && rounds == old(rounds) + [Exchange(reply, aborted, None, [])]
      ensures rounds[from..] == old(rounds[from..]) + [Exchange(reply, aborted, None, [])]
      ensures AllSendable(sent[sentFrom..], history, rounds[from..])
      ensures |sent[sentFrom..]| == |rounds[from..]| && refused == old(refused)
    {
      hide Mirrors, PendingAfter, Goes, AllSendable, Told, AllRows, GoesOn;
      reply := Stream(messages, start, history);
      SendableNext(old(sent)[sentFrom..], messages, history, start, old(log), old(rounds)[from..],
        Exchange(reply, aborted, None, []));
      assert sent[sentFrom..] == old(sent)[sentFrom..] + [messages];
      assert rounds[from..] == old(rounds)[from..] + [Exchange(reply, aborted, None, [])];
      MirrorGives(log, start, history, messages);
    }

    /** What a reply leads to: saved, then its calls run, or refused at the limit. */
    method Round(content: string, calls: seq<Call>, kept: seq<Message>, ghost start: seq<Row>,
        ghost history: seq<Message>) returns (stop: Option<TurnEnd>, messages: seq<Message>)
      requires Mirrors(log, start, history, kept) && Goes(history, kept, [])
      requires rounds != []
      requires var x := rounds[|rounds| - 1]; x == Exchange(Answer(content, calls), x.stopped, None, [])
      modifies this`log, this`aborted, this`rounds, this`refused
      ensures Orderly(log, []) && old(log) <= log && (old(aborted) ==> aborted)
      ensures stop.None? ==>
        && !aborted && Mirrors(log, start, history, messages) && Waiting(log, history, messages, [])
        && refused == old(refused)
      ensures stop.Some? ==> !stop.value.TooManyRounds? && (stop.value.Stopped? ==> aborted)
      ensures stop.Some? && (stop.value.Finished? || stop.value.LimitReached?) ==> PendingAfter(log, []) == []
      ensures |rounds| == old(|rounds|) && rounds[..|rounds| - 1] == old(rounds[..|rounds| - 1])
      ensures refused >= old(refused) && rounds[|rounds| - 1].reply == Answer(content, calls)
      ensures var x := rounds[|rounds| - 1];
              if stop.None? then GoesOn(x) else EndsAs(x, stop.value, refused > old(refused))
      ensures Recorded(old(Told(log)), Told(log), rounds[|rounds| - 1], stop == Some(Failed))
    {
      hide Mirrors, PendingAfter, Said, Orderly, Ids, Read, WellFormed, Goes, Told, Results, Refusals, InTurn, AllGave,
        Recorded, RowsOf;
      messages := kept;
      ghost var told := Told(log);
      NothingRun(calls);
      var within := Used(start, history, messages);
      MirrorGives(log, start, history, messages);
      NothingSaved(told, rounds[|rounds| - 1]);
      if within.None? { return Some(Failed), messages; }
      var saved, after := Save(Assistant(content, calls), start, history, messages);
      MirrorGives(log, start, history, after);
      if !saved { return Some(Failed), messages; }
      SaidOne(Assistant(content, calls));
      GoesAsked(history, messages, Words(content), calls);
      messages := messages + [AssistantMessage(Words(content), calls)];
      if calls == [] {
        NoIds();
        OnlySaid(told, rounds[|rounds| - 1]);
        return Some(Finished), messages;
      }
      if !within.value {
        var done;
        done, after := RefuseCalls(calls, start, history, messages);
        MirrorGives(log, start, history, after);
        RefusedRows(told, Told(log), rounds[|rounds| - 1], !done);
        return Some(if done then LimitReached else Failed), messages;
      }
      stop, messages := RunCalls(calls, messages, start, history);
      MirrorGives(log, start, history, messages);
      RanRows(told, Told(log), rounds[|rounds| - 1], stop == Some(Failed));
      if stop.None? && aborted { stop := Some(Stopped); }
    }

    /** Answers the conversation as it is now stored. */
    method Respond() returns (end: TurnEnd)
      requires Orderly(log, []) && Distinct(AllIds(log)) && "" !in AllIds(log)
      modifies this
      ensures Orderly(log, []) && old(log) <= log
      ensures old(sent) <= sent && old(rounds) <= rounds && refused >= old(refused)
      ensures Went(old(Told(log)), Told(log), old(Sees(log)), sent[|old(sent)|..], rounds[|old(rounds)|..], end,
        refused > old(refused))
      ensures AllWell(sent[|old(sent)|..])
    {
      hide Orderly, PendingAfter, WellFormed, Render, AllIds, Distinct, Answered, Told, Went, Sees;
      var n := if |log| > HISTORY_MESSAGES then |log| - HISTORY_MESSAGES else 0;
      var history := HistoryForModel(log[n..], HISTORY_MESSAGES);
      SeesWell(log);
      end := RunTurn(history);
      WentWell(old(Told(log)), Told(log), history, sent[|old(sent)|..], rounds[|old(rounds)|..], end,
        refused > old(refused));
    }

    /** startTurn: saves the user's message, if any, and answers what is then stored: what is
        sent is well formed as long as no id was used twice. */
    method StartTurn(message: string) returns (end: TurnEnd)
      requires Orderly(log, []) && Distinct(AllIds(log)) && "" !in AllIds(log)
      modifies this
      ensures Orderly(log, []) && old(log) <= log
      ensures old(sent) <= sent && old(rounds) <= rounds && refused >= old(refused)
      ensures Replied(old(log), message, log, sent[|old(sent)|..], rounds[|old(rounds)|..], end,
        refused > old(refused))
      ensures AllWell(sent[|old(sent)|..])
    {
      hide Orderly, PendingAfter, WellFormed, Said, Mirrors, AllIds, Distinct, Told, Went, Sees;
      MirrorStart(log, []);
      ghost var begun := log;
      if message != "" {
        var saved, after := Save(User(message), begun, [], []);
        MirrorGives(log, begun, [], after);
        assert old(AllIds(log)) + [] == old(AllIds(log));
        if !saved { return Failed; }
      } else {
        Wait(begun, [], []);
        MirrorGives(log, begun, [], []);
      }
      ghost var asked := log;
      end := Respond();
      assert begun <= asked <= log;
    }
  }

  /** What the model is shown of a log: its last rows, from the first of a user on. */
  ghost function Sees(log: seq<Row>): seq<Message> {
    var n := if |log| > HISTORY_MESSAGES then |log| - HISTORY_MESSAGES else 0;
    Render(Window(log, n, HISTORY_MESSAGES), Answered(log[n..]))
  }

  lemma {:induction false} SeesWell(log: seq<Row>)
    requires Orderly(log, []) && Distinct(AllIds(log)) && "" !in AllIds(log)
    ensures var stored := log[if |log| > HISTORY_MESSAGES then |log| - HISTORY_MESSAGES else 0..];
            Sees(log) == Render(stored[FirstUser(stored, 0)..], Answered(stored)) && WellFormed(Sees(log))
  {
    hide Orderly, WellFormed, Render, AllIds, Distinct, Answered;
    var n := if |log| > HISTORY_MESSAGES then |log| - HISTORY_MESSAGES else 0;
    DistinctIdsMakeWindowsWellFormed(log, n, HISTORY_MESSAGES);
  }

  /** The user's message was saved and the turn run on what was then stored; or it could not
      be saved, and nothing was sent. */
  ghost predicate Replied(before: seq<Row>, message: string, after: seq<Row>, sent: seq<seq<Message>>,
      rounds: seq<Exchange>, end: TurnEnd, refused: bool) {
    || (message != "" && end.Failed? && refused && sent == [] && rounds == [] && Told(after) == Told(before))
    || exists asked :: before <= asked <= after && Told(asked) == Told(before) + (if message == "" then [] else
      [User(message)]) && Went(Told(asked), Told(after), Sees(asked), sent, rounds, end, refused)
  }

  /** The turn so far, between two rounds. */
  ghost predicate Under(before: seq<Row>, after: seq<Row>, history: seq<Message>, sent: seq<seq<Message>>,
      rounds: seq<Exchange>) {
    && |sent| == |rounds| && (forall i :: 0 <= i < |rounds| ==> GoesOn(rounds[i]))
    && after == before + AllRows(rounds) && AllSendable(sent, history, rounds)
  }

  lemma {:induction false} TurnBegins(history: seq<Message>, start: seq<Row>, sent: seq<seq<Message>>,
      rounds: seq<Exchange>)
    ensures Under(Told(start), Told(start), history, sent[|sent|..], rounds[|rounds|..])
  {}

  lemma {:induction false} InTime(before: seq<Row>, now: seq<Row>, history: seq<Message>, sent: seq<seq<Message>>,
      rounds: seq<Exchange>)
    requires Under(before, now, history, sent, rounds)
    ensures |sent| == |rounds|
  {}

  lemma {:induction false} EndsBroken(before: seq<Row>, now: seq<Row>, after: seq<Row>, history: seq<Message>,
      past: seq<seq<Message>>, sent: seq<seq<Message>>, done: seq<Exchange>, begun: Exchange,
      end: TurnEnd, refused: bool)
    requires Under(before, now, history, past, done) && |done| < MAX_ROUNDS && |sent| == |done| + 1
    requires AllSendable(sent, history, done + [begun])
    requires begun.reply.Broken? && begun.within.None? && begun.ran == []
    requires (end.Stopped? && begun.stopped) || (end.Failed? && (!begun.stopped || refused))
    requires after == now
      + if end.Stopped? && begun.reply.partial != "" then [Assistant(begun.reply.partial, [])] else []
    ensures Went(before, after, history, sent, done + [begun], end, refused)
  {
    hide AllRows, GoesOn, AllSendable;
    assert (done + [begun])[..|done|] == done;
  }

  /** A round that is over, as part of the turn. */
  lemma {:induction false} RoundEnds(before: seq<Row>, now: seq<Row>, after: seq<Row>, history: seq<Message>,
      past: seq<seq<Message>>, sent: seq<seq<Message>>, done: seq<Exchange>, begun: Exchange,
      x: Exchange, stop: Option<TurnEnd>, refused: bool)
    requires Under(before, now, history, past, done) && |done| < MAX_ROUNDS && |sent| == |done| + 1
    requires AllSendable(sent, history, done + [begun])
    requires Recorded(now, after, x, stop == Some(Failed))
    requires if stop.None? then GoesOn(x) else !stop.value.TooManyRounds? && EndsAs(x, stop.value, refused)
    ensures stop.None? ==> Under(before, after, history, sent, done + [x])
    ensures stop.Some? ==> Went(before, after, history, sent, done + [x], stop.value, refused)
  {
    SendableLast(sent, history, done, begun, x);
    assert (done + [x])[..|done|] == done;
    hide GoesOn, EndsAs, AllSendable, AllRows, Recorded;
    if stop.None? { RecordedWhole(before, after, done, x); }
  }

  lemma {:induction false} RecordedWhole(before: seq<Row>, after: seq<Row>, done: seq<Exchange>, x: Exchange)
    requires Recorded(before + AllRows(done), after, x, false)
    ensures after == before + AllRows(done + [x])
  {
    assert (done + [x])[..|done|] == done;
    hide RowsOf;
    assert before + AllRows(done) + RowsOf(x) == before + (AllRows(done) + RowsOf(x));
  }

  lemma {:induction false} TurnTooLong(before: seq<Row>, after: seq<Row>, history: seq<Message>,
      sent: seq<seq<Message>>, rounds: seq<Exchange>)
    requires Under(before, after, history, sent, rounds) && |rounds| == MAX_ROUNDS
    ensures forall refused :: Went(before, after, history, sent, rounds, TooManyRounds, refused)
  {
    hide GoesOn, RowsOf, AllSendable;
    var n := |rounds| - 1;
    assert before + AllRows(rounds[..n]) + RowsOf(rounds[n]) == before + (AllRows(rounds[..n]) + RowsOf(rounds[n]));
  }

  /** The rounds with ran as the tools run for the last one. */
  ghost function WithRan(rounds: seq<Exchange>, ran: seq<Ran>): (r: seq<Exchange>)
    requires rounds != []
  {
    rounds[..|rounds| - 1] + [rounds[|rounds| - 1].(ran := ran)]
  }

  ghost function AddRan(rounds: seq<Exchange>, r: Ran): seq<Exchange>
    requires rounds != []
  {
    WithRan(rounds, rounds[|rounds| - 1].ran + [r])
  }

  lemma {:induction false} NoneRan(rounds: seq<Exchange>, calls: seq<Call>)
    requires rounds != [] && rounds[|rounds| - 1].ran == []
    ensures WithRan(rounds, []) == rounds && InTurn([], calls) && AllGave([]) && Results([]) == []
  {}

  lemma {:induction false} LastRan(rounds: seq<Exchange>, ran: seq<Ran>)
    requires rounds != []
    ensures var now := WithRan(rounds, ran); |now| == |rounds| && now[|now| - 1].ran == ran
  {}

  lemma {:induction false} OneMoreRan(rounds: seq<Exchange>, ran: seq<Ran>, r: Ran, calls: seq<Call>)
    requires rounds != [] && InTurn(ran, calls) && AllGave(ran) && |ran| < |calls| && r.call == calls[|ran|]
    ensures WithRan(rounds, ran) != [] && AddRan(WithRan(rounds, ran), r) == WithRan(rounds, ran + [r])
    ensures InTurn(ran + [r], calls) && (r.outcome.Some? <==> AllGave(ran + [r]))
    ensures Results(ran + [r]) == Results(ran)
      + if r.outcome.Some? then [Tool(CapToolContent(r.outcome.value), Some(r.call.id))] else []
  {
    hide CapToolContent;
    assert (ran + [r])[..|ran|] == ran && (ran + [r])[|ran|] == r;
  }

  lemma {:induction false} RefusalsTake(calls: seq<Call>, k: nat)
    requires k < |calls| || k == 0
    ensures Refusals([]) == [] && calls[..0] == []
    ensures k < |calls| ==>
      && Refusals(calls[..k + 1]) == Refusals(calls[..k]) + [Tool(REFUSAL, Some(calls[k].id))]
      && Refusals(calls[..k + 1]) <= Refusals(calls)
    decreases |calls|
  {
    if k < |calls| {
      assert calls[..k + 1][..k] == calls[..k];
      var rest := calls[..|calls| - 1];
      if k < |rest| {
        RefusalsTake(rest, k);
        assert rest[..k + 1] == calls[..k + 1];
      } else {
        assert calls[..k + 1] == calls;
      }
    }
  }

  lemma {:induction false} NothingRun(calls: seq<Call>)
    ensures InTurn([], calls) && AllGave([]) && Results([]) == [] && Refusals([]) == []
  {}

  lemma {:induction false} NothingSaved(before: seq<Row>, x: Exchange)
    requires x.reply.Answer? && x.ran == []
    ensures Recorded(before, before, x, true)
  {
    hide Refusals, Results;
  }

  lemma {:induction false} OnlySaid(before: seq<Row>, x: Exchange)
    requires x.reply.Answer? && x.reply.calls == [] && x.ran == []
    ensures Recorded(before, before + [Assistant(x.reply.content, [])], x, false)
  {}

  lemma {:induction false} RefusedRows(before: seq<Row>, after: seq<Row>, x: Exchange, failed: bool)
    requires x.reply.Answer? && x.within == Some(false) && x.ran == []
    requires var said := before + [Assistant(x.reply.content, x.reply.calls)];
      && said <= after <= said + Refusals(x.reply.calls)
      && (!failed ==> after == said + Refusals(x.reply.calls))
    ensures Recorded(before, after, x, failed)
  {
    var a, refused := [Assistant(x.reply.content, x.reply.calls)], Refusals(x.reply.calls);
    assert before + a + refused == before + (a + refused);
    hide Refusals;
  }

  lemma {:induction false} RanRows(before: seq<Row>, after: seq<Row>, x: Exchange, failed: bool)
    requires x.reply.Answer? && x.within == Some(true) && (failed ==> x.ran != [])
    requires after == before + [Assistant(x.reply.content, x.reply.calls)]
      + Results(if failed then x.ran[..|x.ran| - 1] else x.ran)
    ensures Recorded(before, after, x, failed)
  {
    var a := [Assistant(x.reply.content, x.reply.calls)];
    var ran := if failed then x.ran[..|x.ran| - 1] else x.ran;
    assert before + a + Results(ran) == before + (a + Results(ran));
    hide CapToolContent;
  }

  lemma {:induction false} SendableNext(sent: seq<seq<Message>>, m: seq<Message>, history: seq<Message>,
      start: seq<Row>, log: seq<Row>, rounds: seq<Exchange>, x: Exchange)
    requires AllSendable(sent, history, rounds) && |sent| == |rounds|
    requires Mirrors(log, start, history, m) && Goes(history, m, []) && Told(log) == Told(start) + AllRows(rounds)
    ensures AllSendable(sent + [m], history, rounds + [x])
  {
    GoesWell(history, m);
    SaidAll(start, log, AllRows(rounds));
    hide Said, AllRows, WellFormed, Told;
    forall i | 0 <= i <= |sent| ensures Sendable((sent + [m])[i], history, rounds + [x], i) {
      assert (rounds + [x])[..i] == rounds[..i];
      if i < |sent| { assert Sendable(sent[i], history, rounds, i); } else { assert rounds[..i] == rounds; }
    }
  }

  /** What the last round did changes nothing about what was sent. */
  lemma {:induction false} SendableLast(sent: seq<seq<Message>>, history: seq<Message>, rounds: seq<Exchange>,
      x: Exchange, y: Exchange)
    requires AllSendable(sent, history, rounds + [x])
    ensures AllSendable(sent, history, rounds + [y])
  {
    hide Said, AllRows, WellFormed;
    forall i | 0 <= i < |sent| ensures Sendable(sent[i], history, rounds + [y], i) {
      assert Sendable(sent[i], history, rounds + [x], i);
      assert (rounds + [x])[..i] == rounds[..i] == (rounds + [y])[..i];
    }
  }

  lemma {:induction false} MirrorStart(log: seq<Row>, history: seq<Message>)
    requires Orderly(log, [])
    ensures Mirrors(log, log, history, history)
  {
    assert log[|log|..] == [] && history + [] == history;
  }

  lemma {:induction false} MirrorGives(log: seq<Row>, start: seq<Row>, history: seq<Message>, messages: seq<Message>)
    requires Mirrors(log, start, history, messages)
    ensures Orderly(log, []) && start <= log && history <= messages
  {}

  lemma {:induction false} NoIds()
    ensures Ids([]) == []
  {}
}
