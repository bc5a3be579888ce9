/** When the conversation sent to the model is well formed: exactly when every call that
    some result names is answered by the results right after its own message. */
module ChatWellFormed {
  import opened Text
  import opened StableSort
  import opened Chat

  ghost predicate NoRepeat(ids: seq<string>) { ids == [] || (ids[0] !in ids[1..] && NoRepeat(ids[1..])) }

  ghost predicate AllResults(msgs: seq<Message>) { forall m :: m in msgs ==> m.ToolMessage? }

  ghost predicate AllNotes(msgs: seq<Message>) { forall m :: m in msgs ==> m.UserMessage? }

  ghost function ResultIds(msgs: seq<Message>): (ids: seq<string>)
    requires AllResults(msgs)
    ensures |ids| == |msgs|
  {
    if msgs == [] then [] else assert msgs[0] in msgs; [msgs[0].id] + ResultIds(msgs[1..])
  }

  predicate Has(answered: set<string>, c: Call) { c.id in answered }

  function Kept(calls: seq<Call>, answered: set<string>): seq<Call> {
    Filter(calls, (c: Call) => c.id in answered)
  }

  /** The calls kept are those the rows right after answer, each with an id of its own. */
  ghost predicate Own(calls: seq<Call>, rest: seq<Row>, answered: set<string>) {
    var k := AnswerCount(rest);
    && k <= |calls| && Kept(calls, answered) == calls[..k]
    && NoRepeat(Ids(calls[..k])) && "" !in Ids(calls[..k])
  }

  ghost predicate Settled(rows: seq<Row>, answered: set<string>) {
    rows == [] || ((rows[0].Assistant? ==> Own(rows[0].calls, rows[1..], answered)) && Settled(rows[1..], answered))
  }

  lemma {:induction false} IdsTake(calls: seq<Call>, k: nat)
    requires k <= |calls|
    ensures |Ids(calls)| == |calls| && Ids(calls[..k]) == Ids(calls)[..k]
    ensures forall j :: 0 <= j < |calls| ==> Ids(calls)[j] == calls[j].id
  {
    if calls != [] {
      IdsTake(calls[1..], if k == 0 then 0 else k - 1);
      if k > 0 { assert calls[..k][1..] == calls[1..][..k - 1]; }
    }
  }

  lemma {:induction false} IdSetIds(calls: seq<Call>)
    ensures IdSet(calls) == SetOf(Ids(calls))
  {
    IdsTake(calls, 0);
    forall x | x in IdSet(calls) ensures x in SetOf(Ids(calls)) {
      var c :| c in calls && c.id == x;
      var j :| 0 <= j < |calls| && calls[j] == c;
      assert Ids(calls)[j] == x;
    }
    forall x | x in SetOf(Ids(calls)) ensures x in IdSet(calls) {
      var j :| 0 <= j < |calls| && Ids(calls)[j] == x;
      assert calls[j] in calls;
    }
  }

  lemma {:induction false} GatherDistinct(rows: seq<Row>, waiting: set<string>)
    ensures var g := Gather(rows, waiting);
            && AllResults(g.0) && AllNotes(g.1) && |g.0| <= AnswerCount(rows)
            && NoRepeat(ResultIds(g.0)) && forall id :: id in ResultIds(g.0) ==> id in waiting && id != ""
  {
    if waiting != {} && rows != [] && (rows[0].Tool? || rows[0].Event?) {
      var hit := rows[0].Tool? && Waits(rows[0].callId, waiting);
      var w := if hit then waiting - {rows[0].callId.value} else waiting;
      GatherDistinct(rows[1..], w);
      var g := Gather(rows[1..], w);
      if hit {
        var r := [ToolMessage(rows[0].callId.value, rows[0].content)] + g.0;
        assert r[1..] == g.0;
        assert ResultIds(r)[1..] == ResultIds(g.0);
      }
    }
  }

  /** Results answer a message's calls exactly when their ids are those calls' ids. */
  lemma {:induction false} ReadResults(results: seq<Message>, pend: seq<string>)
    requires AllResults(results)
    ensures Read(results, pend) == Some([]) <==> ResultIds(results) == pend
  {
    if results != [] {
      assert results[0] in results;
      if pend != [] {
        ReadResults(results[1..], pend[1..]);
        var ids := ResultIds(results);
        assert ids[1..] == ResultIds(results[1..]);
        if ids[0] == pend[0] && ids[1..] == pend[1..] {
          assert ids == [ids[0]] + ids[1..] && pend == [pend[0]] + pend[1..];
        }
      }
    }
  }

  lemma {:induction false} ReadNotes(notes: seq<Message>, pend: seq<string>)
    requires AllNotes(notes)
    ensures Read(notes, pend) == if pend == [] || notes == [] then Some(pend) else None
  {
    if notes != [] {
      assert notes[0] in notes;
      ReadNotes(notes[1..], pend);
    }
  }

  lemma {:induction false} AnswerBound(rows: seq<Row>, pend: seq<string>)
    requires Orderly(rows, pend)
    ensures AnswerCount(rows) <= |pend|
    ensures forall x :: x in pend[..AnswerCount(rows)] ==> x in Answered(rows)
  {
    if rows != [] {
      var r, rest := rows[0], rows[1..];
      match r
      case Tool(_, callId) =>
        AnswerBound(rest, pend[1..]);
        var k := AnswerCount(rest);
        assert pend[..k + 1] == [pend[0]] + pend[1..][..k];
        assert r in rows;
      case Event(_) => AnswerBound(rest, pend);
      case _ =>
    }
  }

  /** The waited ids are distinct. */
  ghost predicate Waitable(rows: seq<Row>, pend: seq<string>) {
    var k := AnswerCount(rows);
    Orderly(rows, pend) && k <= |pend| && NoRepeat(pend[..k]) && "" !in pend[..k]
  }

  /** The results are found in order, each once, and what follows starts afresh. */
  ghost predicate Gathered(rows: seq<Row>, pend: seq<string>, answered: set<string>) {
    var k := AnswerCount(rows);
    k <= |pend| && Gives(Gather(rows, SetOf(pend[..k])), rows, pend[..k], pend[k..], answered)
  }

  ghost predicate Gives(g: (seq<Message>, seq<Message>, seq<Row>), rows: seq<Row>, p: seq<string>, after: seq<string>,
      answered: set<string>) {
    && AllResults(g.0) && ResultIds(g.0) == p
    && Orderly(g.2, after) && AnswerCount(g.2) == 0
    && (Settled(g.2, answered) <==> Settled(rows, answered))
    && ResultPairs(g.0) + ToolPairs(g.2) == ToolPairs(rows) && Answered(g.2) <= Answered(rows)
  }

  lemma {:induction false} GatheredNone(rows: seq<Row>, pend: seq<string>, answered: set<string>)
    requires Waitable(rows, pend) && AnswerCount(rows) == 0
    ensures Gathered(rows, pend, answered)
  {
    assert SetOf(pend[..0]) == {} && pend[0..] == pend;
  }

  lemma {:induction false} FirstWaits(r: Row, rest: seq<Row>, pend: seq<string>)
    requires r.Tool? && Waitable([r] + rest, pend)
    ensures var k := AnswerCount(rest) + 1;
      && k == AnswerCount([r] + rest) <= |pend| && NoRepeat(pend[..k])
      && r.callId == Some(pend[0]) && pend[0] != ""
  {
    AnsweredTail(r, rest);
    OrderlyCons(r, rest, pend);
    var p := pend[..AnswerCount(rest) + 1];
    assert p[0] == pend[0] && p[0] in p;
    hide NoRepeat;
  }

  lemma {:induction false} GivesTool(g: (seq<Message>, seq<Message>, seq<Row>),
      all: (seq<Message>, seq<Message>, seq<Row>), r: Row, rest: seq<Row>, id: string, p: seq<string>,
      after: seq<string>, answered: set<string>)
    requires r.Tool? && Gives(g, rest, p, after, answered) && AllResults(all.0) && all.2 == g.2
    requires ResultIds(all.0) == [id] + ResultIds(g.0) && ResultPairs(all.0) == [(id, r.content)] + ResultPairs(g.0)
    requires ToolPairs([r] + rest) == [(id, r.content)] + ToolPairs(rest) && Answered(rest) <= Answered([r] + rest)
    requires Settled([r] + rest, answered) <==> Settled(rest, answered)
    ensures Gives(all, [r] + rest, [id] + p, after, answered)
  {
    hide Settled, ToolPairs, Answered, ResultPairs, ResultIds, Orderly, AnswerCount, AllResults;
    assert [(id, r.content)] + ResultPairs(g.0) + ToolPairs(g.2) == [(id, r.content)]
      + (ResultPairs(g.0) + ToolPairs(g.2));
  }

  lemma {:induction false} GatheredTool(r: Row, rest: seq<Row>, pend: seq<string>, answered: set<string>)
    requires r.Tool? && Waitable([r] + rest, pend) && Gathered(rest, pend[1..], answered)
    ensures Gathered([r] + rest, pend, answered)
  {
    FirstWaits(r, rest, pend);
    hide Gather, Settled, ToolPairs, Answered, ResultPairs, ResultIds, Orderly, AnswerCount, SetOf, NoRepeat;
    var k := AnswerCount(rest) + 1;
    PendSteps(pend, k);
    var id, p := pend[0], pend[..k];
    var g := Gather(rest, SetOf(p[1..]));
    assert Gives(g, rest, p[1..], pend[k..], answered);
    GatherTool(r, rest, id, SetOf(p), answered);
    hide Gives, AllResults;
    GivesTool(g, Gather([r] + rest, SetOf(p)), r, rest, id, p[1..], pend[k..], answered);
  }

  lemma {:induction false} GatheredEvent(r: Row, rest: seq<Row>, pend: seq<string>, answered: set<string>)
    requires r.Event? && Waitable([r] + rest, pend) && AnswerCount(rest) > 0 && Gathered(rest, pend, answered)
    ensures Gathered([r] + rest, pend, answered)
  {
    AnsweredTail(r, rest);
    SettledCons(r, rest, answered);
    var p := pend[..AnswerCount(rest)];
    assert SetOf(p) != {} by { assert p[0] in SetOf(p); }
    assert ([r] + rest)[1..] == rest;
    var g, all := Gather(rest, SetOf(p)), Gather([r] + rest, SetOf(p));
    assert all.0 == g.0 && all.2 == g.2;
    hide Gather, Settled, ToolPairs, Answered, ResultPairs, ResultIds, Orderly, AnswerCount, SetOf, NoRepeat,
      AllResults;
  }

  lemma {:induction false} WaitableStep(r: Row, rest: seq<Row>, pend: seq<string>)
    requires Waitable([r] + rest, pend) && AnswerCount([r] + rest) > 0
    ensures (r.Tool? && pend != [] && Waitable(rest, pend[1..]))
      || (r.Event? && Waitable(rest, pend) && AnswerCount(rest) > 0)
  {
    AnsweredTail(r, rest);
    OrderlyCons(r, rest, pend);
    if r.Tool? { PendSteps(pend, AnswerCount(rest) + 1); }
    hide Orderly, AnswerCount, NoRepeat, SetOf;
  }

  /** With the waited ids distinct, every result is found. */
  lemma {:induction false} GatherOk(rows: seq<Row>, pend: seq<string>, answered: set<string>)
    requires Waitable(rows, pend)
    ensures Gathered(rows, pend, answered)
    decreases |rows|
  {
    if AnswerCount(rows) == 0 {
      GatheredNone(rows, pend, answered);
    } else {
      var r, rest := rows[0], rows[1..];
      assert rows == [r] + rest;
      WaitableStep(r, rest, pend);
      hide Waitable, Gathered;
      if r.Tool? {
        GatherOk(rest, pend[1..], answered);
        GatheredTool(r, rest, pend, answered);
      } else {
        GatherOk(rest, pend, answered);
        GatheredEvent(r, rest, pend, answered);
      }
    }
  }

  /** The first id waited for, and the others. */
  lemma {:induction false} PendSteps(pend: seq<string>, k: nat)
    requires 0 < k <= |pend| && NoRepeat(pend[..k])
    ensures var p := pend[..k];
            && pend[1..][..k - 1] == p[1..] && pend[1..][k - 1..] == pend[k..] && p == [pend[0]] + p[1..]
            && pend[0] in SetOf(p) && SetOf(p) - {pend[0]} == SetOf(p[1..]) && NoRepeat(p[1..])
  {
    var p := pend[..k];
    assert p[0] == pend[0] && p[0] in p && p == [p[0]] + p[1..];
    hide NoRepeat;
  }

  /** A result that is waited for comes first. */
  lemma {:induction false} GatherTool(r: Row, rest: seq<Row>, id: string, waiting: set<string>, answered: set<string>)
    requires r.Tool? && r.callId == Some(id) && id != "" && id in waiting && AllResults(Gather(rest, waiting - {id}).0)
    ensures var g, all := Gather(rest, waiting - {id}), Gather([r] + rest, waiting);
            && all.0 == [ToolMessage(id, r.content)] + g.0 && all.2 == g.2 && AllResults(all.0)
            && ResultIds(all.0) == [id] + ResultIds(g.0) && ResultPairs(all.0) == [(id, r.content)] + ResultPairs(g.0)
            && ToolPairs([r] + rest) == [(id, r.content)] + ToolPairs(rest) && Answered(rest) <= Answered([r] + rest)
            && (Settled([r] + rest, answered) <==> Settled(rest, answered))
  {
    AnsweredTail(r, rest);
    SettledCons(r, rest, answered);
    assert ([r] + rest)[1..] == rest;
    var g := Gather(rest, waiting - {id});
    var m := ToolMessage(id, r.content);
    assert Gather([r] + rest, waiting).0 == [m] + g.0;
    assert ([m] + g.0)[1..] == g.0;
    hide Gather, Settled, ToolPairs, Answered;
  }

  lemma {:induction false} RenderSkips(r: Row, rest: seq<Row>, answered: set<string>)
    ensures r.User? || r.Event? ==>
      Render([r] + rest, answered) == [UserMessage(if r.User? then r.content else NOTE + r.content)]
        + Render(rest, answered)
    ensures r.Tool? || r.Unknown? ==> Render([r] + rest, answered) == Render(rest, answered)
    ensures r.Assistant? ==>
      var kept := Kept(r.calls, answered); var g := Gather(rest, IdSet(kept));
      Render([r] + rest, answered) == [AssistantMessage(Words(r.content), kept)] + g.0 + g.1 + Render(g.2, answered)
  {
    assert ([r] + rest)[1..] == rest;
  }

  /** No conversation starts with a result. */
  lemma {:induction false} RenderNoResultFirst(rows: seq<Row>, answered: set<string>)
    ensures Render(rows, answered) != [] ==> !Render(rows, answered)[0].ToolMessage?
  {
    if rows != [] && (rows[0].Tool? || rows[0].Unknown?) { RenderNoResultFirst(rows[1..], answered); }
  }

  lemma {:induction false} ReadOneNote(m: Message, more: seq<Message>)
    requires m.UserMessage?
    ensures WellFormed([m] + more) <==> WellFormed(more)
    ensures ResultPairs([m] + more) == ResultPairs(more)
  {
    assert ([m] + more)[1..] == more;
  }

  /** An assistant message, its results and the notes are well formed with what follows
      exactly when the results are those of its calls and the rest is well formed. */
  lemma {:induction false} ReadAnswered(kept: seq<Call>, words: Option<string>, results: seq<Message>,
      notes: seq<Message>, more: seq<Message>)
    requires AllResults(results) && AllNotes(notes) && (more != [] ==> !more[0].ToolMessage?)
    ensures WellFormed([AssistantMessage(words, kept)] + results + notes + more)
            <==> ResultIds(results) == Ids(kept) && WellFormed(more)
    ensures ResultPairs([AssistantMessage(words, kept)] + results + notes + more) == ResultPairs(results)
      + ResultPairs(more)
  {
    var a := [AssistantMessage(words, kept)];
    ReadParts(a, results, notes, more);
    assert a[1..] == [] && ResultPairs(a) == [];
    assert Read(a, []) == Read([], Ids(kept)) == Some(Ids(kept));
    NotAnswered(notes, more, Ids(kept));
    hide Read, ResultPairs, Ids, ResultIds;
    ReadResults(results, Ids(kept));
    var p := Read(results, Ids(kept));
    if p.Some? { NotAnswered(notes, more, p.value); }
    TextsConcat(a + results + notes, more);
    TextsConcat(a + results, notes);
    TextsConcat(a, results);
    NotesNoPairs(notes);
    assert [] + ResultPairs(results) + [] + ResultPairs(more) == ResultPairs(results) + ResultPairs(more);
  }

  /** Nothing but results may come while some are waited for. */
  lemma {:induction false} NotAnswered(notes: seq<Message>, more: seq<Message>, pend: seq<string>)
    requires AllNotes(notes) && (more != [] ==> !more[0].ToolMessage?)
    ensures Then(Read(notes, pend), more) == Some([]) <==> pend == [] && Read(more, []) == Some([])
  {
    ReadNotes(notes, pend);
    if pend != [] && more != [] { assert Read(more, pend) == None; }
  }

  lemma {:induction false} NotesNoPairs(notes: seq<Message>)
    requires AllNotes(notes)
    ensures ResultPairs(notes) == []
  {
    if notes != [] {
      assert notes[0] in notes;
      NotesNoPairs(notes[1..]);
    }
  }

  ghost function Then(p: Option<seq<string>>, msgs: seq<Message>): Option<seq<string>> {
    if p == None then None else Read(msgs, p.value)
  }

  lemma {:induction false} ReadParts(a: seq<Message>, b: seq<Message>, c: seq<Message>, d: seq<Message>)
    ensures Read(a + b + c + d, []) == Then(Then(Then(Read(a, []), b), c), d)
  {
    hide Read;
    ReadConcat(a + b + c, d, []);
    ReadConcat(a + b, c, []);
    ReadConcat(a, b, []);
  }

  lemma {:induction false} KeptTake(calls: seq<Call>, k: nat, answered: set<string>)
    requires k <= |calls| && forall j :: 0 <= j < k ==> calls[j].id in answered
    ensures |Kept(calls, answered)| >= k
    ensures |Kept(calls, answered)| == k ==> Kept(calls, answered) == calls[..k]
  {
    assert calls == calls[..k] + calls[k..];
    FilterConcat(calls[..k], calls[k..], (c: Call) => c.id in answered);
    FilterAll(calls[..k], (c: Call) => c.id in answered);
  }

  /** One direction at an assistant row: if the results are those of the kept calls,
      the kept calls are the row's own answered ones. */
  lemma {:induction false} AnsweredIsOwn(calls: seq<Call>, rest: seq<Row>, answered: set<string>)
    requires Orderly(rest, Ids(calls)) && Answered(rest) <= answered
    requires var g := Gather(rest, IdSet(Kept(calls, answered)));
      AllResults(g.0) && ResultIds(g.0) == Ids(Kept(calls, answered))
    ensures Own(calls, rest, answered)
  {
    var kept := Kept(calls, answered);
    var g, k := Gather(rest, IdSet(kept)), AnswerCount(rest);
    GatherDistinct(rest, IdSet(kept));
    AnswerBound(rest, Ids(calls));
    IdsTake(calls, 0);
    IdsTake(kept, 0);
    forall j | 0 <= j < k ensures calls[j].id in answered {
      assert Ids(calls)[..k][j] == calls[j].id && Ids(calls)[..k][j] in Ids(calls)[..k];
    }
    KeptTake(calls, k, answered);
  }

  /** Whatever the assistant row, what follows it starts afresh. */
  lemma {:induction false} OwnGather(calls: seq<Call>, rest: seq<Row>, answered: set<string>)
    requires Orderly(rest, Ids(calls)) && Own(calls, rest, answered)
    ensures var k := AnswerCount(rest); var g := Gather(rest, IdSet(Kept(calls, answered)));
            && AllResults(g.0) && ResultIds(g.0) == Ids(Kept(calls, answered)) && k <= |Ids(calls)|
            && Orderly(g.2, Ids(calls)[k..]) && AnswerCount(g.2) == 0
            && (Settled(g.2, answered) <==> Settled(rest, answered))
            && ResultPairs(g.0) + ToolPairs(g.2) == ToolPairs(rest) && Answered(g.2) <= Answered(rest)
  {
    hide Orderly, Settled, Gather, ToolPairs, ResultPairs;
    var k := AnswerCount(rest);
    IdsTake(calls, k);
    IdSetIds(calls[..k]);
    GatherOk(rest, Ids(calls), answered);
  }

  lemma {:induction false} AnsweredTail(r: Row, rest: seq<Row>)
    ensures Answered(rest) <= Answered([r] + rest)
    ensures AnswerCount([r] + rest) == if r.Tool? then 1 + AnswerCount(rest) else if r.Event? then AnswerCount(rest)
      else 0
    ensures ToolPairs([r] + rest) == (if r.Tool? && r.callId.Some? then [(r.callId.value, r.content)] else [])
      + ToolPairs(rest)
  {
    assert ([r] + rest)[1..] == rest;
    forall x | x in Answered(rest) ensures x in Answered([r] + rest) {
      var t :| t in rest && t.Tool? && t.callId.Some? && t.callId.value == x;
      assert t in [r] + rest;
    }
  }

  lemma {:induction false} SettledCons(r: Row, rest: seq<Row>, answered: set<string>)
    ensures Settled([r] + rest, answered) <==>
      (r.Assistant? ==> Own(r.calls, rest, answered)) && Settled(rest, answered)
  {
    assert ([r] + rest)[1..] == rest;
  }

  /** What one message contributes when rows is well formed. */
  ghost predicate Holds(rows: seq<Row>, answered: set<string>) {
    && (WellFormed(Render(rows, answered)) <==> Settled(rows, answered))
    && (Settled(rows, answered) ==> ResultPairs(Render(rows, answered)) == ToolPairs(rows))
  }

  lemma {:induction false} AssistantHolds(r: Row, rest: seq<Row>, answered: set<string>)
    requires r.Assistant? && Orderly(rest, Ids(r.calls)) && Answered(rest) <= answered
    requires Own(r.calls, rest, answered) ==> Holds(Gather(rest, IdSet(Kept(r.calls, answered))).2, answered)
    ensures Holds([r] + rest, answered)
  {
    hide Orderly, Settled, Gather, Read, WellFormed, ToolPairs, ResultPairs, Render, Own, Kept, IdSet, AnswerCount,
      Answered, Ids;
    var kept := Kept(r.calls, answered);
    var g := Gather(rest, IdSet(kept));
    RenderSkips(r, rest, answered);
    GatherDistinct(rest, IdSet(kept));
    RenderNoResultFirst(g.2, answered);
    ReadAnswered(kept, Words(r.content), g.0, g.1, Render(g.2, answered));
    SettledCons(r, rest, answered);
    AnsweredTail(r, rest);
    if Own(r.calls, rest, answered) {
      OwnGather(r.calls, rest, answered);
    } else if ResultIds(g.0) == Ids(kept) {
      AnsweredIsOwn(r.calls, rest, answered);
    }
  }

  /** What is sent for any rows is well formed exactly when they are settled; then every
      result is sent, once and in order. */
  lemma {:induction false} WellFormedExactly(rows: seq<Row>, pend: seq<string>, answered: set<string>)
    requires Orderly(rows, pend) && AnswerCount(rows) == 0 && Answered(rows) <= answered
    ensures WellFormed(Render(rows, answered)) <==> Settled(rows, answered)
    ensures Settled(rows, answered) ==> ResultPairs(Render(rows, answered)) == ToolPairs(rows)
    decreases |rows|
  {
    if rows != [] {
      var r, rest := rows[0], rows[1..];
      assert rows == [r] + rest;
      hide Orderly, Settled, Gather, Read, WellFormed, ToolPairs, ResultPairs, Render, Own, Kept, IdSet, AnswerCount,
        Answered, Ids;
      OrderlyCons(r, rest, pend);
      AnsweredTail(r, rest);
      RenderSkips(r, rest, answered);
      SettledCons(r, rest, answered);
      if r.Assistant? {
        if Own(r.calls, rest, answered) {
          OwnGather(r.calls, rest, answered);
          var g := Gather(rest, IdSet(Kept(r.calls, answered)));
          WellFormedExactly(g.2, Ids(r.calls)[AnswerCount(rest)..], answered);
        }
        AssistantHolds(r, rest, answered);
      } else {
        var next := PendNext(r, pend);
        if next == [] { AnswerBound(rest, next); }
        WellFormedExactly(rest, next, answered);
        if r.User? || r.Event? { ReadOneNote(Render(rows, answered)[0], Render(rest, answered)); }
      }
    }
  }

  // ── Windows of a conversation ───────────────────────────────────────────────

  /** Results come only from calls made before, or waiting at the start. */
  lemma {:induction false} AnsweredSource(rows: seq<Row>, pend: seq<string>)
    requires Orderly(rows, pend)
    ensures forall x :: x in Answered(rows) ==> x in pend[..AnswerCountOf(rows, pend)] || x in AllIds(rows)
  {
    if rows != [] {
      var r, rest := rows[0], rows[1..];
      assert rows == [r] + rest;
      OrderlyCons(r, rest, pend);
      AnswerBound(rows, pend);
      AnswerBound(rest, PendNext(r, pend));
      AnsweredSource(rest, PendNext(r, pend));
      AnsweredTail(r, rest);
      forall x | x in Answered(rows) ensures x in pend[..AnswerCount(rows)] || x in AllIds(rows) {
        AnsweredStep(r, rest, x);
        var k := AnswerCount(rest);
        if r.Tool? {
          assert pend[..k + 1] == [pend[0]] + pend[1..][..k];
        }
      }
    }
  }

  ghost function AnswerCountOf(rows: seq<Row>, pend: seq<string>): (k: nat)
    requires Orderly(rows, pend)
    ensures k <= |pend| && k == AnswerCount(rows)
  {
    AnswerBound(rows, pend);
    AnswerCount(rows)
  }

  lemma {:induction false} AnsweredStep(r: Row, rest: seq<Row>, x: string)
    requires x in Answered([r] + rest)
    ensures x in Answered(rest) || (r.Tool? && r.callId == Some(x))
  {
    var t :| t in [r] + rest && t.Tool? && t.callId.Some? && t.callId.value == x;
    if t != r { assert t in rest; }
  }

  lemma {:induction false} DistinctNoRepeat(ids: seq<string>)
    requires Distinct(ids)
    ensures NoRepeat(ids)
  {
    if ids != [] {
      DistinctTail(ids);
      DistinctNoRepeat(ids[1..]);
    }
  }

  lemma {:induction false} DistinctPart(a: seq<string>, b: seq<string>, c: seq<string>)
    requires Distinct(a + b + c)
    ensures Distinct(a) && Distinct(b) && Distinct(c) && Distinct(b + c)
  {
    assert a + b + c == a + (b + c);
    forall x ensures multiset(a)[x] <= 1 && multiset(b)[x] <= 1 && multiset(c)[x] <= 1 && multiset(b + c)[x] <= 1 {
      assert multiset(a + b + c)[x] <= 1;
    }
  }

  lemma {:induction false} KeptExactly(calls: seq<Call>, k: nat, answered: set<string>)
    requires k <= |calls| && forall j :: 0 <= j < |calls| ==> (calls[j].id in answered <==> j < k)
    ensures Kept(calls, answered) == calls[..k]
  {
    assert calls == calls[..k] + calls[k..];
    FilterConcat(calls[..k], calls[k..], (c: Call) => c.id in answered);
    FilterAll(calls[..k], (c: Call) => c.id in answered);
    FilterNone(calls[k..], (c: Call) => c.id in answered);
  }

  /** A message whose ids are not used again has its answered calls to itself. */
  lemma {:induction false} DistinctOwn(calls: seq<Call>, rest: seq<Row>, answered: set<string>)
    requires Orderly(rest, Ids(calls)) && Answered(rest) <= answered
    requires Distinct(Ids(calls) + AllIds(rest)) && "" !in Ids(calls)
    requires forall x :: x in Ids(calls) && x in answered ==> x in Answered(rest)
    ensures Own(calls, rest, answered)
  {
    hide Orderly, Answered, AllIds, AnswerCount, Ids, Kept, Distinct;
    var k, ids := AnswerCount(rest), Ids(calls);
    AnswerBound(rest, ids);
    IdsTake(calls, 0);
    AnsweredSource(rest, ids);
    IdsTake(calls, k);
    assert ids + AllIds(rest) == ids[..k] + ids[k..] + AllIds(rest);
    DistinctPart(ids[..k], ids[k..], AllIds(rest));
    DistinctNoRepeat(ids[..k]);
    forall j | 0 <= j < |calls| ensures calls[j].id in answered <==> j < k {
      assert ids[j] == calls[j].id && ids[j] in ids;
      if j < k { assert ids[..k][j] in ids[..k]; } else { NotAnsweredLater(ids, AllIds(rest), k, j); }
    }
    KeptExactly(calls, k, answered);
  }

  lemma {:induction false} NotAnsweredLater(ids: seq<string>, later: seq<string>, k: nat, j: nat)
    requires Distinct(ids + later) && k <= j < |ids|
    ensures ids[j] !in ids[..k] && ids[j] !in later
  {
    assert ids[k..][j - k] == ids[j] && ids[j] in ids[k..];
    assert ids + later == ids[..k] + ids[k..] + later;
    var x := ids[j];
    assert multiset(ids + later)[x] == multiset(ids[..k])[x] + multiset(ids[k..])[x] + multiset(later)[x];
  }

  /** Ids distinct over the rows settle them. */
  lemma {:induction false} DistinctSettles(rows: seq<Row>, pend: seq<string>, answered: set<string>)
    requires Orderly(rows, pend) && Distinct(pend + AllIds(rows)) && "" !in AllIds(rows)
    requires Answered(rows) <= answered && forall x :: x in AllIds(rows) && x in answered ==> x in Answered(rows)
    ensures Settled(rows, answered)
  {
    if rows != [] {
      var r, rest := rows[0], rows[1..];
      assert rows == [r] + rest;
      hide Orderly, Settled, Own, AnswerCount, Answered, Ids, AllIds;
      OrderlyCons(r, rest, pend);
      AnsweredTail(r, rest);
      SettledCons(r, rest, answered);
      var next, here := PendNext(r, pend), if r.Assistant? then Ids(r.calls) else [];
      assert pend + AllIds(rows) == pend + here + AllIds(rest);
      DistinctPart(pend, here, AllIds(rest));
      NextDistinct(r, pend, AllIds(rest));
      forall x | x in here + AllIds(rest) && x in answered ensures x in Answered(rest) {
        AnsweredStep(r, rest, x);
        if r.Tool? && r.callId == Some(x) { PartsShareNothing(pend, AllIds(rows), x); }
      }
      DistinctSettles(rest, next, answered);
      if r.Assistant? { DistinctOwn(r.calls, rest, answered); }
    }
  }

  lemma {:induction false} NextDistinct(r: Row, pend: seq<string>, later: seq<string>)
    requires Distinct(pend + (if r.Assistant? then Ids(r.calls) else []) + later)
    ensures Distinct(PendNext(r, pend) + later)
  {
    var here := if r.Assistant? then Ids(r.calls) else [];
    DistinctPart(pend, here, later);
    if r.Tool? && pend != [] {
      assert pend + here + later == [pend[0]] + pend[1..] + later;
      DistinctPart([pend[0]], pend[1..], later);
    } else if r.Event? {
      assert pend + here + later == pend + later;
    } else if !r.Assistant? {
      assert PendNext(r, pend) + later == later;
    }
  }

  ghost function Cutoff(length: nat, n: nat, limit: nat): int { if length - limit > n then length - limit else n }

  ghost predicate NoUser(log: seq<Row>, from: int, to: int) {
    forall k :: 0 <= k < |log| && from <= k < to ==> !log[k].User?
  }

  /** The rows the model is sent for a window that starts at row n of the log. */
  ghost function Window(log: seq<Row>, n: nat, limit: nat): (rows: seq<Row>)
    requires n <= |log|
    ensures rows == [] || rows[0].User?
    ensures exists m :: n <= m <= |log| && rows == log[m..] && NoUser(log, Cutoff(|log|, n, limit), m)
  {
    var stored := log[n..];
    var start := FirstUser(stored, if |stored| > limit then |stored| - limit else 0);
    assert stored[start..] == log[n + start..];
    stored[start..]
  }

  lemma {:induction false} WindowOrder(log: seq<Row>, m: nat)
    requires Orderly(log, []) && m <= |log| && (m == |log| || log[m].User?)
    ensures Orderly(log[m..], []) && AnswerCount(log[m..]) == 0
    ensures Orderly(log[..m], []) && AllIds(log) == AllIds(log[..m]) + AllIds(log[m..])
  {
    assert log == log[..m] + log[m..];
    OrderlyConcat(log[..m], log[m..], []);
    if m < |log| { assert log[m..][0].User?; }
  }

  lemma {:induction false} AnsweredParts(log: seq<Row>, n: nat, m: nat)
    requires n <= m <= |log|
    ensures Answered(log[m..]) <= Answered(log[n..])
    ensures forall x :: x in Answered(log[n..]) ==> x in Answered(log[..m]) || x in Answered(log[m..])
  {
    forall x | x in Answered(log[m..]) ensures x in Answered(log[n..]) {
      var t :| t in log[m..] && t.Tool? && t.callId.Some? && t.callId.value == x;
      var j :| 0 <= j < |log[m..]| && log[m..][j] == t;
      assert log[n..][m - n + j] == t;
    }
    forall x | x in Answered(log[n..]) ensures x in Answered(log[..m]) || x in Answered(log[m..]) {
      var t :| t in log[n..] && t.Tool? && t.callId.Some? && t.callId.value == x;
      var j :| 0 <= j < |log[n..]| && log[n..][j] == t;
      if n + j < m { assert log[..m][n + j] == t; } else { assert log[m..][n + j - m] == t; }
    }
  }

  /** Of any orderly log, any window: what HistoryForModel returns is well formed exactly
      when the rows sent are settled, and says each note and message once, in order. */
  lemma {:induction false} AnyWindow(log: seq<Row>, n: nat, limit: nat)
    requires Orderly(log, []) && n <= |log|
    ensures var rows := Window(log, n, limit); var answered := Answered(log[n..]);
            && (WellFormed(Render(rows, answered)) <==> Settled(rows, answered))
            && (Settled(rows, answered) ==> ResultPairs(Render(rows, answered)) == ToolPairs(rows))
            && UserTexts(Render(rows, answered)) == RowTexts(rows)
            && SentReplies(Render(rows, answered)) == RowReplies(rows, answered)
  {
    var rows := Window(log, n, limit);
    var m :| n <= m <= |log| && rows == log[m..];
    WindowOrder(log, m);
    AnsweredParts(log, n, m);
    hide *;
    WellFormedExactly(rows, [], Answered(log[n..]));
    EveryNoteIsSent(rows, Answered(log[n..]));
    EveryReplyIsSent(rows, Answered(log[n..]));
  }

  /** Ids distinct over the conversation make every window well formed. */
  lemma {:induction false} DistinctIdsMakeWindowsWellFormed(log: seq<Row>, n: nat, limit: nat)
    requires Orderly(log, []) && n <= |log| && Distinct(AllIds(log)) && "" !in AllIds(log)
    ensures var rows := Window(log, n, limit); var answered := Answered(log[n..]);
            WellFormed(Render(rows, answered)) && ResultPairs(Render(rows, answered)) == ToolPairs(rows)
  {
    var rows := Window(log, n, limit);
    var m :| n <= m <= |log| && rows == log[m..];
    hide *;
    TailSettles(log, n, m);
    AnyWindow(log, n, limit);
  }

  lemma {:induction false} TailSettles(log: seq<Row>, n: nat, m: nat)
    requires Orderly(log, []) && n <= m <= |log| && Distinct(AllIds(log)) && "" !in AllIds(log)
    requires m == |log| || log[m].User?
    ensures Settled(log[m..], Answered(log[n..]))
  {
    hide *;
    var rows, answered := log[m..], Answered(log[n..]);
    WindowOrder(log, m);
    AnsweredParts(log, n, m);
    AnsweredSource(log[..m], []);
    assert [] + AllIds(rows) == AllIds(rows);
    DistinctPart([], AllIds(log[..m]), AllIds(rows)) by { assert [] + AllIds(log[..m]) + AllIds(rows) == AllIds(log); }
    forall x | x in AllIds(rows) && x in answered ensures x in Answered(rows) {
      if x in Answered(log[..m]) { PartsShareNothing(AllIds(log[..m]), AllIds(rows), x); }
    }
    DistinctSettles(rows, [], answered);
  }

  /** An id used again: the first call was stopped before its result, a later message's
      call of the same id has one, and the first is sent without. */
  lemma {:induction false} ReusedIdDangles(u: string, c: Call, result: string)
    ensures var log := [User(u), Assistant("", [c]), User(u), Assistant("", [c]), Tool(result, Some(c.id))];
            Orderly(log, []) && !WellFormed(Render(Window(log, 0, HISTORY_MESSAGES), Answered(log[0..])))
  {
    var a, t := Assistant("", [c]), Tool(result, Some(c.id));
    var rest := [User(u), a, t];
    var log := [User(u), a] + rest;
    assert log == [User(u), Assistant("", [c]), User(u), Assistant("", [c]), Tool(result, Some(c.id))];
    ReusedOrderly(u, c, result);
    assert log[0..] == log && log[4] == t;
    hide *;
    StartsAtUser(log);
    AnsweredBy(log, 4);
    Dangles(User(u), a, rest, c);
  }

  lemma {:induction false} StartsAtUser(log: seq<Row>)
    requires log != [] && log[0].User? && |log| <= HISTORY_MESSAGES
    ensures Window(log, 0, HISTORY_MESSAGES) == log
  {
    assert log[0..] == log;
  }

  lemma {:induction false} AnsweredBy(log: seq<Row>, i: nat)
    requires i < |log| && log[i].Tool? && log[i].callId.Some?
    ensures log[i].callId.value in Answered(log)
  {}

  lemma {:induction false} Dangles(first: Row, a: Row, rest: seq<Row>, c: Call)
    requires first.User? && a == Assistant("", [c]) && rest != [] && rest[0].User?
    requires var log := [first, a] + rest;
      Orderly(log, []) && Window(log, 0, HISTORY_MESSAGES) == log && c.id in Answered(log)
    ensures var log := [first, a] + rest; !WellFormed(Render(log, Answered(log)))
  {
    hide *;
    var log := [first, a] + rest;
    assert log[0..] == log && log == [first] + ([a] + rest);
    AnyWindow(log, 0, HISTORY_MESSAGES);
    NotSettled(first, a, rest, c, Answered(log));
  }

  lemma {:induction false} NotSettled(first: Row, a: Row, rest: seq<Row>, c: Call, answered: set<string>)
    requires a.Assistant? && a.calls == [c] && c.id in answered && rest != [] && rest[0].User?
    ensures !Settled([first] + ([a] + rest), answered)
  {
    SettledCons(first, [a] + rest, answered);
    SettledCons(a, rest, answered);
    NotOwn(c, rest, answered);
    hide *;
  }

  lemma {:induction false} NotOwn(c: Call, rest: seq<Row>, answered: set<string>)
    requires c.id in answered && rest != [] && rest[0].User?
    ensures !Own([c], rest, answered)
  {
    assert c in Kept([c], answered);
  }

  lemma {:induction false} ReusedOrderly(u: string, c: Call, result: string)
    ensures Orderly([User(u), Assistant("", [c]), User(u), Assistant("", [c]), Tool(result, Some(c.id))], [])
  {
    var t := Tool(result, Some(c.id));
    var a := Assistant("", [c]);
    assert Ids([c]) == [c.id] by { assert [c][1..] == []; }
    assert [t] + [] == [t] && [a] + [t] == [a, t] && [User(u)] + [a, t] == [User(u), a, t];
    assert [a] + [User(u), a, t] == [a, User(u), a, t] && [User(u)] + [a, User(u), a, t] == [User(u), a, User(u), a, t];
    OrderlyCons(t, [], [c.id]);
    OrderlyCons(a, [t], []);
    OrderlyCons(User(u), [a, t], [c.id]);
    OrderlyCons(a, [User(u), a, t], []);
    OrderlyCons(User(u), [a, User(u), a, t], []);
  }
}
