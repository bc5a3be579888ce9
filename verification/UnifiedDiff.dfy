/** The change preview of a configuration file (apps/root-worker/udiff.go): an
    LCS table, the edit script read off it, and the hunks printed from it. */
module UnifiedDiff {
  import opened Text

  type Line = string

  const MAX_DIFF_LINES := 5000
  const CTX := 2

  datatype Kind = Keep | Del | Add

  /** One line of a script: ' ', '-' or '+', and its text. */
  datatype Edit = Edit(kind: Kind, text: Line)

  /** A line with how many lines of before and after are used up to it. */
  datatype Op = Op(edit: Edit, ai: nat, bi: nat)

  // ── Longest common subsequences ─────────────────────────────────────────────

  ghost predicate Subseq(c: seq<Line>, a: seq<Line>) {
    c == [] || (a != [] && ((c[0] == a[0] && Subseq(c[1..], a[1..])) || Subseq(c, a[1..])))
  }

  /** The longest common subsequence of a[i..] and b[j..], by its usual recurrence. */
  ghost function Lcs(a: seq<Line>, i: nat, b: seq<Line>, j: nat): nat
    requires i <= |a| && j <= |b|
    decreases |a| - i + |b| - j
  {
    if i == |a| || j == |b| then 0
    else if a[i] == b[j] then Lcs(a, i + 1, b, j + 1) + 1
    else if Lcs(a, i + 1, b, j) >= Lcs(a, i, b, j + 1) then Lcs(a, i + 1, b, j)
    else Lcs(a, i, b, j + 1)
  }

  lemma {:induction false} SubseqTail(c: seq<Line>, a: seq<Line>)
    requires c != [] && Subseq(c, a)
    ensures a != [] && Subseq(c[1..], a[1..])
    decreases |a|
  {
    if !(c[0] == a[0] && Subseq(c[1..], a[1..])) {
      SubseqTail(c, a[1..]);
      SubseqWiden(c[1..], a[1..]);
    }
  }

  lemma {:induction false} SubseqWiden(c: seq<Line>, a: seq<Line>)
    requires a != [] && Subseq(c, a[1..])
    ensures Subseq(c, a)
  {}

  /** No common subsequence is longer than the table's entry. */
  lemma {:induction false} LcsIsMaximal(c: seq<Line>, a: seq<Line>, i: nat, b: seq<Line>, j: nat)
    requires i <= |a| && j <= |b| && Subseq(c, a[i..]) && Subseq(c, b[j..])
    ensures |c| <= Lcs(a, i, b, j)
    decreases |a| - i + |b| - j
  {
    if c != [] {
      assert a[i..][1..] == a[i + 1..] && b[j..][1..] == b[j + 1..];
      if a[i] == b[j] {
        SubseqTail(c, a[i..]);
        SubseqTail(c, b[j..]);
        LcsIsMaximal(c[1..], a, i + 1, b, j + 1);
      } else if c[0] == a[i] {
        LcsIsMaximal(c, a, i, b, j + 1);
      } else {
        LcsIsMaximal(c, a, i + 1, b, j);
      }
    }
  }

  /** The rows from i on, and row i - 1 from column j on, are filled. */
  ghost predicate Filled(lcs: array2<nat>, a: seq<Line>, b: seq<Line>, i: nat, j: nat)
    reads lcs
  {
    && lcs.Length0 == |a| + 1 && lcs.Length1 == |b| + 1
    && (forall x: nat, y: nat {:trigger lcs[x, y]} :: i <= x <= |a| && y <= |b| ==> lcs[x, y] == Lcs(a, x, b, y))
    && (forall x: nat, y: nat {:trigger lcs[x, y]} :: x + 1 == i && x <= |a| && j <= y <= |b| ==>
      lcs[x, y] == Lcs(a, x, b, y))
  }

  method FillTable(a: seq<Line>, b: seq<Line>) returns (lcs: array2<nat>)
    ensures fresh(lcs) && Filled(lcs, a, b, 0, 0)
  {
    lcs := new nat[|a| + 1, |b| + 1]((_, _) => 0);
    var i: nat := |a|;
    while i > 0
      invariant i <= |a|
      invariant Filled(lcs, a, b, i, |b|) && forall x: nat {:trigger lcs[x, |b|]} :: x <= |a| ==> lcs[x, |b|] == 0
    {
      i := i - 1;
      var j: nat := |b|;
      while j > 0
        invariant j <= |b|
        invariant Filled(lcs, a, b, i + 1, j) && forall x: nat {:trigger lcs[x, |b|]} :: x <= |a| ==> lcs[x, |b|] == 0
      {
        j := j - 1;
        if a[i] == b[j] {
          lcs[i, j] := lcs[i + 1, j + 1] + 1;
        } else if lcs[i + 1, j] >= lcs[i, j + 1] {
          lcs[i, j] := lcs[i + 1, j];
        } else {
          lcs[i, j] := lcs[i, j + 1];
        }
      }
    }
  }

  // ── The edit script ─────────────────────────────────────────────────────────

  function OldText(es: seq<Edit>): seq<Line> {
    if es == [] then []
    else OldText(es[..|es| - 1]) + if es[|es| - 1].kind.Add? then [] else [es[|es| - 1].text]
  }

  function NewText(es: seq<Edit>): seq<Line> {
    if es == [] then []
    else NewText(es[..|es| - 1]) + if es[|es| - 1].kind.Del? then [] else [es[|es| - 1].text]
  }

  function Kept(es: seq<Edit>): seq<Line> {
    if es == [] then []
    else Kept(es[..|es| - 1]) + if es[|es| - 1].kind.Keep? then [es[|es| - 1].text] else []
  }

  function Script(ops: seq<Op>): (es: seq<Edit>)
    ensures |es| == |ops| && forall k :: 0 <= k < |ops| ==> es[k] == ops[k].edit
  {
    seq(|ops|, k requires 0 <= k < |ops| => ops[k].edit)
  }

  ghost predicate Numbered(ops: seq<Op>) {
    ops != [] ==>
      && Numbered(ops[..|ops| - 1])
      && ops[|ops| - 1].ai == |OldText(Script(ops))|
      && ops[|ops| - 1].bi == |NewText(Script(ops))|
  }

  lemma {:induction false} NumberAt(ops: seq<Op>, k: nat)
    requires Numbered(ops) && k < |ops|
    ensures ops[k].ai == |OldText(Script(ops)[..k + 1])| && ops[k].bi == |NewText(Script(ops)[..k + 1])|
  {
    if k + 1 == |ops| {
      assert Script(ops)[..k + 1] == Script(ops);
    } else {
      NumberAt(ops[..|ops| - 1], k);
      assert Script(ops)[..k + 1] == Script(ops[..|ops| - 1])[..k + 1];
    }
  }

  lemma {:induction false} Push(es: seq<Edit>, e: Edit)
    ensures OldText(es + [e]) == OldText(es) + if e.kind.Add? then [] else [e.text]
    ensures NewText(es + [e]) == NewText(es) + if e.kind.Del? then [] else [e.text]
    ensures Kept(es + [e]) == Kept(es) + if e.kind.Keep? then [e.text] else []
  {
    assert (es + [e])[..|es|] == es;
  }

  lemma {:induction false} PushOp(ops: seq<Op>, o: Op)
    requires Numbered(ops)
    requires o.ai == |OldText(Script(ops) + [o.edit])| && o.bi == |NewText(Script(ops) + [o.edit])|
    ensures Script(ops + [o]) == Script(ops) + [o.edit] && Numbered(ops + [o])
  {
    assert (ops + [o])[..|ops|] == ops;
  }

  /** The state of the walk: what the script so far says, and what is left to keep. */
  ghost predicate Walked(ops: seq<Op>, a: seq<Line>, i: nat, b: seq<Line>, j: nat) {
    && i <= |a| && j <= |b|
    && OldText(Script(ops)) == a[..i] && NewText(Script(ops)) == b[..j] && Numbered(ops)
    && |Kept(Script(ops))| + Lcs(a, i, b, j) == Lcs(a, 0, b, 0)
  }

  lemma {:induction false} WalkKeep(ops: seq<Op>, a: seq<Line>, i: nat, b: seq<Line>, j: nat)
    requires Walked(ops, a, i, b, j) && i < |a| && j < |b| && a[i] == b[j]
    ensures Walked(ops + [Op(Edit(Keep, a[i]), i + 1, j + 1)], a, i + 1, b, j + 1)
  {
    hide Script, Numbered, OldText, NewText, Kept;
    Push(Script(ops), Edit(Keep, a[i]));
    PushOp(ops, Op(Edit(Keep, a[i]), i + 1, j + 1));
  }

  lemma {:induction false} WalkDel(ops: seq<Op>, a: seq<Line>, i: nat, b: seq<Line>, j: nat)
    requires Walked(ops, a, i, b, j) && i < |a|
    requires j < |b| ==> a[i] != b[j] && Lcs(a, i + 1, b, j) >= Lcs(a, i, b, j + 1)
    ensures Walked(ops + [Op(Edit(Del, a[i]), i + 1, j)], a, i + 1, b, j)
  {
    hide Script, Numbered, OldText, NewText, Kept;
    Push(Script(ops), Edit(Del, a[i]));
    PushOp(ops, Op(Edit(Del, a[i]), i + 1, j));
  }

  lemma {:induction false} WalkAdd(ops: seq<Op>, a: seq<Line>, i: nat, b: seq<Line>, j: nat)
    requires Walked(ops, a, i, b, j) && j < |b|
    requires i < |a| ==> a[i] != b[j] && Lcs(a, i + 1, b, j) < Lcs(a, i, b, j + 1)
    ensures Walked(ops + [Op(Edit(Add, b[j]), i, j + 1)], a, i, b, j + 1)
  {
    hide Script, Numbered, OldText, NewText, Kept;
    Push(Script(ops), Edit(Add, b[j]));
    PushOp(ops, Op(Edit(Add, b[j]), i, j + 1));
  }

  lemma {:induction false} WalkStart(a: seq<Line>, b: seq<Line>)
    ensures Walked([], a, 0, b, 0)
  {
    assert a[0..] == a && b[0..] == b;
  }

  lemma {:induction false} WalkEnd(ops: seq<Op>, a: seq<Line>, b: seq<Line>)
    requires Walked(ops, a, |a|, b, |b|)
    ensures OldText(Script(ops)) == a && NewText(Script(ops)) == b && Numbered(ops)
      && |Kept(Script(ops))| == Lcs(a, 0, b, 0)
  {
    assert a[..|a|] == a && b[..|b|] == b;
  }

  method EditScript(a: seq<Line>, b: seq<Line>) returns (ops: seq<Op>)
    ensures OldText(Script(ops)) == a && NewText(Script(ops)) == b && Numbered(ops)
    ensures |Kept(Script(ops))| == Lcs(a, 0, b, 0)
  {
    var lcs := FillTable(a, b);
    ops := [];
    var i, j := 0, 0;
    WalkStart(a, b);
    while i < |a| || j < |b|
      invariant Walked(ops, a, i, b, j) && Filled(lcs, a, b, 0, 0)
      decreases |a| - i + |b| - j
    {
      if i < |a| && j < |b| && a[i] == b[j] {
        WalkKeep(ops, a, i, b, j);
        ops := ops + [Op(Edit(Keep, a[i]), i + 1, j + 1)];
        i, j := i + 1, j + 1;
      } else if i < |a| && (j == |b| || lcs[i + 1, j] >= lcs[i, j + 1]) {
        WalkDel(ops, a, i, b, j);
        ops := ops + [Op(Edit(Del, a[i]), i + 1, j)];
        i := i + 1;
      } else {
        WalkAdd(ops, a, i, b, j);
        ops := ops + [Op(Edit(Add, b[j]), i, j + 1)];
        j := j + 1;
      }
    }
    WalkEnd(ops, a, b);
  }

  lemma {:induction false} SubseqSnoc(c: seq<Line>, a: seq<Line>, x: Line, kept: bool)
    requires Subseq(c, a)
    ensures Subseq(if kept then c + [x] else c, a + [x])
    decreases |a|
  {
    assert c + [] == c;
    if c == [] {
      assert c + [x] == [x];
      if kept { SubseqLast(a, x); }
    } else {
      assert (a + [x])[1..] == a[1..] + [x];
      var c' := if kept then c + [x] else c;
      if c[0] == a[0] && Subseq(c[1..], a[1..]) {
        SubseqSnoc(c[1..], a[1..], x, kept);
        assert c'[1..] == if kept then c[1..] + [x] else c[1..];
      } else {
        SubseqSnoc(c, a[1..], x, kept);
      }
    }
  }

  lemma {:induction false} SubseqLast(a: seq<Line>, x: Line)
    ensures Subseq([x], a + [x])
  {
    if a != [] {
      SubseqLast(a[1..], x);
      assert (a + [x])[1..] == a[1..] + [x];
    }
  }

  /** The kept lines of any script are common to both texts, and fix its length. */
  lemma {:induction false} KeptIsCommon(es: seq<Edit>)
    ensures Subseq(Kept(es), OldText(es)) && Subseq(Kept(es), NewText(es))
    ensures |es| == |OldText(es)| + |NewText(es)| - |Kept(es)|
  {
    if es != [] {
      var p, o := es[..|es| - 1], es[|es| - 1];
      KeptIsCommon(p);
      SubseqSnoc(Kept(p), OldText(p), o.text, o.kind.Keep?);
      SubseqSnoc(Kept(p), NewText(p), o.text, o.kind.Keep?);
      assert Kept(p) + [] == Kept(p) && OldText(p) + [] == OldText(p) && NewText(p) + [] == NewText(p);
    }
  }

  /** Among all scripts between the same two texts, one that keeps Lcs lines keeps
      the most and is the shortest. */
  lemma {:induction false} ScriptIsShortest(es: seq<Edit>, other: seq<Edit>)
    requires |Kept(es)| == Lcs(OldText(es), 0, NewText(es), 0)
    requires OldText(other) == OldText(es) && NewText(other) == NewText(es)
    ensures |Kept(other)| <= |Kept(es)| && |es| <= |other|
  {
    KeptIsCommon(es);
    KeptIsCommon(other);
    assert OldText(es)[0..] == OldText(es) && NewText(es)[0..] == NewText(es);
    LcsIsMaximal(Kept(other), OldText(es), 0, NewText(es), 0);
  }

  // ── Grouping into hunks ─────────────────────────────────────────────────────

  /** Script lines start..end are printed as one hunk. */
  datatype Range = Range(start: nat, end: nat)

  datatype Hunk = Hunk(aStart: nat, aLen: nat, bStart: nat, bLen: nat, body: seq<Edit>)

  /** A line of the output below its two file names. */
  datatype OutLine = Header(aStart: nat, aLen: nat, bStart: nat, bLen: nat) | Body(edit: Edit)

  predicate IsChange(es: seq<Edit>, q: int) {
    0 <= q < |es| && !es[q].kind.Keep?
  }

  ghost predicate NearChange(es: seq<Edit>, p: int) {
    exists q :: p - CTX <= q <= p + CTX && IsChange(es, q)
  }

  ghost predicate Covered(ranges: seq<Range>, p: int) {
    exists r :: r in ranges && r.start <= p < r.end
  }

  /** The hunks are in order, apart from one another, and hold exactly the lines
      at most CTX away from a change. */
  ghost predicate Grouped(es: seq<Edit>, ranges: seq<Range>) {
    && (forall i :: 0 <= i < |ranges| ==> ranges[i].start < ranges[i].end <= |es|)
    && (forall i, j :: 0 <= i < j < |ranges| ==> ranges[i].end < ranges[j].start)
    && (forall p :: 0 <= p < |es| ==> (Covered(ranges, p) <==> NearChange(es, p)))
  }

  ghost function HunkOf(es: seq<Edit>, r: Range): Hunk
    requires r.start <= r.end <= |es|
  {
    var olds, news := OldText(es[r.start..r.end]), NewText(es[r.start..r.end]);
    Hunk(if olds == [] then 0 else |OldText(es[..r.start])| + 1, |olds|,
         if news == [] then 0 else |NewText(es[..r.start])| + 1, |news|, es[r.start..r.end])
  }

  ghost function HunksOf(es: seq<Edit>, ranges: seq<Range>): seq<Hunk>
    requires Within(es, ranges)
  {
    if ranges == [] then [] else HunksOf(es, ranges[..|ranges| - 1]) + [HunkOf(es, ranges[|ranges| - 1])]
  }

  function Bodies(es: seq<Edit>): seq<OutLine> {
    if es == [] then [] else Bodies(es[..|es| - 1]) + [Body(es[|es| - 1])]
  }

  function PrintOne(h: Hunk): seq<OutLine> {
    [Header(h.aStart, h.aLen, h.bStart, h.bLen)] + Bodies(h.body)
  }

  function Print(hunks: seq<Hunk>): seq<OutLine> {
    if hunks == [] then [] else Print(hunks[..|hunks| - 1]) + PrintOne(hunks[|hunks| - 1])
  }

  lemma {:induction false} OldTextConcat(x: seq<Edit>, y: seq<Edit>)
    ensures OldText(x + y) == OldText(x) + OldText(y)
  {
    if y == [] {
      assert x + y == x;
    } else {
      OldTextConcat(x, y[..|y| - 1]);
      assert (x + y)[..|x + y| - 1] == x + y[..|y| - 1];
    }
  }

  lemma {:induction false} NewTextConcat(x: seq<Edit>, y: seq<Edit>)
    ensures NewText(x + y) == NewText(x) + NewText(y)
  {
    if y == [] {
      assert x + y == x;
    } else {
      NewTextConcat(x, y[..|y| - 1]);
      assert (x + y)[..|x + y| - 1] == x + y[..|y| - 1];
    }
  }

  lemma {:induction false} TextOfConcat(x: seq<Edit>, y: seq<Edit>)
    ensures OldText(x + y) == OldText(x) + OldText(y)
    ensures NewText(x + y) == NewText(x) + NewText(y)
  {
    hide *;
    OldTextConcat(x, y);
    NewTextConcat(x, y);
  }

  /** The hunk that opens at change k has its last change at last and ends after the
      context of that one; no change follows within reach. */
  ghost predicate EndsAt(es: seq<Edit>, k: nat, last: nat, end: nat) {
    && k <= last < |es| && IsChange(es, last)
    && end == (if last + 1 + CTX <= |es| then last + 1 + CTX else |es|)
    && (forall q :: last < q <= last + 1 + 2 * CTX ==> !IsChange(es, q))
    && (forall p :: k <= p <= last ==> NearChange(es, p))
  }

  /** The end of the hunk that opens at change k. */
  method HunkEnd(ops: seq<Op>, k: nat) returns (end: nat)
    requires k < |ops| && IsChange(Script(ops), k)
    ensures exists last :: EndsAt(Script(ops), k, last, end)
  {
    ghost var es := Script(ops);
    end := k;
    ghost var last: nat := k;
    while end < |ops|
      invariant k <= end <= |ops|
      invariant k <= last <= end && (last < end ==> last == end - 1) && last < |ops| && IsChange(es, last)
      invariant forall p :: k <= p <= last ==> NearChange(es, p)
      decreases |ops| - last, |ops| - end
    {
      if !ops[end].edit.kind.Keep? {
        assert IsChange(es, end);
        last := end;
        end := end + 1;
        continue;
      }
      var run := end;
      while run < |ops| && ops[run].edit.kind.Keep?
        invariant end <= run <= |ops|
        invariant forall q :: end <= q < run ==> !IsChange(es, q)
      {
        run := run + 1;
      }
      if run < |ops| && run - end <= 2 * CTX {
        assert IsChange(es, run);
        forall p | end <= p <= run ensures NearChange(es, p) {
          if p <= last + CTX { assert IsChange(es, last); }
        }
        end, last := run, run;
        continue;
      }
      end := end + CTX;
      if end > |ops| {
        end := |ops|;
      }
      assert EndsAt(es, k, last, end);
      return;
    }
    assert EndsAt(es, k, last, end);
  }

  /** The counters while a hunk's lines start..k are read. */
  ghost predicate HunkRead(es: seq<Edit>, start: nat, k: nat, body: seq<Edit>, aStart: nat, aLen: nat, bStart: nat,
      bLen: nat) {
    && start <= k <= |es| && body == es[start..k]
    && aLen == |OldText(body)| && aStart == (if aLen == 0 then 0 else |OldText(es[..start])| + 1)
    && bLen == |NewText(body)| && bStart == (if bLen == 0 then 0 else |NewText(es[..start])| + 1)
  }

  lemma {:induction false} SliceGrows(es: seq<Edit>, start: nat, k: nat)
    requires start <= k < |es|
    ensures es[start..k + 1] == es[start..k] + [es[k]]
    ensures OldText(es[start..k + 1]) == OldText(es[start..k]) + if es[k].kind.Add? then [] else [es[k].text]
    ensures NewText(es[start..k + 1]) == NewText(es[start..k]) + if es[k].kind.Del? then [] else [es[k].text]
    ensures |OldText(es[..k + 1])| == |OldText(es[..start])| + |OldText(es[start..k + 1])|
    ensures |NewText(es[..k + 1])| == |NewText(es[..start])| + |NewText(es[start..k + 1])|
  {
    assert es[start..k + 1] == es[start..k] + [es[k]];
    Push(es[start..k], es[k]);
    assert es[..k + 1] == es[..start] + es[start..k + 1];
    TextOfConcat(es[..start], es[start..k + 1]);
  }

  lemma {:induction false} HunkReadNext(ops: seq<Op>, start: nat, k: nat, body: seq<Edit>, aStart: nat, aLen: nat,
      bStart: nat, bLen: nat)
    requires Numbered(ops) && k < |ops| && HunkRead(Script(ops), start, k, body, aStart, aLen, bStart, bLen)
    ensures var o, inA, inB := ops[k], !ops[k].edit.kind.Add?, !ops[k].edit.kind.Del?;
            HunkRead(Script(ops), start, k + 1, body + [o.edit],
                     if inA && aStart == 0 then o.ai else aStart, if inA then aLen + 1 else aLen,
                     if inB && bStart == 0 then o.bi else bStart, if inB then bLen + 1 else bLen)
  {
    SliceGrows(Script(ops), start, k);
    NumberAt(ops, k);
  }

  method HunkAt(ops: seq<Op>, start: nat, end: nat) returns (h: Hunk)
    requires start <= end <= |ops| && Numbered(ops)
    ensures h == HunkOf(Script(ops), Range(start, end))
  {
    var aStart: nat, bStart: nat, aLen: nat, bLen: nat := 0, 0, 0, 0;
    var body: seq<Edit> := [];
    var k := start;
    while k < end
      invariant k <= end && HunkRead(Script(ops), start, k, body, aStart, aLen, bStart, bLen)
    {
      var o := ops[k];
      HunkReadNext(ops, start, k, body, aStart, aLen, bStart, bLen);
      if !o.edit.kind.Add? {
        if aStart == 0 { aStart := o.ai; }
        aLen := aLen + 1;
      }
      if !o.edit.kind.Del? {
        if bStart == 0 { bStart := o.bi; }
        bLen := bLen + 1;
      }
      body := body + [o.edit];
      k := k + 1;
    }
    h := Hunk(aStart, aLen, bStart, bLen, body);
  }

  /** What the outer loop knows at script line k. */
  ghost predicate GroupedTo(es: seq<Edit>, ranges: seq<Range>, k: nat) {
    && k <= |es|
    && (forall i :: 0 <= i < |ranges| ==> ranges[i].start < ranges[i].end <= k)
    && (forall i, j :: 0 <= i < j < |ranges| ==> ranges[i].end < ranges[j].start)
    && (forall p :: Covered(ranges, p) ==> NearChange(es, p))
    && (forall p, q :: 0 <= p < |es| && p - CTX <= q <= p + CTX && q < k && IsChange(es, q) ==> Covered(ranges, p))
    && (ranges != [] ==>
      forall q :: ranges[|ranges| - 1].end <= q <= ranges[|ranges| - 1].end + CTX ==> !IsChange(es, q))
  }

  lemma {:induction false} CoveredPush(ranges: seq<Range>, r: Range, p: int)
    ensures Covered(ranges + [r], p) <==> Covered(ranges, p) || r.start <= p < r.end
  {
    assert r in ranges + [r];
    forall x | x in ranges ensures x in ranges + [r] {}
  }

  lemma {:induction false} GroupNext(es: seq<Edit>, ranges: seq<Range>, k: nat, last: nat, r: Range)
    requires GroupedTo(es, ranges, k) && IsChange(es, k)
    requires EndsAt(es, k, last, r.end) && r.start == if k < CTX then 0 else k - CTX
    ensures GroupedTo(es, ranges + [r], r.end)
  {
    if ranges != [] { assert ranges[|ranges| - 1].end + CTX < k; }
    forall p ensures Covered(ranges + [r], p) <==> Covered(ranges, p) || r.start <= p < r.end {
      CoveredPush(ranges, r, p);
    }
    forall p | r.start <= p < r.end ensures NearChange(es, p) {
      if p < k { assert IsChange(es, k); } else if p > last { assert IsChange(es, last); }
    }
  }

  ghost predicate Within(es: seq<Edit>, ranges: seq<Range>) {
    forall i :: 0 <= i < |ranges| ==> ranges[i].start <= ranges[i].end <= |es|
  }

  /** The outer loop's state: what is grouped is printed. */
  ghost predicate PrintedTo(es: seq<Edit>, ranges: seq<Range>, k: nat, out: seq<OutLine>) {
    GroupedTo(es, ranges, k) && Within(es, ranges) && out == Print(HunksOf(es, ranges))
  }

  lemma {:induction false} PrintStart(es: seq<Edit>)
    ensures PrintedTo(es, [], 0, [])
  {}

  lemma {:induction false} PrintSkip(es: seq<Edit>, ranges: seq<Range>, k: nat, out: seq<OutLine>)
    requires PrintedTo(es, ranges, k, out) && k < |es| && !IsChange(es, k)
    ensures PrintedTo(es, ranges, k + 1, out)
  {}

  lemma {:induction false} PrintEnd(es: seq<Edit>, ranges: seq<Range>, out: seq<OutLine>)
    requires PrintedTo(es, ranges, |es|, out)
    ensures Grouped(es, ranges) && Within(es, ranges) && out == Print(HunksOf(es, ranges))
  {}

  lemma {:induction false} PrintNext(es: seq<Edit>, ranges: seq<Range>, k: nat, out: seq<OutLine>, last: nat, r: Range)
    requires PrintedTo(es, ranges, k, out) && IsChange(es, k)
    requires EndsAt(es, k, last, r.end) && r.start == if k < CTX then 0 else k - CTX
    ensures PrintedTo(es, ranges + [r], r.end, out + PrintOne(HunkOf(es, r)))
  {
    GroupNext(es, ranges, k, last, r);
    PrintPush(es, ranges, r);
  }

  lemma {:induction false} PrintPush(es: seq<Edit>, ranges: seq<Range>, r: Range)
    requires Within(es, ranges) && r.start <= r.end <= |es|
    ensures Within(es, ranges + [r])
    ensures Print(HunksOf(es, ranges + [r])) == Print(HunksOf(es, ranges)) + PrintOne(HunkOf(es, r))
  {
    assert (ranges + [r])[..|ranges|] == ranges;
    var hs := HunksOf(es, ranges);
    assert (hs + [HunkOf(es, r)])[..|hs|] == hs;
  }

  /** out shows the script in hunks over these ranges. */
  ghost predicate Shows(es: seq<Edit>, ranges: seq<Range>, out: seq<OutLine>) {
    Grouped(es, ranges) && Within(es, ranges) && out == Print(HunksOf(es, ranges))
  }

  method PrintHunks(ops: seq<Op>) returns (out: seq<OutLine>)
    requires Numbered(ops)
    ensures exists ranges :: Shows(Script(ops), ranges, out)
  {
    hide PrintedTo, Numbered, Grouped, EndsAt;
    ghost var es := Script(ops);
    out := [];
    ghost var ranges: seq<Range> := [];
    var k: nat := 0;
    PrintStart(es);
    while k < |ops|
      invariant k <= |ops| && PrintedTo(es, ranges, k, out)
    {
      if ops[k].edit.kind.Keep? {
        PrintSkip(es, ranges, k, out);
        k := k + 1;
        continue;
      }
      var start := if k < CTX then 0 else k - CTX;
      var end := HunkEnd(ops, k);
      ghost var last :| EndsAt(es, k, last, end);
      EndAfter(es, k, last, end);
      var h := HunkAt(ops, start, end);
      PrintNext(es, ranges, k, out, last, Range(start, end));
      out := out + PrintOne(h);
      ranges := ranges + [Range(start, end)];
      k := end;
    }
    PrintEnd(es, ranges, out);
    assert Shows(es, ranges, out);
  }

  lemma {:induction false} EndAfter(es: seq<Edit>, k: nat, last: nat, end: nat)
    requires EndsAt(es, k, last, end)
    ensures k < end <= |es|
  {}

  // ── Reading the hunks back, as patch does ───────────────────────────────────

  /** Takes script lines until they use up the two lengths of the header. */
  function TakeBody(lines: seq<OutLine>, aLen: nat, bLen: nat): Option<(seq<Edit>, seq<OutLine>)>
    decreases |lines|
  {
    if aLen == 0 && bLen == 0 then Some(([], lines))
    else if lines == [] || !lines[0].Body? then None
    else
      var e := lines[0].edit;
      var usesA, usesB := if e.kind.Add? then 0 else 1, if e.kind.Del? then 0 else 1;
      if aLen < usesA || bLen < usesB then None
      else match TakeBody(lines[1..], aLen - usesA, bLen - usesB)
           case None => None
           case Some((body, rest)) => Some(([e] + body, rest))
  }

  function ReadHunks(lines: seq<OutLine>): Option<seq<Hunk>>
    decreases |lines|
  {
    if lines == [] then Some([])
    else if !lines[0].Header? then None
    else
      var h := lines[0];
      match TakeBody(lines[1..], h.aLen, h.bLen)
      case None => None
      case Some((body, rest)) =>
        if |rest| >= |lines| then None
        else match ReadHunks(rest)
             case None => None
             case Some(hunks) => Some([Hunk(h.aStart, h.aLen, h.bStart, h.bLen, body)] + hunks)
  }

  /** Applies hunks to the lines of before from line number used on (IEEE Std
      1003.1, diff -u: an empty range names the line it follows). */
  function Apply(before: seq<Line>, used: nat, hunks: seq<Hunk>): Option<seq<Line>>
    requires used <= |before|
    decreases |hunks|
  {
    if hunks == [] then Some(before[used..])
    else
      var h := hunks[0];
      var at := if h.aLen == 0 then h.aStart else h.aStart - 1;
      if at < used || at + h.aLen > |before| || before[at..at + h.aLen] != OldText(h.body) then None
      else match Apply(before, at + h.aLen, hunks[1..])
           case None => None
           case Some(rest) => Some(before[used..at] + NewText(h.body) + rest)
  }

  function Patched(before: seq<Line>, lines: seq<OutLine>): Option<seq<Line>> {
    match ReadHunks(lines)
    case None => None
    case Some(hunks) => Apply(before, 0, hunks)
  }

  /** The same lines read as the change from after to before (patch -R). */
  function Reverse(lines: seq<OutLine>): (r: seq<OutLine>)
    ensures |r| == |lines|
  {
    seq(|lines|, k requires 0 <= k < |lines| => ReverseLine(lines[k]))
  }

  function ReverseLine(l: OutLine): OutLine {
    match l
    case Header(aStart, aLen, bStart, bLen) => Header(bStart, bLen, aStart, aLen)
    case Body(e) => Body(ReverseEdit(e))
  }

  function ReverseEdit(e: Edit): Edit {
    Edit(match e.kind case Keep => Keep case Del => Add case Add => Del, e.text)
  }

  ghost predicate Sized(h: Hunk) {
    h.aLen == |OldText(h.body)| && h.bLen == |NewText(h.body)| && h.body != []
  }

  lemma {:induction false} TextOfCons(e: Edit, es: seq<Edit>)
    ensures OldText([e] + es) == (if e.kind.Add? then [] else [e.text]) + OldText(es)
    ensures NewText([e] + es) == (if e.kind.Del? then [] else [e.text]) + NewText(es)
  {
    TextOfConcat([e], es);
    assert [e][..0] == [];
  }

  lemma {:induction false} BodiesAt(es: seq<Edit>)
    ensures |Bodies(es)| == |es| && forall k :: 0 <= k < |es| ==> Bodies(es)[k] == Body(es[k])
  {
    if es != [] { BodiesAt(es[..|es| - 1]); }
  }

  lemma {:induction false} TakeNext(e: Edit, body: seq<Edit>, lines: seq<OutLine>, rest: seq<OutLine>, aLen: nat,
      bLen: nat)
    requires TakeBody(lines, aLen, bLen) == Some((body, rest))
    ensures TakeBody([Body(e)] + lines, aLen + if e.kind.Add? then 0 else 1, bLen + if e.kind.Del? then 0 else 1)
      == Some(([e] + body, rest))
  {
    assert ([Body(e)] + lines)[1..] == lines;
  }

  lemma {:induction false} TakeBodyRoundTrip(body: seq<Edit>, rest: seq<OutLine>)
    ensures TakeBody(Bodies(body) + rest, |OldText(body)|, |NewText(body)|) == Some((body, rest))
    decreases |body|
  {
    BodiesAt(body);
    var lines := Bodies(body) + rest;
    if body == [] {
      assert lines == rest;
    } else {
      var e, tail := body[0], body[1..];
      assert body == [e] + tail;
      TextOfCons(e, tail);
      BodiesAt(tail);
      assert lines[0] == Body(e) && lines[1..] == Bodies(tail) + rest;
      TakeBodyRoundTrip(tail, rest);
      hide Bodies, OldText, NewText, TakeBody;
      TakeNext(e, tail, Bodies(tail) + rest, rest, |OldText(tail)|, |NewText(tail)|);
      assert lines == [Body(e)] + (Bodies(tail) + rest);
    }
  }

  /** Print from the first hunk on, the way it is read. */
  lemma {:induction false} PrintCons(hunks: seq<Hunk>)
    requires hunks != []
    ensures Print(hunks) == PrintOne(hunks[0]) + Print(hunks[1..])
  {
    var n := |hunks| - 1;
    var init, tail := hunks[..n], hunks[1..];
    if n == 0 {
      assert init == [] && tail == [];
    } else {
      PrintCons(init);
      var mid := init[1..];
      assert tail[..n - 1] == mid && tail[n - 1] == hunks[n];
      assert Print(tail) == Print(mid) + PrintOne(hunks[n]);
      Assoc(PrintOne(hunks[0]), Print(mid), PrintOne(hunks[n]));
    }
  }

  lemma {:induction false} Assoc<T>(x: seq<T>, y: seq<T>, z: seq<T>)
    ensures (x + y) + z == x + (y + z)
  {}

  lemma {:induction false} ReadHunksRoundTrip(hunks: seq<Hunk>)
    requires forall k :: 0 <= k < |hunks| ==> Sized(hunks[k])
    ensures ReadHunks(Print(hunks)) == Some(hunks)
  {
    if hunks != [] {
      PrintCons(hunks);
      var h, rest := hunks[0], Print(hunks[1..]);
      var lines := Print(hunks);
      assert lines[1..] == Bodies(h.body) + rest;
      TakeBodyRoundTrip(h.body, rest);
      ReadHunksRoundTrip(hunks[1..]);
      assert [h] + hunks[1..] == hunks;
    }
  }

  // ── The round trip ──────────────────────────────────────────────────────────

  lemma {:induction false} HunksAt(es: seq<Edit>, ranges: seq<Range>)
    requires Within(es, ranges)
    ensures |HunksOf(es, ranges)| == |ranges|
    ensures forall k :: 0 <= k < |ranges| ==> HunksOf(es, ranges)[k] == HunkOf(es, ranges[k])
  {
    if ranges != [] { HunksAt(es, ranges[..|ranges| - 1]); }
  }

  lemma {:induction false} KeptTextIsShared(es: seq<Edit>)
    requires forall q :: 0 <= q < |es| ==> !IsChange(es, q)
    ensures OldText(es) == NewText(es)
  {
    if es != [] {
      var p := es[..|es| - 1];
      forall q | 0 <= q < |p| ensures !IsChange(p, q) { assert !IsChange(es, q); }
      KeptTextIsShared(p);
      assert !IsChange(es, |es| - 1);
    }
  }

  lemma {:induction false} NotCovered(ranges: seq<Range>, i: nat, p: int)
    requires forall j, k :: 0 <= j < k < |ranges| ==> ranges[j].end < ranges[k].start
    requires forall j :: 0 <= j < |ranges| ==> ranges[j].start < ranges[j].end
    requires i <= |ranges| && (i == 0 || ranges[i - 1].end <= p) && (i == |ranges| || p < ranges[i].start)
    ensures !Covered(ranges, p)
  {
    forall r | r in ranges ensures !(r.start <= p < r.end) {
      var j :| 0 <= j < |ranges| && ranges[j] == r;
      if j + 1 < i {
        assert ranges[j].end < ranges[i - 1].start;
      } else if j > i {
        assert ranges[i].end < ranges[j].start;
      }
    }
  }

  /** Lines between two hunks, before the first and after the last are kept. */
  lemma {:induction false} GapIsKept(es: seq<Edit>, ranges: seq<Range>, i: nat, e: nat, f: nat)
    requires Grouped(es, ranges) && i <= |ranges|
    requires e == if i == 0 then 0 else ranges[i - 1].end
    requires f == if i == |ranges| then |es| else ranges[i].start
    ensures e <= f <= |es| && OldText(es[e..f]) == NewText(es[e..f])
  {
    forall p | e <= p < f ensures !IsChange(es, p) {
      NotCovered(ranges, i, p);
      if IsChange(es, p) { assert NearChange(es, p); }
    }
    forall q | 0 <= q < f - e ensures !IsChange(es[e..f], q) { assert !IsChange(es, e + q); }
    KeptTextIsShared(es[e..f]);
  }

  lemma {:induction false} NoOldText(es: seq<Edit>, q: nat)
    requires OldText(es) == [] && q < |es|
    ensures es[q].kind.Add?
  {
    assert es == es[..q] + ([es[q]] + es[q + 1..]);
    TextOfConcat(es[..q], [es[q]] + es[q + 1..]);
    TextOfCons(es[q], es[q + 1..]);
  }

  /** A hunk without old lines opens the script: 0 is its true position. */
  lemma {:induction false} EmptySideStartsAtZero(es: seq<Edit>, ranges: seq<Range>, i: nat)
    requires Grouped(es, ranges) && i < |ranges|
    requires OldText(es[ranges[i].start..ranges[i].end]) == []
    ensures ranges[i].start == 0
  {
    var r := ranges[i];
    NoOldText(es[r.start..r.end], 0);
    assert IsChange(es, r.start);
    if r.start > 0 {
      if i > 0 { assert ranges[i - 1].end < r.start; }
      assert NearChange(es, r.start - 1);
      NotCovered(ranges, i, r.start - 1);
    }
  }

  lemma {:induction false} ThreePieces(es: seq<Edit>, e: nat, f: nat, g: nat)
    requires e <= f <= g <= |es|
    ensures OldText(es) == OldText(es[..e]) + OldText(es[e..f]) + OldText(es[f..g]) + OldText(es[g..])
    ensures NewText(es[e..]) == NewText(es[e..f]) + NewText(es[f..g]) + NewText(es[g..])
    ensures OldText(es[..f]) == OldText(es[..e]) + OldText(es[e..f])
    ensures OldText(es[..g]) == OldText(es[..f]) + OldText(es[f..g])
  {
    assert es == es[..g] + es[g..] && es[..g] == es[..f] + es[f..g] && es[..f] == es[..e] + es[e..f];
    assert es[e..] == es[e..g] + es[g..] && es[e..g] == es[e..f] + es[f..g];
    TextOfConcat(es[..g], es[g..]);
    TextOfConcat(es[..f], es[f..g]);
    TextOfConcat(es[..e], es[e..f]);
    TextOfConcat(es[e..g], es[g..]);
    TextOfConcat(es[e..f], es[f..g]);
  }

  lemma {:induction false} SlicesOf(a: seq<Line>, b: seq<Line>, c: seq<Line>, d: seq<Line>)
    ensures var x := a + b + c + d;
            && x[|a|..|a| + |b|] == b
            && x[|a| + |b|..|a| + |b| + |c|] == c
            && x[|a| + |b| + |c|..] == d
  {}

  lemma {:induction false} ApplyOne(before: seq<Line>, used: nat, at: nat, h: Hunk, tail: seq<Hunk>, rest: seq<Line>)
    requires used <= at && at + h.aLen <= |before| && before[at..at + h.aLen] == OldText(h.body)
    requires at == if h.aLen == 0 then h.aStart else h.aStart - 1
    requires Apply(before, at + h.aLen, tail) == Some(rest)
    ensures Apply(before, used, [h] + tail) == Some(before[used..at] + NewText(h.body) + rest)
  {
    assert ([h] + tail)[1..] == tail;
  }

  lemma {:induction false} ApplyNone(es: seq<Edit>, e: nat)
    requires e <= |es| && OldText(es[e..]) == NewText(es[e..])
    ensures |OldText(es[..e])| <= |OldText(es)|
    ensures Apply(OldText(es), |OldText(es[..e])|, []) == Some(NewText(es[e..]))
  {
    assert es == es[..e] + es[e..];
    TextOfConcat(es[..e], es[e..]);
  }

  lemma {:induction false} ApplyFrom(es: seq<Edit>, ranges: seq<Range>, i: nat, e: nat)
    requires Grouped(es, ranges) && Within(es, ranges) && i <= |ranges|
    requires e == if i == 0 then 0 else ranges[i - 1].end
    ensures |HunksOf(es, ranges)| == |ranges| && |OldText(es[..e])| <= |OldText(es)|
    ensures Apply(OldText(es), |OldText(es[..e])|, HunksOf(es, ranges)[i..]) == Some(NewText(es[e..]))
    decreases |ranges| - i
  {
    hide Grouped, HunksOf, OldText, NewText;
    HunksAt(es, ranges);
    var f := if i == |ranges| then |es| else ranges[i].start;
    GapIsKept(es, ranges, i, e, f);
    if i == |ranges| {
      assert es[e..f] == es[e..];
      ApplyNone(es, e);
      assert HunksOf(es, ranges)[i..] == [];
    } else {
      var r, hs := ranges[i], HunksOf(es, ranges);
      ThreePieces(es, e, f, r.end);
      SlicesOf(OldText(es[..e]), OldText(es[e..f]), OldText(es[f..r.end]), OldText(es[r.end..]));
      ApplyFrom(es, ranges, i + 1, r.end);
      assert hs[i..] == [hs[i]] + hs[i + 1..];
      if hs[i].aLen == 0 { EmptySideStartsAtZero(es, ranges, i); }
      ApplyOne(OldText(es), |OldText(es[..e])|, |OldText(es[..f])|, hs[i], hs[i + 1..], NewText(es[r.end..]));
    }
  }

  lemma {:induction false} HunksAreSized(es: seq<Edit>, ranges: seq<Range>)
    requires Grouped(es, ranges) && Within(es, ranges)
    ensures forall k :: 0 <= k < |HunksOf(es, ranges)| ==> Sized(HunksOf(es, ranges)[k])
  {
    HunksAt(es, ranges);
  }

  /** Applied at the printed fields, the hunks turn the old text into the new. */
  lemma {:induction false} PatchGivesNewText(es: seq<Edit>, ranges: seq<Range>)
    requires Grouped(es, ranges) && Within(es, ranges)
    ensures Patched(OldText(es), Print(HunksOf(es, ranges))) == Some(NewText(es))
  {
    HunksAreSized(es, ranges);
    ReadHunksRoundTrip(HunksOf(es, ranges));
    ApplyFrom(es, ranges, 0, 0);
    assert es[..0] == [] && es[0..] == es && HunksOf(es, ranges)[0..] == HunksOf(es, ranges);
  }

  ghost function Reversed(es: seq<Edit>): (r: seq<Edit>)
    ensures |r| == |es| && forall k :: 0 <= k < |es| ==> r[k] == ReverseEdit(es[k])
  {
    seq(|es|, k requires 0 <= k < |es| => ReverseEdit(es[k]))
  }

  lemma {:induction false} ReversedText(es: seq<Edit>)
    ensures OldText(Reversed(es)) == NewText(es) && NewText(Reversed(es)) == OldText(es)
  {
    if es != [] {
      ReversedText(es[..|es| - 1]);
      assert Reversed(es)[..|es| - 1] == Reversed(es[..|es| - 1]);
    }
  }

  lemma {:induction false} ReversedGrouping(es: seq<Edit>, ranges: seq<Range>)
    requires Grouped(es, ranges)
    ensures Grouped(Reversed(es), ranges)
  {
    var r := Reversed(es);
    forall p ensures NearChange(r, p) <==> NearChange(es, p) {
      forall q ensures IsChange(r, q) <==> IsChange(es, q) {}
      if NearChange(es, p) { var q :| p - CTX <= q <= p + CTX && IsChange(es, q); assert IsChange(r, q); }
      if NearChange(r, p) { var q :| p - CTX <= q <= p + CTX && IsChange(r, q); assert IsChange(es, q); }
    }
  }

  lemma {:induction false} ReversedBodies(body: seq<Edit>)
    ensures Bodies(Reversed(body)) == Reverse(Bodies(body))
  {
    BodiesAt(body);
    BodiesAt(Reversed(body));
    hide Bodies;
  }

  lemma {:induction false} ReversedHunk(es: seq<Edit>, x: Range)
    requires x.start <= x.end <= |es|
    ensures var h := HunkOf(es, x);
      HunkOf(Reversed(es), x) == Hunk(h.bStart, h.bLen, h.aStart, h.aLen, Reversed(h.body))
  {
    var body := es[x.start..x.end];
    assert Reversed(es)[x.start..x.end] == Reversed(body) && Reversed(es)[..x.start] == Reversed(es[..x.start]);
    ReversedText(body);
    ReversedText(es[..x.start]);
    hide OldText, NewText, Reversed;
  }

  lemma {:induction false} ReversedOne(es: seq<Edit>, x: Range)
    requires x.start <= x.end <= |es|
    ensures PrintOne(HunkOf(Reversed(es), x)) == Reverse(PrintOne(HunkOf(es, x)))
  {
    var h := HunkOf(es, x);
    var header := [Header(h.aStart, h.aLen, h.bStart, h.bLen)];
    assert Reverse(header) == [Header(h.bStart, h.bLen, h.aStart, h.aLen)];
    hide HunkOf, Reversed, Bodies, Reverse;
    ReversedHunk(es, x);
    ReversedBodies(h.body);
    ReverseConcat(header, Bodies(h.body));
  }

  lemma {:induction false} ReversedPrint(es: seq<Edit>, ranges: seq<Range>)
    requires Within(es, ranges)
    ensures Within(Reversed(es), ranges)
    ensures Print(HunksOf(Reversed(es), ranges)) == Reverse(Print(HunksOf(es, ranges)))
  {
    if ranges != [] {
      var init, x := ranges[..|ranges| - 1], ranges[|ranges| - 1];
      assert Within(es, init) && init + [x] == ranges;
      ReversedPrint(es, init);
      hide PrintOne, HunkOf, Reversed, Print, HunksOf, Reverse;
      ReversedOne(es, x);
      PrintPush(es, init, x);
      PrintPush(Reversed(es), init, x);
      ReverseConcat(Print(HunksOf(es, init)), PrintOne(HunkOf(es, x)));
    }
  }

  lemma {:induction false} ReverseConcat(x: seq<OutLine>, y: seq<OutLine>)
    ensures Reverse(x + y) == Reverse(x) + Reverse(y)
  {}

  /** Read backwards, they turn the new text into the old: the '+' fields are right too. */
  lemma {:induction false} ReversePatchGivesOldText(es: seq<Edit>, ranges: seq<Range>)
    requires Grouped(es, ranges) && Within(es, ranges)
    ensures Patched(NewText(es), Reverse(Print(HunksOf(es, ranges)))) == Some(OldText(es))
  {
    ReversedText(es);
    ReversedGrouping(es, ranges);
    ReversedPrint(es, ranges);
    PatchGivesNewText(Reversed(es), ranges);
  }

  // ── The rendered diff ───────────────────────────────────────────────────────

  /** The lines, each ended by a newline. */
  function Ended(lines: seq<Line>): string { if lines == [] then "" else lines[0] + "\n" + Ended(lines[1..]) }

  /** The lines of a text: none has a newline in it, and ended they are the text, with a
      final newline when it had none. A text of nothing but one newline has none. */
  ghost predicate LinesOf(s: string, lines: seq<Line>) {
    && (forall k :: 0 <= k < |lines| ==> '\n' !in lines[k])
    && if lines == [] then s == "" || s == "\n"
       else s != "" && s != "\n" && Ended(lines) == if s[|s| - 1] == '\n' then s else s + "\n"
  }

  /** strings.TrimSuffix(s, "\n"), then strings.Split, with no lines for no text. */
  function SplitLines(s: string): seq<Line> {
    var t := TrimSuffix(s, "\n");
    if t == "" then [] else Split(t, '\n')
  }

  lemma {:induction false} EndedIsJoin(lines: seq<Line>)
    requires lines != []
    ensures Ended(lines) == Join(lines, "\n") + "\n"
  {
    if |lines| > 1 {
      EndedIsJoin(lines[1..]);
    } else {
      assert Ended(lines[1..]) == "";
    }
  }

  /** What SplitLines gives are the lines of the text. */
  lemma {:induction false} SplitLinesAre(s: string)
    ensures LinesOf(s, SplitLines(s))
  {
    var t := TrimSuffix(s, "\n");
    if t != "" {
      JoinOfSplit(t, '\n');
      EndedIsJoin(Split(t, '\n'));
      assert Ended(SplitLines(s)) == t + "\n";
      assert s == s[..|s| - 1] + [s[|s| - 1]];
    }
  }

  /** A text has its lines in one way only. */
  lemma {:induction false} LinesAreUnique(s: string, a: seq<Line>, b: seq<Line>)
    requires LinesOf(s, a) && LinesOf(s, b)
    ensures a == b
  {
    if a != [] && b != [] {
      EndedIsJoin(a);
      EndedIsJoin(b);
      assert Ended(a)[..|Ended(a)| - 1] == Join(a, "\n") && Ended(b)[..|Ended(b)| - 1] == Join(b, "\n");
      SplitOfJoin(a, '\n');
      SplitOfJoin(b, '\n');
    }
  }

  /** Two texts have the same lines exactly when they differ by one final newline
      at most. */
  lemma {:induction false} SameLines(s: string, t: string)
    ensures SplitLines(s) == SplitLines(t) <==> TrimSuffix(s, "\n") == TrimSuffix(t, "\n")
  {
    JoinOfSplit(TrimSuffix(s, "\n"), '\n');
    JoinOfSplit(TrimSuffix(t, "\n"), '\n');
  }

  datatype Diff =
    | Same
    | TooLarge(path: string, before: nat, after: nat)
    | Changes(name: string, lines: seq<OutLine>)

  // ── The text of a diff ──────────────────────────────────────────────────────

  function Mark(kind: Kind): char {
    match kind
    case Keep => ' '
    case Del => '-'
    case Add => '+'
  }

  function Pair(start: nat, len: nat): string { Decimal(start) + "," + Decimal(len) }

  function LineText(l: OutLine): Line {
    match l
    case Header(aStart, aLen, bStart, bLen) => "@@ -" + Pair(aStart, aLen) + " +" + Pair(bStart, bLen) + " @@"
    case Body(edit) => [Mark(edit.kind)] + edit.text
  }

  function Texts(lines: seq<OutLine>): (r: seq<Line>)
    ensures |r| == |lines| && forall k :: 0 <= k < |r| ==> r[k] == LineText(lines[k])
  {
    seq(|lines|, k requires 0 <= k < |lines| => LineText(lines[k]))
  }

  /** What unifiedDiff returns. */
  function DiffText(d: Diff): (text: string)
    ensures text == "" <==> d.Same?
  {
    match d
    case Same => ""
    case TooLarge(path, before, after) =>
      "--- a" + path + "\n+++ b" + path + "\n(" + Decimal(before) + " lines before, " + Decimal(after)
      + " after: too large to show as a diff)\n"
    case Changes(name, lines) => "--- a/" + name + "\n+++ b/" + name + "\n" + Ended(Texts(lines))
  }

  function Count(s: string): nat { if forall k :: 0 <= k < |s| ==> IsDigit(s[k]) then Number(s) else 0 }

  function ReadPair(s: string): (nat, nat) {
    var parts := Split(s, ',');
    (Count(parts[0]), if |parts| > 1 then Count(parts[1]) else 0)
  }

  /** A line of the diff's text as a program that applies it reads it. */
  function ReadLine(t: Line): Option<OutLine> {
    if t == "" then None
    else
      match t[0]
      case ' ' => Some(Body(Edit(Keep, t[1..])))
      case '-' => Some(Body(Edit(Del, t[1..])))
      case '+' => Some(Body(Edit(Add, t[1..])))
      case '@' => if |t| >= 7 then ReadHeader(Split(t[4..|t| - 3], ' ')) else None
      case _ => None
  }

  function ReadHeader(parts: seq<string>): Option<OutLine> {
    if |parts| != 2 then None
    else
      var (aStart, aLen) := ReadPair(parts[0]);
      var (bStart, bLen) := ReadPair(TrimPrefix(parts[1], "+"));
      Some(Header(aStart, aLen, bStart, bLen))
  }

  lemma {:induction false} PairReads(start: nat, len: nat)
    ensures ReadPair(Pair(start, len)) == (start, len)
    ensures forall c :: c in Pair(start, len) ==> IsDigit(c) || c == ','
  {
    NumberOfDecimal(start);
    NumberOfDecimal(len);
    SplitCons(Decimal(start), Decimal(len), ',');
    SplitSingle(Decimal(len), ',');
  }

  /** Each line reads back. */
  lemma {:induction false} LineReads(l: OutLine)
    ensures ReadLine(LineText(l)) == Some(l)
  {
    var t := LineText(l);
    match l
    case Body(edit) => assert t[1..] == edit.text && t[0] == Mark(edit.kind);
    case Header(aStart, aLen, bStart, bLen) =>
      var p, q := Pair(aStart, aLen), Pair(bStart, bLen);
      PairReads(aStart, aLen);
      PairReads(bStart, bLen);
      assert t[4..|t| - 3] == p + " " + ("+" + q);
      SplitCons(p, "+" + q, ' ');
      SplitSingle("+" + q, ' ');
      assert TrimPrefix("+" + q, "+") == q;
      hide Pair, ReadPair;
  }

  lemma {:induction false} OneLine(l: OutLine)
    requires l.Body? ==> '\n' !in l.edit.text
    ensures '\n' !in LineText(l) && LineText(l) != ""
  {
    if l.Header? {
      PairReads(l.aStart, l.aLen);
      PairReads(l.bStart, l.bLen);
      hide Pair;
      assert '\n' !in "@@ -" && '\n' !in " +" && '\n' !in " @@";
    }
  }

  /** The text below the two names tells the hunks, line by line: it is the text of no others. */
  lemma {:induction false} TextTellsLines(lines: seq<OutLine>, others: seq<OutLine>)
    requires forall l :: l in lines + others && l.Body? ==> '\n' !in l.edit.text
    requires Ended(Texts(lines)) == Ended(Texts(others))
    ensures lines == others
  {
    forall l | l in lines + others ensures '\n' !in LineText(l) && LineText(l) != "" { OneLine(l); }
    assert forall k :: 0 <= k < |lines| ==> lines[k] in lines + others;
    assert forall k :: 0 <= k < |others| ==> others[k] in lines + others;
    hide LineText;
    EndedIsLines(Texts(lines));
    EndedIsLines(Texts(others));
    LinesAreUnique(Ended(Texts(lines)), Texts(lines), Texts(others));
    forall k | 0 <= k < |lines| ensures lines[k] == others[k] {
      LineReads(lines[k]);
      LineReads(others[k]);
      assert Texts(lines)[k] == Texts(others)[k];
    }
  }

  lemma {:induction false} EndedIsLines(lines: seq<Line>)
    requires forall k :: 0 <= k < |lines| ==> '\n' !in lines[k] && lines[k] != ""
    ensures LinesOf(Ended(lines), lines)
  {
    if lines != [] { EndedIsJoin(lines); }
  }

  lemma {:induction false} LcsOfSame(a: seq<Line>)
    ensures Lcs(a, 0, a, 0) >= |a|
  {
    SubseqSelf(a);
    assert a[0..] == a;
    LcsIsMaximal(a, a, 0, a, 0);
  }

  lemma {:induction false} SubseqSelf(a: seq<Line>)
    ensures Subseq(a, a)
  {
    if a != [] { SubseqSelf(a[1..]); }
  }

  lemma {:induction false} KeptCount(es: seq<Edit>)
    ensures |Kept(es)| <= |es|
    ensures |Kept(es)| == |es| <==> forall q :: 0 <= q < |es| ==> es[q].kind.Keep?
  {
    if es != [] { KeptCount(es[..|es| - 1]); }
  }

  /** Nothing is printed below the names exactly when the two texts have the same
      lines: a change of the final newline alone is not shown. */
  lemma {:induction false} NothingShown(es: seq<Edit>, ranges: seq<Range>)
    requires |Kept(es)| == Lcs(OldText(es), 0, NewText(es), 0)
    requires Grouped(es, ranges) && Within(es, ranges)
    ensures Print(HunksOf(es, ranges)) == [] <==> OldText(es) == NewText(es)
  {
    PatchGivesNewText(es, ranges);
    if ranges != [] { assert ranges[0] in ranges && NearChange(es, ranges[0].start); }
    if OldText(es) == NewText(es) {
      KeptIsCommon(es);
      LcsOfSame(OldText(es));
      KeptCount(es);
    } else {
      assert Patched(OldText(es), []) == Some(OldText(es));
    }
  }

  /** For instance, an empty file that becomes one blank line. */
  lemma {:induction false} BlankLineIsNotShown()
    ensures "" != "\n" && SplitLines("") == SplitLines("\n")
  {}

  method UnifiedDiff(path: string, before: string, after: string) returns (text: string, d: Diff)
    ensures text == DiffText(d) && (text == "" <==> before == after)
    ensures d.Same? <==> before == after
    ensures d.TooLarge? ==> d.path == path && d.before == |SplitLines(before)| && d.after == |SplitLines(after)|
    ensures d.TooLarge? <==>
      before != after && (|SplitLines(before)| > MAX_DIFF_LINES || |SplitLines(after)| > MAX_DIFF_LINES)
    ensures LinesOf(before, SplitLines(before)) && LinesOf(after, SplitLines(after))
    ensures d.Changes? ==> path == "/" + d.name || (d.name == path && !(path != "" && path[0] == '/'))
    ensures d.Changes? ==> Patched(SplitLines(before), d.lines) == Some(SplitLines(after))
    ensures d.Changes? ==> Patched(SplitLines(after), Reverse(d.lines)) == Some(SplitLines(before))
    ensures d.Changes? ==> exists es, ranges ::
      && OldText(es) == SplitLines(before) && NewText(es) == SplitLines(after)
      && |Kept(es)| == Lcs(OldText(es), 0, NewText(es), 0)
      && Grouped(es, ranges) && Within(es, ranges) && d.lines == Print(HunksOf(es, ranges))
  {
    SplitLinesAre(before);
    SplitLinesAre(after);
    hide LinesOf, DiffText;
    if before == after {
      return "", Same;
    }
    var a, b := SplitLines(before), SplitLines(after);
    if |a| > MAX_DIFF_LINES || |b| > MAX_DIFF_LINES {
      d := TooLarge(path, |a|, |b|);
      return DiffText(d), d;
    }
    var ops := EditScript(a, b);
    var lines := PrintHunks(ops);
    ghost var ranges :| Shows(Script(ops), ranges, lines);
    PatchGivesNewText(Script(ops), ranges);
    ReversePatchGivesOldText(Script(ops), ranges);
    d := Changes(TrimPrefix(path, "/"), lines);
    text := DiffText(d);
  }
}
