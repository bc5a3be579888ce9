/** HSI's ARRAY lines in mdadm.conf (apps/root-worker/mdadm_conf.go). */
module MdadmConf {
  import opened Text
  import opened StableSort
  import opened ConfLines

  const ARRAY_MARK := "# HSI-managed array: "
  const ARRAY := "ARRAY "

  function ArrayMarker(name: string): string { ARRAY_MARK + name }

  function Device(name: string): string { "/dev/" + name }

  predicate IsArrayLine(line: string): (r: bool)
    ensures r <==> exists rest :: line == "ARRAY " + rest
  {
    if HasPrefix(line, ARRAY) then assert line == "ARRAY " + line[|ARRAY|..]; true else false
  }

  /** The last UUID= of the fields. */
  function UuidIn(fields: seq<string>): string {
    if fields == [] then ""
    else
      var last := fields[|fields| - 1];
      if HasPrefix(last, "UUID=") then TrimPrefix(last, "UUID=") else UuidIn(fields[..|fields| - 1])
  }

  function ArrayLineFields(line: string): (string, string) {
    var f := Fields(line);
    if |f| < 2 || f[0] != "ARRAY" then ("", "") else (f[1], UuidIn(f[2..]))
  }

  method ReadArrayLine(line: string) returns (device: string, uuid: string)
    ensures (device, uuid) == ArrayLineFields(line)
  {
    hide HasPrefix, TrimPrefix;
    var f := Fields(line);
    device, uuid := "", "";
    if |f| < 2 || f[0] != "ARRAY" { return; }
    var rest := f[2..];
    for i := 0 to |rest|
      invariant uuid == UuidIn(rest[..i])
    {
      assert rest[..i + 1][..i] == rest[..i];
      if HasPrefix(rest[i], "UUID=") { uuid := TrimPrefix(rest[i], "UUID="); }
    }
    assert rest[..|rest|] == rest;
    device := f[1];
  }

  /** An ARRAY line for the device, or for the UUID when there is one. */
  predicate For(line: string, name: string, uuid: string) {
    var (d, u) := ArrayLineFields(line);
    d != "" && (d == Device(name) || (uuid != "" && u == uuid))
  }

  /** Of some fields, the last that starts so is this one. */
  ghost predicate LastIs(fields: seq<string>, start: string, field: string) {
    exists k :: 0 <= k < |fields| && fields[k] == field && forall j :: k < j < |fields| ==> !(start <= fields[j])
  }

  /** A line that is for an array: ARRAY, its device or any other, and its UUID if known. */
  ghost predicate OfArray(line: string, name: string, uuid: string) {
    var f := Fields(line);
    |f| >= 2 && f[0] == "ARRAY" && (f[1] == "/dev/" + name || (uuid != "" && LastIs(f[2..], "UUID=", "UUID=" + uuid)))
  }

  lemma {:induction false} LastIsNext(fields: seq<string>, last: string, start: string, field: string)
    requires start <= field
    ensures LastIs(fields + [last], start, field) <==>
      if start <= last then last == field else LastIs(fields, start, field)
  {
    var all, n := fields + [last], |fields|;
    if !(start <= last) {
      if k :| 0 <= k < n && fields[k] == field && forall j :: k < j < n ==> !(start <= fields[j]) {
        assert all[k] == field;
      }
      if k :| 0 <= k < n + 1 && all[k] == field && forall j :: k < j < n + 1 ==> !(start <= all[j]) {
        assert k < n && fields[k] == field && forall j :: k < j < n ==> all[j] == fields[j];
      }
    } else {
      assert all[n] == last;
    }
  }

  lemma {:induction false} UuidIsLast(fields: seq<string>, uuid: string)
    requires uuid != ""
    ensures UuidIn(fields) == uuid <==> LastIs(fields, "UUID=", "UUID=" + uuid)
  {
    if fields != [] {
      var n := |fields| - 1;
      UuidIsLast(fields[..n], uuid);
      assert fields == fields[..n] + [fields[n]];
      LastIsNext(fields[..n], fields[n], "UUID=", "UUID=" + uuid);
      TrimIs(fields[n], "UUID=", uuid);
      hide LastIs, HasPrefix, TrimPrefix;
    }
  }

  lemma {:induction false} TrimIs(s: string, start: string, rest: string)
    ensures HasPrefix(s, start) <==> start <= s
    ensures HasPrefix(s, start) ==> (TrimPrefix(s, start) == rest <==> s == start + rest)
  {
    if start <= s { assert s == start + s[|start|..]; }
  }

  /** What an edit drops outside its own entry: the array's marker and the lines for it. */
  lemma {:induction false} NotForExactly(line: string, name: string, uuid: string)
    ensures NotFor(name, uuid)(line) <==> line != "# HSI-managed array: " + name && !OfArray(line, name, uuid)
  {
    var f := Fields(line);
    if |f| >= 2 {
      assert Field(f[1]);
      if uuid != "" { UuidIsLast(f[2..], uuid); }
    }
    hide UuidIn, LastIs, Fields;
  }

  function NotFor(name: string, uuid: string): string -> bool {
    l => l != ArrayMarker(name) && !For(l, name, uuid)
  }

  function DropArray(lines: seq<string>, name: string, uuid: string): seq<string>
    decreases |lines|
  {
    if lines == [] then []
    else if lines[0] == ArrayMarker(name) then
      if |lines| > 1 && IsArrayLine(lines[1]) then DropArray(lines[2..], name, uuid)
        else DropArray(lines[1..], name, uuid)
    else if For(lines[0], name, uuid) then DropArray(lines[1..], name, uuid)
    else [lines[0]] + DropArray(lines[1..], name, uuid)
  }

  method WithoutHsiEntry(lines: seq<string>, name: string, uuid: string) returns (out: seq<string>)
    ensures out == DropArray(lines, name, uuid)
  {
    hide ArrayMarker, IsArrayLine, For, DropArray;
    out := [];
    assert lines[0..] == lines;
    var i := 0;
    while i < |lines|
      invariant i <= |lines| && out + DropArray(lines[i..], name, uuid) == DropArray(lines, name, uuid)
    {
      DropStep(lines, i, name, uuid);
      if lines[i] == ArrayMarker(name) {
        if i + 1 < |lines| && IsArrayLine(lines[i + 1]) { i := i + 1; }
        i := i + 1;
        continue;
      }
      if For(lines[i], name, uuid) {
        i := i + 1;
        continue;
      }
      AssocLines(out, [lines[i]], DropArray(lines[i + 1..], name, uuid));
      out := out + [lines[i]];
      i := i + 1;
    }
    DropEnd(lines, i, name, uuid);
    assert out + [] == out;
  }

  lemma {:induction false} AssocLines(a: seq<string>, b: seq<string>, c: seq<string>)
    ensures a + b + c == a + (b + c)
  {}

  lemma {:induction false} DropEnd(lines: seq<string>, i: nat, name: string, uuid: string)
    requires i == |lines|
    ensures DropArray(lines[i..], name, uuid) == []
  {}

  lemma {:induction false} DropStep(lines: seq<string>, i: nat, name: string, uuid: string)
    requires i < |lines|
    ensures DropArray(lines[i..], name, uuid) ==
      if lines[i] == ArrayMarker(name) then
        if i + 1 < |lines| && IsArrayLine(lines[i + 1]) then DropArray(lines[i + 2..], name, uuid)
          else DropArray(lines[i + 1..], name, uuid)
      else if For(lines[i], name, uuid) then DropArray(lines[i + 1..], name, uuid)
      else [lines[i]] + DropArray(lines[i + 1..], name, uuid)
  {
    hide ArrayMarker, IsArrayLine, For;
    var rest := lines[i..];
    assert rest[0] == lines[i] && rest[1..] == lines[i + 1..];
    if i + 1 < |lines| { assert rest[1] == lines[i + 1] && rest[2..] == lines[i + 2..]; }
  }

  function ArrayUpserted(lines: seq<string>, name: string, arrayLine: string): seq<string> {
    DropArray(lines, name, ArrayLineFields(arrayLine).1) + [ArrayMarker(name), arrayLine]
  }

  method UpsertArrayLine(conf: string, name: string, arrayLine: string) returns (r: string)
    ensures r == JoinConf(ArrayUpserted(SplitConf(conf), name, arrayLine))
  {
    hide ArrayLineFields;
    var device, uuid := ReadArrayLine(arrayLine);
    var lines := WithoutHsiEntry(SplitConf(conf), name, uuid);
    r := JoinConf(lines + [ArrayMarker(name), arrayLine]);
  }

  method RemoveArrayEntries(conf: string, name: string, uuid: string) returns (r: string)
    ensures r == JoinConf(DropArray(SplitConf(conf), name, uuid))
  {
    var lines := WithoutHsiEntry(SplitConf(conf), name, uuid);
    r := JoinConf(lines);
  }

  // ── What the edits promise ──────────────────────────────────────────────────

  /** Nothing is left for the array: no marker, no ARRAY line of its device or UUID. */
  lemma {:induction false} NoneLeft(lines: seq<string>, name: string, uuid: string)
    ensures forall l :: l in DropArray(lines, name, uuid) ==> l in lines && NotFor(name, uuid)(l)
    ensures |DropArray(lines, name, uuid)| <= |Filter(lines, NotFor(name, uuid))|
    decreases |lines|
  {
    hide ArrayMarker, IsArrayLine, For;
    if lines != [] {
      assert lines == [lines[0]] + lines[1..];
      FilterCons(lines[0], lines[1..], NotFor(name, uuid));
      if lines[0] == ArrayMarker(name) && |lines| > 1 && IsArrayLine(lines[1]) {
        NoneLeft(lines[2..], name, uuid);
        assert lines[1..] == [lines[1]] + lines[2..];
        FilterCons(lines[1], lines[2..], NotFor(name, uuid));
      } else {
        NoneLeft(lines[1..], name, uuid);
      }
    }
  }

  /** Each ARRAY line right after the array's marker is for the array. */
  ghost predicate OwnArrays(lines: seq<string>, name: string, uuid: string)
    decreases |lines|
  {
    lines == [] ||
    if lines[0] == ArrayMarker(name) && |lines| > 1 && IsArrayLine(lines[1]) then !NotFor(name, uuid)(lines[1])
      && OwnArrays(lines[2..], name, uuid)
    else OwnArrays(lines[1..], name, uuid)
  }

  lemma {:induction false} SkipTwo<T(!new)>(x: T, y: T, rest: seq<T>, keep: T -> bool)
    requires !keep(x)
    ensures Filter([x, y] + rest, keep) == if keep(y) then [y] + Filter(rest, keep) else Filter(rest, keep)
  {
    assert [x, y] + rest == [x] + ([y] + rest);
    FilterCons(x, [y] + rest, keep);
    FilterCons(y, rest, keep);
  }

  /** Every other line is kept, in order, exactly when no marker of the array stands
      before the ARRAY line of another. */
  lemma {:induction false} OthersKeptExactly(lines: seq<string>, name: string, uuid: string)
    ensures DropArray(lines, name, uuid) == Filter(lines, NotFor(name, uuid)) <==> OwnArrays(lines, name, uuid)
    decreases |lines|
  {
    var keep := NotFor(name, uuid);
    if lines != [] {
      if lines[0] == ArrayMarker(name) && |lines| > 1 && IsArrayLine(lines[1]) {
        var x, y, rest := lines[0], lines[1], lines[2..];
        assert lines == [x, y] + rest;
        assert DropArray(lines, name, uuid) == DropArray(rest, name, uuid);
        assert OwnArrays(lines, name, uuid) <==> !keep(y) && OwnArrays(rest, name, uuid);
        hide ArrayMarker, IsArrayLine, For, DropArray, OwnArrays, Filter;
        OthersKeptExactly(rest, name, uuid);
        NoneLeft(rest, name, uuid);
        SkipTwo(x, y, rest, keep);
      } else {
        var x, rest := lines[0], lines[1..];
        assert lines == [x] + rest;
        assert DropArray(lines, name, uuid) == if keep(x) then [x] + DropArray(rest, name, uuid)
          else DropArray(rest, name, uuid);
        assert OwnArrays(lines, name, uuid) <==> OwnArrays(rest, name, uuid);
        hide ArrayMarker, IsArrayLine, For, DropArray, OwnArrays, Filter;
        OthersKeptExactly(rest, name, uuid);
        FilterCons(x, rest, keep);
        SameTail(x, DropArray(rest, name, uuid), Filter(rest, keep));
      }
    }
  }

  lemma {:induction false} SameTail<T>(l: T, a: seq<T>, b: seq<T>)
    ensures [l] + a == [l] + b <==> a == b
  {
    assert ([l] + a)[1..] == a && ([l] + b)[1..] == b;
  }

  lemma {:induction false} DropEntryAtEnd(lines: seq<string>, name: string, uuid: string, arrayLine: string)
    requires IsArrayLine(arrayLine) && forall l :: l in lines ==> NotFor(name, uuid)(l)
    ensures DropArray(lines + [ArrayMarker(name), arrayLine], name, uuid) == lines
  {
    hide ArrayMarker, IsArrayLine, For;
    var all := lines + [ArrayMarker(name), arrayLine];
    if lines == [] {
      assert all[2..] == [];
    } else {
      assert lines[0] in lines && NotFor(name, uuid)(lines[0]);
      assert all[0] == lines[0] && all[1..] == lines[1..] + [ArrayMarker(name), arrayLine];
      DropEntryAtEnd(lines[1..], name, uuid, arrayLine);
    }
  }

  lemma {:induction false} ArrayUpsertedLines(lines: seq<string>, name: string, arrayLine: string)
    requires Lines(lines) && '\n' !in name && '\n' !in arrayLine
    ensures Lines(ArrayUpserted(lines, name, arrayLine)) && Lines(DropArray(lines, name, ArrayLineFields(arrayLine).1))
  {
    var uuid := ArrayLineFields(arrayLine).1;
    NoneLeft(lines, name, uuid);
    assert '\n' !in ArrayMarker(name);
    hide *;
    LinesWithin(lines, DropArray(lines, name, uuid));
    LinesPair(DropArray(lines, name, uuid), ArrayMarker(name), arrayLine);
    ArrayUpsertedIs(lines, name, arrayLine);
  }

  lemma {:induction false} ArrayUpsertedIs(lines: seq<string>, name: string, arrayLine: string)
    ensures ArrayUpserted(lines, name, arrayLine) == DropArray(lines, name, ArrayLineFields(arrayLine).1)
      + [ArrayMarker(name), arrayLine]
  {}

  /** Asked again, the file stays as it is. */
  lemma {:induction false} UpsertArrayTwice(conf: string, name: string, arrayLine: string)
    requires IsArrayLine(arrayLine) && '\n' !in name && '\n' !in arrayLine
    ensures var once := JoinConf(ArrayUpserted(SplitConf(conf), name, arrayLine));
            JoinConf(ArrayUpserted(SplitConf(once), name, arrayLine)) == once
  {
    hide IsArrayLine, ArrayMarker, ArrayLineFields, NotFor, SplitConf, JoinConf;
    var uuid := ArrayLineFields(arrayLine).1;
    LinesOfSplit(conf);
    ArrayUpsertedLines(SplitConf(conf), name, arrayLine);
    SplitOfJoinConf(ArrayUpserted(SplitConf(conf), name, arrayLine));
    NoneLeft(SplitConf(conf), name, uuid);
    DropEntryAtEnd(DropArray(SplitConf(conf), name, uuid), name, uuid, arrayLine);
  }

  lemma {:induction false} LinesOfSplit(conf: string)
    ensures Lines(SplitConf(conf))
  {}

  /** Removing what was added gives back the file exactly when it had nothing for the array
      and ended with a newline. */
  lemma {:induction false} RemoveUndoesUpsertArray(conf: string, name: string, arrayLine: string)
    requires IsArrayLine(arrayLine) && '\n' !in name && '\n' !in arrayLine
    ensures var uuid := ArrayLineFields(arrayLine).1; var once :=
      JoinConf(ArrayUpserted(SplitConf(conf), name, arrayLine));
            JoinConf(DropArray(SplitConf(once), name, uuid)) == conf <==>
              Ended(conf) && forall l :: l in SplitConf(conf) ==> NotFor(name, uuid)(l)
  {
    var uuid, lines := ArrayLineFields(arrayLine).1, SplitConf(conf);
    var kept := DropArray(lines, name, uuid);
    hide IsArrayLine, ArrayMarker, ArrayLineFields, For, SplitConf, JoinConf;
    LinesOfSplit(conf);
    ArrayUpsertedLines(lines, name, arrayLine);
    SplitOfJoinConf(ArrayUpserted(lines, name, arrayLine));
    NoneLeft(lines, name, uuid);
    DropEntryAtEnd(kept, name, uuid, arrayLine);
    JoinOfSplitConf(conf);
    SplitOfJoinConf(kept);
    if forall l :: l in lines ==> NotFor(name, uuid)(l) { NothingDropped(lines, name, uuid); }
  }

  lemma {:induction false} NothingDropped(lines: seq<string>, name: string, uuid: string)
    requires forall l :: l in lines ==> NotFor(name, uuid)(l)
    ensures DropArray(lines, name, uuid) == lines
  {
    hide IsArrayLine, ArrayMarker, For;
    if lines != [] {
      assert NotFor(name, uuid)(lines[0]);
      NothingDropped(lines[1..], name, uuid);
    }
  }
}
