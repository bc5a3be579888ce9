/** HSI's entries in /etc/fstab (apps/root-worker/fstab.go, volumes.go): each is a marker
    comment and the line after it. */
module Fstab {
  import opened Text
  import opened StableSort
  import opened ConfLines

  const MARK := "# HSI-managed mount: "

  function Marker(mountPoint: string): string { MARK + mountPoint }

  predicate IsMarker(line: string) { HasPrefix(line, MARK) }

  /** The mount point a marker is for. */
  function MarkerOf(line: string): string { TrimPrefix(line, MARK) }

  /** fstabFields: nothing for a comment or a line too short. */
  function FstabFields(line: string): (r: (string, string))
    ensures !HasPrefix(TrimSpace(line), "#") && |Fields(line)| >= 2 ==> [r.0, r.1] <= Fields(line)
    ensures HasPrefix(TrimSpace(line), "#") || |Fields(line)| < 2 ==> r.0 == "" && r.1 == ""
  {
    if HasPrefix(TrimSpace(line), "#") then ("", "")
    else
      var f := Fields(line);
      if |f| < 2 then ("", "") else (f[0], f[1])
  }

  function Source(line: string): string { FstabFields(line).0 }

  function MountPoint(line: string): string { FstabFields(line).1 }

  lemma {:induction false} TrimKeepsFirst(s: string)
    requires s != "" && !Space(s[0])
    ensures TrimSpace(s) != "" && TrimSpace(s)[0] == s[0]
  {
    TrimRightKeepsFirst(s);
  }

  lemma {:induction false} TrimRightKeepsFirst(s: string)
    requires s != "" && !Space(s[0])
    ensures TrimRight(s) != "" && TrimRight(s)[0] == s[0]
  {
    if |s| > 1 && Space(s[|s| - 1]) { TrimRightKeepsFirst(s[..|s| - 1]); }
  }

  lemma {:induction false} MarkerFacts(mountPoint: string, line: string)
    ensures IsMarker(Marker(mountPoint)) && MarkerOf(Marker(mountPoint)) == mountPoint
    ensures IsMarker(line) ==> FstabFields(line) == ("", "") && line == Marker(MarkerOf(line))
  {
    if IsMarker(line) {
      assert line[0] == MARK[0] == '#';
      TrimKeepsFirst(line);
    }
  }

  // ── The parts of the file ───────────────────────────────────────────────────

  /** What dropMarkedEntry leaves. */
  function DropMarked(lines: seq<string>, mountPoint: string): seq<string>
    decreases |lines|
  {
    if lines == [] then []
    else if lines[0] == Marker(mountPoint) then
      if |lines| > 1 && MountPoint(lines[1]) == mountPoint then DropMarked(lines[2..], mountPoint)
        else DropMarked(lines[1..], mountPoint)
    else [lines[0]] + DropMarked(lines[1..], mountPoint)
  }

  /** Neither a marker nor an entry of the mount point. */
  function Other(mountPoint: string): string -> bool {
    l => l != Marker(mountPoint) && MountPoint(l) != mountPoint
  }

  function NotAt(mountPoint: string): string -> bool { l => MountPoint(l) != mountPoint }

  function NotFrom(mountPoint: string, sources: seq<string>): string -> bool {
    l => !(MountPoint(l) == mountPoint && Source(l) != "" && Source(l) in sources)
  }

  /** Dropping what is marked and then what is not marked is dropping all there is for the
      mount point, and nothing else. */
  lemma {:induction false} CleanedIsOther(lines: seq<string>, mountPoint: string)
    requires mountPoint != ""
    ensures Filter(DropMarked(lines, mountPoint), NotAt(mountPoint)) == Filter(lines, Other(mountPoint))
    decreases |lines|
  {
    if lines != [] {
      MarkerFacts(mountPoint, lines[0]);
      if lines[0] == Marker(mountPoint) && |lines| > 1 && MountPoint(lines[1]) == mountPoint {
        CleanedIsOther(lines[2..], mountPoint);
        assert lines == [lines[0]] + ([lines[1]] + lines[2..]);
        FilterCons(lines[1], lines[2..], Other(mountPoint));
        FilterCons(lines[0], [lines[1]] + lines[2..], Other(mountPoint));
      } else {
        CleanedIsOther(lines[1..], mountPoint);
        assert lines == [lines[0]] + lines[1..];
        FilterCons(lines[0], lines[1..], Other(mountPoint));
        if lines[0] != Marker(mountPoint) {
          FilterCons(lines[0], DropMarked(lines[1..], mountPoint), NotAt(mountPoint));
        }
      }
    }
  }

  /** With HSI's entry at the end, what is dropped is that entry. */
  lemma {:induction false} DropMarkedEnd(lines: seq<string>, mountPoint: string, entry: string)
    requires MountPoint(entry) == mountPoint && forall l :: l in lines ==> Other(mountPoint)(l)
    ensures DropMarked(lines + [Marker(mountPoint), entry], mountPoint) == lines
  {
    var all := lines + [Marker(mountPoint), entry];
    if lines == [] {
      assert all[2..] == [];
    } else {
      assert lines[0] in lines && Other(mountPoint)(lines[0]);
      assert all[0] == lines[0] && all[1..] == lines[1..] + [Marker(mountPoint), entry];
      DropMarkedEnd(lines[1..], mountPoint, entry);
    }
  }

  method DropMarkedEntry(lines: seq<string>, mountPoint: string) returns (out: seq<string>)
    ensures out == DropMarked(lines, mountPoint)
  {
    hide Marker, MountPoint;
    out := [];
    var i := 0;
    while i < |lines|
      invariant i <= |lines| && out + DropMarked(lines[i..], mountPoint) == DropMarked(lines, mountPoint)
    {
      ghost var rest := lines[i..];
      assert rest[0] == lines[i] && rest[1..] == lines[i + 1..];
      if lines[i] == Marker(mountPoint) {
        if i + 1 < |lines| {
          assert rest[1] == lines[i + 1] && rest[2..] == lines[i + 2..];
          if MountPoint(lines[i + 1]) == mountPoint { i := i + 1; }
        }
        i := i + 1;
        continue;
      }
      assert out + [lines[i]] + DropMarked(lines[i + 1..], mountPoint) == out + DropMarked(rest, mountPoint);
      out := out + [lines[i]];
      i := i + 1;
    }
    assert lines[i..] == [];
  }

  /** An entry for the mount point that HSI did not write, from another source. */
  ghost predicate Foreign(lines: seq<string>, mountPoint: string, source: string) {
    exists l :: l in DropMarked(lines, mountPoint) && MountPoint(l) == mountPoint && Source(l) != source
  }

  /** The lines of a file with HSI's entry put at its end. */
  function Upserted(lines: seq<string>, mountPoint: string, entry: string): seq<string> {
    Filter(lines, Other(mountPoint)) + [Marker(mountPoint), entry]
  }

  /** Drops the entries for the mount point an earlier version wrote; None when one is from
      another source. */
  method DropLegacy(lines: seq<string>, mountPoint: string, source: string) returns (r: Option<seq<string>>)
    ensures r == None <==> exists l :: l in lines && MountPoint(l) == mountPoint && Source(l) != source
    ensures r.Some? ==> r.value == Filter(lines, NotAt(mountPoint))
  {
    hide MountPoint, Source, Filter;
    var out: seq<string> := [];
    FilterNothing(NotAt(mountPoint));
    assert lines[..0] == [];
    for i := 0 to |lines|
      invariant out == Filter(lines[..i], NotAt(mountPoint))
      invariant forall k :: 0 <= k < i && MountPoint(lines[k]) == mountPoint ==> Source(lines[k]) == source
    {
      FilterSnoc(lines, i, NotAt(mountPoint));
      if MountPoint(lines[i]) == mountPoint {
        if Source(lines[i]) != source {
          assert lines[i] in lines;
          return None;
        }
        continue;
      }
      out := out + [lines[i]];
    }
    assert lines[..|lines|] == lines;
    r := Some(out);
  }

  lemma {:induction false} FilterNothing(keep: string -> bool)
    ensures Filter([], keep) == []
  {}

  lemma {:induction false} FilterSnoc(lines: seq<string>, i: nat, keep: string -> bool)
    requires i < |lines|
    ensures Filter(lines[..i + 1], keep) == Filter(lines[..i], keep) + if keep(lines[i]) then [lines[i]] else []
  {
    assert lines[..i + 1] == lines[..i] + [lines[i]];
    FilterConcat(lines[..i], [lines[i]], keep);
    FilterOne(lines[i], keep);
  }

  /** upsertFstabEntry: refused exactly for an entry of another source; else every other
      line is kept, in order, and the entry follows its marker at the end. */
  method UpsertFstabEntry(conf: string, mountPoint: string, source: string, entry: string) returns (r: Option<string>)
    ensures r == None <==> Foreign(SplitConf(conf), mountPoint, source)
    ensures r.Some? ==>
      r.value ==
        JoinConf(Filter(DropMarked(SplitConf(conf), mountPoint), NotAt(mountPoint)) + [Marker(mountPoint), entry])
    ensures r.Some? && mountPoint != "" ==> r.value == JoinConf(Upserted(SplitConf(conf), mountPoint, entry))
  {
    hide MountPoint, Source, Marker, Filter, DropMarked;
    var lines := DropMarkedEntry(SplitConf(conf), mountPoint);
    var out := DropLegacy(lines, mountPoint, source);
    if out == None { return None; }
    if mountPoint != "" { CleanedIsOther(SplitConf(conf), mountPoint); }
    r := Some(JoinConf(out.value + [Marker(mountPoint), entry]));
  }

  lemma {:induction false} FilterOne(l: string, keep: string -> bool)
    ensures Filter([l], keep) == if keep(l) then [l] else []
  {
    FilterCons(l, [], keep);
    assert [l] + [] == [l];
  }

  /** removeFstabLines: HSI's entry goes, and unmarked ones from the sources. */
  method RemoveFstabLines(conf: string, mountPoint: string, sources: seq<string>) returns (r: string)
    ensures r == JoinConf(Filter(DropMarked(SplitConf(conf), mountPoint), NotFrom(mountPoint, sources)))
  {
    hide MountPoint, Source, Marker, Filter, DropMarked;
    var lines := DropMarkedEntry(SplitConf(conf), mountPoint);
    var out: seq<string> := [];
    FilterNothing(NotFrom(mountPoint, sources));
    assert lines[..0] == [];
    for i := 0 to |lines|
      invariant out == Filter(lines[..i], NotFrom(mountPoint, sources))
    {
      FilterSnoc(lines, i, NotFrom(mountPoint, sources));
      if MountPoint(lines[i]) == mountPoint && Source(lines[i]) != "" && Source(lines[i]) in sources { continue; }
      out := out + [lines[i]];
    }
    assert lines[..|lines|] == lines;
    r := JoinConf(out);
  }

  // ── What adding an entry promises ───────────────────────────────────────────

  /** An entry a caller can ask for: one line, for this mount point and source. */
  ghost predicate EntryFor(entry: string, mountPoint: string, source: string) {
    mountPoint != "" && '\n' !in entry && FstabFields(entry) == (source, mountPoint)
  }

  lemma {:induction false} EntryMountPoint(entry: string, mountPoint: string, source: string)
    requires EntryFor(entry, mountPoint, source)
    ensures '\n' !in mountPoint && '\n' !in Marker(mountPoint) && MountPoint(entry) == mountPoint
      && Source(entry) == source && !IsMarker(entry)
  {
    FieldsHoldNoNewline(entry);
    MarkerFacts(mountPoint, entry);
  }

  lemma {:induction false} UpsertedLines(lines: seq<string>, mountPoint: string, source: string, entry: string)
    requires Lines(lines) && EntryFor(entry, mountPoint, source)
    ensures Lines(Upserted(lines, mountPoint, entry))
  {
    EntryMountPoint(entry, mountPoint, source);
    hide Marker, FstabFields, Fields, Filter;
    LinesWithin(lines, Filter(lines, Other(mountPoint)));
    LinesPair(Filter(lines, Other(mountPoint)), Marker(mountPoint), entry);
  }

  /** Asked again, the file stays as it is: the entry is accepted and nothing changes. */
  lemma {:induction false} UpsertTwice(conf: string, mountPoint: string, source: string, entry: string)
    requires EntryFor(entry, mountPoint, source)
    ensures var once := JoinConf(Upserted(SplitConf(conf), mountPoint, entry));
            !Foreign(SplitConf(once), mountPoint, source)
              && JoinConf(Upserted(SplitConf(once), mountPoint, entry)) == once
  {
    var kept := Filter(SplitConf(conf), Other(mountPoint));
    var lines := Upserted(SplitConf(conf), mountPoint, entry);
    UpsertedLines(SplitConf(conf), mountPoint, source, entry);
    SplitOfJoinConf(lines);
    EntryMountPoint(entry, mountPoint, source);
    DropMarkedEnd(kept, mountPoint, entry);
    CleanedIsOther(lines, mountPoint);
    FilterAll(kept, NotAt(mountPoint));
  }

  lemma {:induction false} FilterEnd(kept: seq<string>, a: string, b: string, keep: string -> bool)
    requires forall l :: l in kept ==> keep(l)
    ensures Filter(kept + [a, b], keep) == kept + (if keep(a) then [a] else []) + (if keep(b) then [b] else [])
  {
    FilterConcat(kept, [a, b], keep);
    FilterAll(kept, keep);
    assert [a, b] == [a] + [b];
    FilterConcat([a], [b], keep);
    FilterOne(a, keep);
    FilterOne(b, keep);
  }

  /** The last two lines are the marker and the entry, the only ones for the mount point;
      the others are the lines there were for everything else, in order. */
  lemma {:induction false} UpsertLeavesOne(lines: seq<string>, mountPoint: string, source: string, entry: string)
    requires EntryFor(entry, mountPoint, source)
    ensures var r := Upserted(lines, mountPoint, entry);
            && Filter(r, Other(mountPoint)) == Filter(lines, Other(mountPoint))
            && Filter(r, NotAt(mountPoint)) == Filter(lines, Other(mountPoint)) + [Marker(mountPoint)]
            && |r| == |Filter(lines, Other(mountPoint))| + 2
  {
    EntryMountPoint(entry, mountPoint, source);
    MarkerFacts(mountPoint, Marker(mountPoint));
    hide Marker, FstabFields, Filter;
    var kept := Filter(lines, Other(mountPoint));
    KeptAreOther(lines, mountPoint);
    FilterEnd(kept, Marker(mountPoint), entry, Other(mountPoint));
    FilterEnd(kept, Marker(mountPoint), entry, NotAt(mountPoint));
  }

  lemma {:induction false} KeptAreOther(lines: seq<string>, mountPoint: string)
    ensures forall l :: l in Filter(lines, Other(mountPoint)) ==>
      Other(mountPoint)(l) && NotAt(mountPoint)(l) && l in lines
  {}

  /** Removing the entry again gives back the file exactly when it had nothing for the
      mount point and ended with a newline. */
  lemma {:induction false} RemoveUndoesUpsert(conf: string, mountPoint: string, source: string, entry: string,
      sources: seq<string>)
    requires EntryFor(entry, mountPoint, source)
    ensures var once := JoinConf(Upserted(SplitConf(conf), mountPoint, entry));
            JoinConf(Filter(DropMarked(SplitConf(once), mountPoint), NotFrom(mountPoint, sources))) == conf
            <==> Ended(conf) && forall l :: l in SplitConf(conf) ==> Other(mountPoint)(l)
  {
    var lines := SplitConf(conf);
    var kept := Filter(lines, Other(mountPoint));
    UpsertedLines(lines, mountPoint, source, entry);
    SplitOfJoinConf(Upserted(lines, mountPoint, entry));
    EntryMountPoint(entry, mountPoint, source);
    DropMarkedEnd(kept, mountPoint, entry);
    FilterAll(kept, NotFrom(mountPoint, sources));
    hide Marker, FstabFields;
    JoinOfSplitConf(conf);
    if JoinConf(kept) == conf {
      LinesWithin(lines, kept);
      SplitOfJoinConf(kept);
      assert lines == kept;
    }
    if forall l :: l in lines ==> Other(mountPoint)(l) { FilterAll(lines, Other(mountPoint)); }
  }
}
