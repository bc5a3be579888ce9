/** The data volumes HSI's marked entries name (apps/root-worker/volumes.go), and what the
    edits of /etc/fstab do to them. */
module Volumes {
  import opened Text
  import opened StableSort
  import opened ConfLines
  import opened Fstab

  datatype Volume = Volume(mountPoint: string, source: string, uuid: string, fsType: string, options: string)

  /** The volume a marker and the line after it name, if any. */
  function VolumeAt(marker: string, line: string): seq<Volume> {
    var f := Fields(line);
    if IsMarker(marker) && |f| >= 4 && f[1] == MarkerOf(marker) && HasPrefix(f[0], "UUID=") then
      [Volume(f[1], f[0], TrimPrefix(f[0], "UUID="), f[2], f[3])]
    else []
  }

  function VolumesOf(lines: seq<string>): seq<Volume> {
    if |lines| < 2 then [] else VolumeAt(lines[0], lines[1]) + VolumesOf(lines[1..])
  }

  lemma {:induction false} VolumesStep(lines: seq<string>, i: nat)
    requires i <= |lines|
    ensures i + 1 < |lines| ==> VolumesOf(lines[i..]) == VolumeAt(lines[i], lines[i + 1]) + VolumesOf(lines[i + 1..])
    ensures i + 1 >= |lines| ==> VolumesOf(lines[i..]) == []
  {
    hide VolumeAt;
    if i + 1 < |lines| {
      assert lines[i..][0] == lines[i] && lines[i..][1] == lines[i + 1] && lines[i..][1..] == lines[i + 1..];
    }
  }

  method HsiVolumes(conf: string) returns (out: seq<Volume>)
    ensures out == VolumesOf(SplitConf(conf))
  {
    hide IsMarker, MarkerOf, VolumesOf, HasPrefix, TrimPrefix, Fields;
    var lines := SplitConf(conf);
    out := [];
    assert lines[0..] == lines;
    var i := 0;
    while i + 1 < |lines|
      invariant i <= |lines| && out + VolumesOf(lines[i..]) == VolumesOf(lines)
    {
      VolumesStep(lines, i);
      AssocVolumes(out, VolumeAt(lines[i], lines[i + 1]), VolumesOf(lines[i + 1..]));
      ghost var before := out;
      var f := Fields(lines[i + 1]);
      if IsMarker(lines[i]) {
        var mountPoint := MarkerOf(lines[i]);
        if |f| >= 4 && f[1] == mountPoint && HasPrefix(f[0], "UUID=") {
          out := out + [Volume(mountPoint, f[0], TrimPrefix(f[0], "UUID="), f[2], f[3])];
        }
      }
      assert out == before + VolumeAt(lines[i], lines[i + 1]);
      i := i + 1;
    }
    VolumesStep(lines, i);
    assert out + [] == out;
  }

  lemma {:induction false} AssocVolumes(a: seq<Volume>, b: seq<Volume>, c: seq<Volume>)
    ensures a + b + c == a + (b + c)
  {}

  // ── Files whose markers each precede their own entry ────────────────────────

  ghost predicate WellMarked(lines: seq<string>)
    decreases |lines|
  {
    lines == [] ||
    if IsMarker(lines[0]) then |lines| > 1 && Marked(lines[0], lines[1]) && WellMarked(lines[2..])
    else WellMarked(lines[1..])
  }

  /** The line is the entry the marker is for. */
  ghost predicate Marked(marker: string, line: string) {
    IsMarker(marker) && MarkerOf(marker) != "" && MountPoint(line) == MarkerOf(marker)
  }

  lemma {:induction false} MarkedIsNoMarker(marker: string, line: string)
    requires Marked(marker, line)
    ensures !IsMarker(line)
  {
    MarkerFacts("", line);
  }

  lemma {:induction false} PairVolumes(marker: string, line: string, rest: seq<string>)
    requires Marked(marker, line)
    ensures VolumesOf([marker, line] + rest) == VolumeAt(marker, line) + VolumesOf(rest)
    ensures WellMarked([marker, line] + rest) <==> WellMarked(rest)
  {
    MarkedIsNoMarker(marker, line);
    var all := [marker, line] + rest;
    assert all[1..] == [line] + rest && all[2..] == rest;
    SingleVolumes(line, rest);
  }

  lemma {:induction false} SingleVolumes(line: string, rest: seq<string>)
    requires !IsMarker(line)
    ensures VolumesOf([line] + rest) == VolumesOf(rest)
    ensures WellMarked([line] + rest) <==> WellMarked(rest)
  {
    assert ([line] + rest)[1..] == rest;
  }

  function ElseThan(mountPoint: string): Volume -> bool { (v: Volume) => v.mountPoint != mountPoint }

  lemma {:induction false} VolumeFilter(marker: string, line: string, mountPoint: string)
    requires IsMarker(marker)
    ensures Filter(VolumeAt(marker, line), ElseThan(mountPoint)) == if MarkerOf(marker) == mountPoint then []
      else VolumeAt(marker, line)
  {}

  /** Dropping what is there for a mount point drops its volume and no other. */
  lemma {:induction false} OthersKept(lines: seq<string>, mountPoint: string)
    requires WellMarked(lines) && mountPoint != ""
    ensures WellMarked(Filter(lines, Other(mountPoint)))
    ensures VolumesOf(Filter(lines, Other(mountPoint))) == Filter(VolumesOf(lines), ElseThan(mountPoint))
    decreases |lines|
  {
    if lines != [] {
      if IsMarker(lines[0]) {
        var m, e, rest := lines[0], lines[1], lines[2..];
        assert lines == [m, e] + rest;
        hide IsMarker, MarkerOf, FstabFields, VolumeAt, WellMarked, VolumesOf;
        OthersKept(rest, mountPoint);
        PairVolumes(m, e, rest);
        PairOther(m, e, rest, mountPoint);
        VolumeFilter(m, e, mountPoint);
        FilterConcat(VolumeAt(m, e), VolumesOf(rest), ElseThan(mountPoint));
        if MarkerOf(m) != mountPoint { PairVolumes(m, e, Filter(rest, Other(mountPoint))); }
      } else {
        var l, rest := lines[0], lines[1..];
        assert lines == [l] + rest;
        hide IsMarker, MarkerOf, FstabFields, VolumeAt, WellMarked, VolumesOf;
        OthersKept(rest, mountPoint);
        SingleVolumes(l, rest);
        FilterCons(l, rest, Other(mountPoint));
        SingleVolumes(l, Filter(rest, Other(mountPoint)));
      }
    }
  }

  lemma {:induction false} PairKept(m: string, e: string, mountPoint: string)
    requires Marked(m, e) && mountPoint != ""
    ensures Other(mountPoint)(m) == Other(mountPoint)(e) == (MarkerOf(m) != mountPoint)
  {
    MarkerFacts(mountPoint, m);
    MarkerFacts(mountPoint, e);
    MarkedIsNoMarker(m, e);
    hide Marker, FstabFields, IsMarker, MarkerOf;
  }

  lemma {:induction false} PairOther(m: string, e: string, rest: seq<string>, mountPoint: string)
    requires Marked(m, e) && mountPoint != ""
    ensures Filter([m, e] + rest, Other(mountPoint)) == if MarkerOf(m) == mountPoint
      then Filter(rest, Other(mountPoint)) else [m, e] + Filter(rest, Other(mountPoint))
  {
    var keep := Other(mountPoint);
    PairKept(m, e, mountPoint);
    hide *;
    FilterPair(m, e, rest, keep);
  }

  /** A marked entry added at the end. */
  lemma {:induction false} VolumesSnoc(lines: seq<string>, m: string, e: string)
    requires WellMarked(lines) && Marked(m, e)
    ensures WellMarked(lines + [m, e]) && VolumesOf(lines + [m, e]) == VolumesOf(lines) + VolumeAt(m, e)
    decreases |lines|
  {
    if lines == [] {
      assert lines + [m, e] == [m, e] + [] && VolumesOf([]) == [];
      assert VolumeAt(m, e) + [] == [] + VolumeAt(m, e);
      hide *;
      PairVolumes(m, e, []);
    } else if IsMarker(lines[0]) {
      var a, b, rest := lines[0], lines[1], lines[2..];
      assert lines == [a, b] + rest && lines + [m, e] == [a, b] + (rest + [m, e]);
      hide *;
      VolumesSnoc(rest, m, e);
      PairVolumes(a, b, rest);
      PairVolumes(a, b, rest + [m, e]);
      AssocVolumes(VolumeAt(a, b), VolumesOf(rest), VolumeAt(m, e));
    } else {
      var a, rest := lines[0], lines[1..];
      assert lines == [a] + rest && lines + [m, e] == [a] + (rest + [m, e]);
      hide *;
      VolumesSnoc(rest, m, e);
      SingleVolumes(a, rest);
      SingleVolumes(a, rest + [m, e]);
    }
  }

  /** Adding an entry: the other volumes stay as they were, in order, and the mount point's
      own comes last. */
  lemma {:induction false} UpsertKeepsVolumes(lines: seq<string>, mountPoint: string, source: string, entry: string)
    requires WellMarked(lines) && EntryFor(entry, mountPoint, source)
    ensures WellMarked(Upserted(lines, mountPoint, entry))
    ensures VolumesOf(Upserted(lines, mountPoint, entry)) == Filter(VolumesOf(lines), ElseThan(mountPoint))
      + VolumeAt(Marker(mountPoint), entry)
  {
    MarkerFacts(mountPoint, entry);
    EntryMountPoint(entry, mountPoint, source);
    assert Marked(Marker(mountPoint), entry);
    hide *;
    OthersKept(lines, mountPoint);
    VolumesSnoc(Filter(lines, Other(mountPoint)), Marker(mountPoint), entry);
    UpsertedIs(lines, mountPoint, entry);
  }

  lemma {:induction false} UpsertedIs(lines: seq<string>, mountPoint: string, entry: string)
    ensures Upserted(lines, mountPoint, entry) == Filter(lines, Other(mountPoint)) + [Marker(mountPoint), entry]
  {}

  // ── Removing what is on a device ────────────────────────────────────────────

  function DropSources(lines: seq<string>, sources: seq<string>): seq<string>
    decreases |lines|
  {
    if lines == [] then []
    else if IsMarker(lines[0]) && |lines| > 1 && Source(lines[1]) in sources then DropSources(lines[2..], sources)
    else if Source(lines[0]) != "" && Source(lines[0]) in sources then DropSources(lines[1..], sources)
    else [lines[0]] + DropSources(lines[1..], sources)
  }

  method RemoveFstabSources(conf: string, sources: seq<string>) returns (r: string)
    ensures r == JoinConf(DropSources(SplitConf(conf), sources))
  {
    hide IsMarker, Source;
    var lines := SplitConf(conf);
    var out: seq<string> := [];
    var i := 0;
    while i < |lines|
      invariant i <= |lines| && out + DropSources(lines[i..], sources) == DropSources(lines, sources)
    {
      ghost var rest := lines[i..];
      assert rest[0] == lines[i] && rest[1..] == lines[i + 1..];
      if IsMarker(lines[i]) && i + 1 < |lines| {
        assert rest[1] == lines[i + 1] && rest[2..] == lines[i + 2..];
        if Source(lines[i + 1]) in sources {
          i := i + 2;
          continue;
        }
      }
      if Source(lines[i]) != "" && Source(lines[i]) in sources {
        i := i + 1;
        continue;
      }
      assert out + [lines[i]] + DropSources(lines[i + 1..], sources) == out + DropSources(rest, sources);
      out := out + [lines[i]];
      i := i + 1;
    }
    assert lines[i..] == [] && out + [] == out;
    r := JoinConf(out);
  }

  /** No entry of a source is left, whatever the file and the sources. */
  lemma {:induction false} NoSourceLeft(lines: seq<string>, sources: seq<string>)
    ensures forall l :: l in DropSources(lines, sources) ==> Source(l) == "" || Source(l) !in sources
    decreases |lines|
  {
    hide IsMarker, Source;
    if lines != [] {
      if IsMarker(lines[0]) && |lines| > 1 && Source(lines[1]) in sources {
        NoSourceLeft(lines[2..], sources);
      } else {
        NoSourceLeft(lines[1..], sources);
      }
    }
  }

  function NotOf(sources: seq<string>): Volume -> bool { (v: Volume) => v.source !in sources }

  lemma {:induction false} VolumeSource(marker: string, line: string)
    requires Marked(marker, line)
    ensures VolumeAt(marker, line) != [] ==> VolumeAt(marker, line)[0].source == Source(line)
    ensures |VolumeAt(marker, line)| <= 1 && Source(marker) == ""
  {
    MarkerFacts("", marker);
    if VolumeAt(marker, line) != [] {
      assert FstabFields(line) != ("", "");
    }
  }

  lemma {:induction false} FilterVolume(marker: string, line: string, sources: seq<string>)
    requires Marked(marker, line)
    ensures Filter(VolumeAt(marker, line), NotOf(sources)) == if Source(line) in sources then []
      else VolumeAt(marker, line)
  {
    VolumeSource(marker, line);
  }

  /** Where markers precede their own entries and no source is empty: the volumes of the
      sources are gone, and the others stay as they were, in order. */
  lemma {:induction false} DropSourcesKeepsOthers(lines: seq<string>, sources: seq<string>)
    requires WellMarked(lines) && "" !in sources
    ensures WellMarked(DropSources(lines, sources))
    ensures VolumesOf(DropSources(lines, sources)) == Filter(VolumesOf(lines), NotOf(sources))
    decreases |lines|
  {
    if lines != [] {
      if IsMarker(lines[0]) {
        var m, e, rest := lines[0], lines[1], lines[2..];
        assert lines == [m, e] + rest;
        VolumeSource(m, e);
        MarkedIsNoMarker(m, e);
        assert lines[1..] == [e] + rest && ([e] + rest)[1..] == rest;
        assert DropSources(lines, sources) == if Source(e) in sources then DropSources(rest, sources)
          else [m, e] + DropSources(rest, sources);
        hide *;
        DropSourcesKeepsOthers(rest, sources);
        PairVolumes(m, e, rest);
        FilterVolume(m, e, sources);
        FilterConcat(VolumeAt(m, e), VolumesOf(rest), NotOf(sources));
        if Source(e) !in sources { PairVolumes(m, e, DropSources(rest, sources)); }
      } else {
        var l, rest := lines[0], lines[1..];
        assert lines == [l] + rest;
        assert DropSources(lines, sources) == DropSources(rest, sources)
          || DropSources(lines, sources) == [l] + DropSources(rest, sources);
        hide *;
        DropSourcesKeepsOthers(rest, sources);
        SingleVolumes(l, rest);
        SingleVolumes(l, DropSources(rest, sources));
      }
    }
  }

  // ── What else is dropped ────────────────────────────────────────────────────

  /** The line is an entry of one of the sources. */
  predicate EntryOf(line: string, sources: seq<string>) { Source(line) != "" && Source(line) in sources }

  /** What is neither an entry of a source nor the marker right before one. */
  function OthersOf(lines: seq<string>, sources: seq<string>): seq<string> {
    if lines == [] then []
    else
      var dropped := EntryOf(lines[0], sources) || (IsMarker(lines[0]) && |lines| > 1 && EntryOf(lines[1], sources));
      (if dropped then [] else [lines[0]]) + OthersOf(lines[1..], sources)
  }

  /** Some marker stands before a comment, a blank line or another marker. */
  predicate CommentMarked(lines: seq<string>) {
    |lines| > 1 && ((IsMarker(lines[0]) && Source(lines[1]) == "") || CommentMarked(lines[1..]))
  }

  lemma {:induction false} OthersStep(x: string, y: string, rest: seq<string>, sources: seq<string>)
    requires IsMarker(x)
    ensures var lines := [x, y] + rest;
      && OthersOf(lines, sources)
        == (if EntryOf(y, sources) then OthersOf(rest, sources) else [x] + OthersOf([y] + rest, sources))
      && |OthersOf([y] + rest, sources)| >= |OthersOf(rest, sources)|
      && (CommentMarked(lines) <==> Source(y) == "" || CommentMarked([y] + rest))
      && (EntryOf(y, sources) ==> (CommentMarked([y] + rest) <==> CommentMarked(rest)))
  {
    MarkerFacts("", x);
    MarkerFacts("", y);
    hide IsMarker;
    assert ([x, y] + rest)[1..] == [y] + rest && ([y] + rest)[1..] == rest;
    assert [] + OthersOf(rest, sources) == OthersOf(rest, sources);
  }

  lemma {:induction false} OthersPlain(x: string, rest: seq<string>, sources: seq<string>)
    requires !IsMarker(x)
    ensures OthersOf([x] + rest, sources) == (if EntryOf(x, sources) then [] else [x]) + OthersOf(rest, sources)
    ensures CommentMarked([x] + rest) <==> CommentMarked(rest)
  {
    assert ([x] + rest)[1..] == rest;
  }

  /** Exactly the entries of the sources and their markers go, unless an empty source meets
      a marker without an entry. */
  lemma {:induction false} OtherLinesKeptExactly(lines: seq<string>, sources: seq<string>)
    ensures DropSources(lines, sources) == OthersOf(lines, sources) <==> "" !in sources || !CommentMarked(lines)
    ensures |DropSources(lines, sources)| <= |OthersOf(lines, sources)|
    decreases |lines|
  {
    hide IsMarker, Source;
    if lines != [] && IsMarker(lines[0]) && |lines| > 1 {
      var x, y, rest := lines[0], lines[1], lines[2..];
      assert lines == [x, y] + rest && lines[1..] == [y] + rest;
      MarkerSource(x);
      OthersStep(x, y, rest, sources);
      if Source(y) in sources {
        OtherLinesKeptExactly(rest, sources);
      } else {
        OtherLinesKeptExactly([y] + rest, sources);
        SameCons(x, DropSources([y] + rest, sources), OthersOf([y] + rest, sources));
      }
    } else if lines != [] && IsMarker(lines[0]) {
      MarkerSource(lines[0]);
      assert lines[1..] == [] && lines == [lines[0]];
    } else if lines != [] {
      var x, rest := lines[0], lines[1..];
      assert lines == [x] + rest;
      OthersPlain(x, rest, sources);
      OtherLinesKeptExactly(rest, sources);
      SameCons(x, DropSources(rest, sources), OthersOf(rest, sources));
    }
  }

  lemma {:induction false} MarkerSource(x: string)
    requires IsMarker(x)
    ensures Source(x) == ""
  {
    MarkerFacts("", x);
  }

  lemma {:induction false} SameCons(x: string, a: seq<string>, b: seq<string>)
    ensures [x] + a == [x] + b <==> a == b
  {
    assert ([x] + a)[1..] == a && ([x] + b)[1..] == b;
  }

  /** An empty source takes a comment after a marker for an entry, and drops both. */
  lemma {:induction false} EmptySourceDropsComment(mountPoint: string, comment: string)
    requires FstabFields(comment) == ("", "")
    ensures DropSources([Marker(mountPoint), comment], [""]) == []
    ensures DropSources([Marker(mountPoint), comment], []) == [Marker(mountPoint), comment]
  {
    var m := Marker(mountPoint);
    MarkerFacts(mountPoint, m);
    assert Source(m) == "" && Source(comment) == "" && IsMarker(m);
    hide Marker, FstabFields, IsMarker, Source;
    DropTwo(m, comment, [""]);
    DropTwo(m, comment, []);
  }

  lemma {:induction false} DropTwo(m: string, line: string, sources: seq<string>)
    requires IsMarker(m) && Source(m) == "" && Source(line) == ""
    ensures DropSources([m, line], sources) == if "" in sources then [] else [m, line]
  {
    hide IsMarker, Source;
    var lines := [m, line];
    assert lines[2..] == [] && lines[1..] == [line] && [line][1..] == [];
    assert DropSources([], sources) == [] && DropSources([line], sources) == [line];
  }
}
