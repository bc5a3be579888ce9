/** The options that let the boot go on without a volume (apps/root-worker/volumes.go), and
    how they are put into HSI's marked entries, in place. */
module BootOptions {
  import opened Text
  import opened ConfLines
  import opened Fstab
  import opened Volumes

  const NOFAIL := "nofail"
  const TIMEOUT := "x-systemd.device-timeout"

  predicate Has(parts: seq<string>, name: string) {
    parts != [] && (parts[0] == name || HasPrefix(parts[0], name + "=") || Has(parts[1..], name))
  }

  function WithBootOptions(options: string): string {
    var parts := Split(options, ',');
    var first := if Has(parts, NOFAIL) then options else options + "," + NOFAIL;
    if Has(parts, TIMEOUT) then first else first + "," + (TIMEOUT + "=10s")
  }

  lemma {:induction false} SplitSnoc(s: string, piece: string, c: char)
    requires c !in piece
    ensures Split(s + [c] + piece, c) == Split(s, c) + [piece]
  {
    var all := s + [c] + piece;
    if s == "" {
      assert all[1..] == piece;
      SplitSingle(piece, c);
    } else {
      assert all[1..] == s[1..] + [c] + piece;
      SplitSnoc(s[1..], piece, c);
    }
  }

  lemma {:induction false} HasSnoc(parts: seq<string>, p: string, name: string)
    ensures Has(parts + [p], name) <==> Has(parts, name) || p == name || HasPrefix(p, name + "=")
  {
    var all := parts + [p];
    if parts == [] {
      assert all[1..] == [];
    } else {
      assert all[1..] == parts[1..] + [p];
      HasSnoc(parts[1..], p, name);
    }
  }

  lemma {:induction false} Names()
    ensures ',' !in NOFAIL && ',' !in TIMEOUT + "=10s"
    ensures HasPrefix(TIMEOUT + "=10s", TIMEOUT + "=") && NOFAIL != TIMEOUT
    ensures TIMEOUT + "=10s" != NOFAIL && !HasPrefix(TIMEOUT + "=10s", NOFAIL + "=")
    ensures NOFAIL != TIMEOUT && !HasPrefix(NOFAIL, TIMEOUT + "=")
    ensures forall k :: 0 <= k < |NOFAIL| ==> !Space(NOFAIL[k])
    ensures forall k :: 0 <= k < |TIMEOUT + "=10s"| ==> !Space((TIMEOUT + "=10s")[k])
  {
    assert (TIMEOUT + "=10s")[0] == 'x' && (NOFAIL + "=")[0] == 'n';
  }

  /** One of the options is the name, alone or with a value. */
  ghost predicate Sets(parts: seq<string>, name: string) {
    exists p :: p in parts && (p == name || name + "=" <= p)
  }

  lemma {:induction false} HasIsSets(parts: seq<string>, name: string)
    ensures Has(parts, name) <==> Sets(parts, name)
  {
    if parts != [] {
      HasIsSets(parts[1..], name);
      assert parts == [parts[0]] + parts[1..];
      if Sets(parts[1..], name) {
        var p :| p in parts[1..] && (p == name || name + "=" <= p);
        assert p in parts;
      }
      if parts[0] == name || name + "=" <= parts[0] { assert parts[0] in parts; }
    }
  }

  /** The options after those there were: of the two, the ones that were not set. */
  lemma {:induction false} OptionsAdded(options: string)
    ensures var parts := Split(options, ',');
            Split(WithBootOptions(options), ',') == parts
              + (if Sets(parts, "nofail") then [] else ["nofail"])
              + (if Sets(parts, "x-systemd.device-timeout") then [] else ["x-systemd.device-timeout=10s"])
  {
    Names();
    var parts := Split(options, ',');
    HasIsSets(parts, NOFAIL);
    HasIsSets(parts, TIMEOUT);
    assert TIMEOUT + "=10s" == "x-systemd.device-timeout=10s";
    hide Sets, Has, Split, HasPrefix;
    SplitSnoc(options, NOFAIL, ',');
    SplitSnoc(if Has(parts, NOFAIL) then options else options + "," + NOFAIL, TIMEOUT + "=10s", ',');
  }

  /** Every option there was is kept, in order, and both are there after. */
  lemma {:induction false} BootOptionsThere(options: string)
    ensures Has(Split(WithBootOptions(options), ','), NOFAIL) && Has(Split(WithBootOptions(options), ','), TIMEOUT)
    ensures Split(options, ',') <= Split(WithBootOptions(options), ',')
  {
    Names();
    var parts := Split(options, ',');
    var timeout := TIMEOUT + "=10s";
    hide NOFAIL, TIMEOUT, Split, HasPrefix;
    SplitSnoc(options, NOFAIL, ',');
    HasSnoc(parts, NOFAIL, NOFAIL);
    HasSnoc(parts, NOFAIL, TIMEOUT);
    var first := if Has(parts, NOFAIL) then options else options + "," + NOFAIL;
    SplitSnoc(first, timeout, ',');
    HasSnoc(Split(first, ','), timeout, NOFAIL);
    HasSnoc(Split(first, ','), timeout, TIMEOUT);
  }

  lemma {:induction false} BootOptionsTwice(options: string)
    ensures WithBootOptions(WithBootOptions(options)) == WithBootOptions(options)
  {
    BootOptionsThere(options);
  }

  lemma {:induction false} BootOptionsAreAField(options: string)
    requires Field(options)
    ensures Field(WithBootOptions(options))
  {
    Names();
    var timeout := TIMEOUT + "=10s";
    assert !Space(',');
    hide NOFAIL, TIMEOUT, Has, Space;
  }

  // ── The marked entries ──────────────────────────────────────────────────────

  /** The line after a marker, with the options if it is the marker's entry. */
  function Booted(marker: string, line: string): string {
    var f := Fields(line);
    if IsMarker(marker) && |f| >= 4 && f[1] == MarkerOf(marker) && WithBootOptions(f[3]) != f[3] then
      Join(f[3 := WithBootOptions(f[3])], "\t")
    else line
  }

  function BootAll(lines: seq<string>): (r: seq<string>)
    ensures |r| == |lines| && (lines != [] ==> r[0] == lines[0])
    decreases |lines|
  {
    if |lines| < 2 then lines else [lines[0]] + BootAll([Booted(lines[0], lines[1])] + lines[2..])
  }

  /** What is done up to line i and what is still to do make the whole. */
  ghost predicate Booting(lines: seq<string>, i: nat, all: seq<string>) {
    i <= |lines| && lines[..i] + BootAll(lines[i..]) == all
  }

  lemma {:induction false} BootingStep(lines: seq<string>, i: nat, all: seq<string>)
    requires i + 1 < |lines| && Booting(lines, i, all)
    ensures Booting(lines[i + 1 := Booted(lines[i], lines[i + 1])], i + 1, all)
  {
    hide Booted;
    var x := Booted(lines[i], lines[i + 1]);
    var after, rest := lines[i + 1 := x], lines[i..];
    assert rest[0] == lines[i] && rest[1] == lines[i + 1] && rest[2..] == lines[i + 2..];
    assert after[i + 1..] == [x] + lines[i + 2..] && after[..i + 1] == lines[..i] + [lines[i]];
    assert lines[..i] + ([lines[i]] + BootAll([x] + rest[2..])) == lines[..i] + [lines[i]] + BootAll([x] + rest[2..]);
  }

  lemma {:induction false} BootingEnds(lines: seq<string>, i: nat, all: seq<string>)
    requires i + 1 >= |lines| && Booting(lines, i, all)
    ensures lines == all
  {}

  method EnsureBootOptions(conf: string) returns (r: string)
    ensures r == JoinConf(BootAll(SplitConf(conf)))
  {
    hide IsMarker, MarkerOf, Fields, WithBootOptions, JoinConf, SplitConf, Booting, BootAll;
    ghost var all := BootAll(SplitConf(conf));
    var split := SplitConf(conf);
    var lines := new string[|split|](k requires 0 <= k < |split| => split[k]);
    assert lines[..] == split;
    BootingStarts(split);
    var i := 0;
    while i + 1 < lines.Length
      invariant i <= lines.Length && Booting(lines[..], i, all)
    {
      ghost var before := lines[..];
      BootingStep(before, i, all);
      if IsMarker(lines[i]) {
        var f := Fields(lines[i + 1]);
        if |f| >= 4 && f[1] == MarkerOf(lines[i]) {
          var options := WithBootOptions(f[3]);
          if options != f[3] {
            lines[i + 1] := Join(f[3 := options], "\t");
          }
        }
      }
      assert lines[..] == before[i + 1 := Booted(before[i], before[i + 1])];
      i := i + 1;
    }
    BootingEnds(lines[..], i, all);
    r := JoinConf(lines[..]);
  }

  lemma {:induction false} BootingStarts(lines: seq<string>)
    ensures Booting(lines, 0, BootAll(lines))
  {
    assert lines[0..] == lines;
  }

  lemma {:induction false} BootedFields(marker: string, line: string)
    ensures var f := Fields(line);
            Fields(Booted(marker, line)) ==
              if IsMarker(marker) && |f| >= 4 && f[1] == MarkerOf(marker) then f[3 := WithBootOptions(f[3])] else f
  {
    var f := Fields(line);
    if |f| >= 4 {
      hide WithBootOptions, IsMarker, MarkerOf;
      BootOptionsAreAField(f[3]);
      FieldsOfJoin(f[3 := WithBootOptions(f[3])]);
      if WithBootOptions(f[3]) == f[3] { assert f[3 := f[3]] == f; }
    }
  }

  lemma {:induction false} BootedTwice(marker: string, line: string)
    ensures Booted(marker, Booted(marker, line)) == Booted(marker, line)
  {
    hide IsMarker, MarkerOf, WithBootOptions;
    BootedFields(marker, line);
    var f := Fields(line);
    if |f| >= 4 { BootOptionsTwice(f[3]); }
  }

  /** Doing it again changes nothing, whatever the file. */
  lemma {:induction false} BootAllTwice(lines: seq<string>)
    ensures BootAll(BootAll(lines)) == BootAll(lines)
    decreases |lines|
  {
    if |lines| >= 2 {
      var x := Booted(lines[0], lines[1]);
      var t := BootAll([x] + lines[2..]);
      BootAllTwice([x] + lines[2..]);
      BootedTwice(lines[0], lines[1]);
      hide Booted;
      var once := BootAll(lines);
      assert once == [lines[0]] + t && t[0] == x;
      assert once[2..] == t[1..] && [x] + t[1..] == t;
    }
  }

  // ── The volumes are the same, with the options ──────────────────────────────

  function WithBoot(v: Volume): Volume { v.(options := WithBootOptions(v.options)) }

  function AllWithBoot(vs: seq<Volume>): (r: seq<Volume>)
    ensures |r| == |vs| && forall k :: 0 <= k < |vs| ==> r[k] == WithBoot(vs[k])
  {
    seq(|vs|, k requires 0 <= k < |vs| => WithBoot(vs[k]))
  }

  lemma {:induction false} BootedVolume(marker: string, line: string)
    ensures VolumeAt(marker, Booted(marker, line)) == AllWithBoot(VolumeAt(marker, line))
  {
    hide IsMarker, MarkerOf, WithBootOptions, HasPrefix, TrimPrefix;
    BootedFields(marker, line);
  }

  lemma {:induction false} AllWithBootConcat(a: seq<Volume>, b: seq<Volume>)
    ensures AllWithBoot(a + b) == AllWithBoot(a) + AllWithBoot(b)
  {}

  /** The second field of every marker. */
  const OWN := "HSI-managed"

  /** A marker for the mount point "HSI-managed" takes a marker right after it for its
      entry, since that is the marker's second field, and adds options to it: it is no
      marker any more. */
  predicate Swallows(a: string, b: string) { IsMarker(a) && MarkerOf(a) == OWN && IsMarker(b) && Booted(a, b) != b }

  /** No marker swallowed on the way has a volume of its own. */
  ghost predicate Spared(lines: seq<string>)
    decreases |lines|
  {
    |lines| < 2 ||
    if Swallows(lines[0], lines[1]) then (|lines| > 2 ==> VolumeAt(lines[1], lines[2]) == []) && Spared(lines[2..])
    else Spared(lines[1..])
  }

  lemma {:induction false} MarkIs(mountPoint: string)
    ensures Marker(mountPoint) == "#" + (" " + (OWN + (" mount: " + mountPoint)))
    ensures Field("#") && Field(OWN) && Space(' ')
  {
    assert MARK == "#" + " " + OWN + " mount: ";
  }

  lemma {:induction false} MarkerSecondField(line: string)
    requires IsMarker(line)
    ensures |Fields(line)| >= 2 && Fields(line)[0] == "#" && Fields(line)[1] == OWN
  {
    var mountPoint := MarkerOf(line);
    MarkerFacts(mountPoint, line);
    MarkIs(mountPoint);
    var c := " mount: " + mountPoint;
    var b := OWN + c;
    hide MARK, OWN;
    WordStops("#", " " + b);
    assert ("#" + (" " + b))[1..] == " " + b && (" " + b)[1..] == b;
    WordStops(OWN, c);
    assert Fields(" " + b) == Fields(b) == [OWN] + Fields(b[|OWN|..]);
  }

  /** Fields joined by tabs make no marker. */
  lemma {:induction false} JoinedIsNoMarker(fields: seq<string>)
    requires |fields| >= 2 && forall k :: 0 <= k < |fields| ==> Field(fields[k])
    ensures !IsMarker(Join(fields, "\t"))
  {
    var s := Join(fields, "\t");
    var first := fields[0];
    assert s == first + ("\t" + Join(fields[1..], "\t"));
    assert s[1] == if |first| > 1 then first[1] else '\t';
    assert Space(' ') && MARK[1] == ' ';
  }

  /** A marker is swallowed or stays as it is, and what is none becomes none. */
  lemma {:induction false} BootedMarker(a: string, b: string)
    ensures IsMarker(Booted(a, b)) <==> IsMarker(b) && !Swallows(a, b)
    ensures IsMarker(b) && !Swallows(a, b) ==> Booted(a, b) == b
  {
    hide WithBootOptions, MARK;
    var f := Fields(b);
    if IsMarker(b) { MarkerSecondField(b); }
    if |f| >= 4 && Booted(a, b) != b {
      BootOptionsAreAField(f[3]);
      JoinedIsNoMarker(f[3 := WithBootOptions(f[3])]);
    }
  }

  lemma {:induction false} SameAfter(x: string, y: string, rest: seq<string>)
    requires (IsMarker(x) <==> IsMarker(y)) && (IsMarker(x) ==> x == y)
    ensures VolumesOf([x] + rest) == VolumesOf([y] + rest)
    ensures Spared([y] + rest) <==> Spared([x] + rest)
  {
    hide VolumeAt, Booted;
    assert ([x] + rest)[1..] == rest && ([y] + rest)[1..] == rest;
    if !IsMarker(x) && rest != [] {
      NoMarkerNoVolume(x, rest[0]);
      NoMarkerNoVolume(y, rest[0]);
    }
  }

  lemma {:induction false} NoMarkerNoVolume(a: string, b: string)
    requires !IsMarker(a)
    ensures VolumeAt(a, b) == [] && Booted(a, b) == b && !Swallows(a, b)
  {}

  /** What is no marker makes no difference to the rest. */
  lemma {:induction false} BootPlain(x: string, rest: seq<string>)
    requires !IsMarker(x)
    ensures BootAll([x] + rest) == [x] + BootAll(rest)
    ensures VolumesOf([x] + rest) == VolumesOf(rest)
  {
    hide Booted, VolumeAt;
    var all := [x] + rest;
    assert all[1..] == rest;
    if rest != [] {
      NoMarkerNoVolume(x, rest[0]);
      assert [rest[0]] + all[2..] == rest;
    }
  }

  lemma {:induction false} AllWithBootMany(a: seq<Volume>, b: seq<Volume>, c: seq<Volume>)
    requires |c| <= |b|
    ensures c == AllWithBoot(a + b) <==> a == [] && c == AllWithBoot(b)
  {
    if a == [] { assert a + b == b; }
  }

  lemma {:induction false} SameHead(v: seq<Volume>, a: seq<Volume>, b: seq<Volume>)
    ensures AllWithBoot(v) + a == AllWithBoot(v + b) <==> a == AllWithBoot(b)
  {
    AllWithBootConcat(v, b);
    assert (AllWithBoot(v) + a)[|v|..] == a && (AllWithBoot(v) + AllWithBoot(b))[|v|..] == AllWithBoot(b);
  }

  lemma {:induction false} NoVolumeInComment(a: string, b: string)
    requires Fields(b) != [] && Fields(b)[0] == "#"
    ensures VolumeAt(a, b) == []
  {
    hide Fields, IsMarker, MarkerOf;
  }

  lemma {:induction false} SwallowedVolumes(a: string, b: string, rest: seq<string>)
    requires Swallows(a, b)
    ensures var x := Booted(a, b);
      && VolumesOf([a] + BootAll([x] + rest)) == VolumesOf(BootAll(rest))
      && VolumesOf([a] + ([b] + rest)) == (if rest == [] then [] else VolumeAt(b, rest[0])) + VolumesOf(rest)
  {
    var x := Booted(a, b);
    BootedMarker(a, b);
    MarkerSecondField(b);
    BootedFields(a, b);
    NoVolumeInComment(a, b);
    NoVolumeInComment(a, x);
    hide Booted, VolumeAt, IsMarker, MarkerOf, Swallows, WithBootOptions;
    BootPlain(x, rest);
    BootPlain(x, BootAll(rest));
    var t := [x] + BootAll(rest);
    assert ([a] + t)[1..] == t && ([a] + ([b] + rest))[1..] == [b] + rest && ([b] + rest)[1..] == rest;
  }

  /** The same volumes in the same order, with the same mount point, source and filesystem,
      and the boot options added to theirs, exactly when no swallowed marker had one. */
  lemma {:induction false} BootKeepsVolumesExactly(lines: seq<string>)
    ensures VolumesOf(BootAll(lines)) == AllWithBoot(VolumesOf(lines)) <==> Spared(lines)
    ensures |VolumesOf(BootAll(lines))| <= |VolumesOf(lines)|
    decreases |lines|
  {
    if |lines| >= 2 {
      var a, b, rest := lines[0], lines[1], lines[2..];
      var x := Booted(a, b);
      assert lines[1..] == [b] + rest && ([b] + rest)[1..] == rest;
      assert lines == [a] + ([b] + rest);
      var t := BootAll([x] + rest);
      assert BootAll(lines) == [a] + t && t[0] == x && ([a] + t)[1..] == t && |t| == 1 + |rest|;
      BootedMarker(a, b);
      BootedVolume(a, b);
      if Swallows(a, b) {
        SwallowedVolumes(a, b, rest);
        hide IsMarker, MarkerOf, VolumeAt, Booted, AllWithBoot, Swallows;
        BootKeepsVolumesExactly(rest);
        AllWithBootMany(if rest == [] then [] else VolumeAt(b, rest[0]), VolumesOf(rest), VolumesOf(BootAll(rest)));
      } else {
        hide IsMarker, MarkerOf, VolumeAt, Booted, AllWithBoot, Swallows;
        SameAfter(x, b, rest);
        BootKeepsVolumesExactly([x] + rest);
        SameHead(VolumeAt(a, b), VolumesOf(t), VolumesOf([b] + rest));
      }
    }
  }

  lemma {:induction false} WellMarkedIsSpared(lines: seq<string>)
    requires WellMarked(lines)
    ensures Spared(lines)
    decreases |lines|
  {
    hide Booted;
    if |lines| >= 2 {
      if IsMarker(lines[0]) {
        MarkedIsNoMarker(lines[0], lines[1]);
        WellMarkedIsSpared(lines[2..]);
        assert lines[1..][1..] == lines[2..];
      } else {
        WellMarkedIsSpared(lines[1..]);
      }
    }
  }

  /** Every marker HSI writes is for an absolute path: a file with such markers only, in
      whatever order, keeps its volumes. */
  lemma {:induction false} AbsoluteIsSpared(lines: seq<string>)
    requires forall l :: l in lines && IsMarker(l) ==> HasPrefix(MarkerOf(l), "/")
    ensures Spared(lines)
  {
    if |lines| >= 2 {
      assert lines[0] in lines && OWN[0] == 'H' && "/"[0] == '/';
      AbsoluteIsSpared(lines[1..]);
    }
  }

  lemma {:induction false} ThreeLines(a: string, b: string, c: string)
    ensures VolumesOf([a, b, c]) == VolumeAt(a, b) + VolumeAt(b, c)
    ensures BootAll([a, b, c]) == [a, Booted(a, b), Booted(Booted(a, b), c)]
  {
    hide VolumeAt, Booted;
    var x := Booted(a, b);
    assert [a, b, c][1..] == [b, c] && [b, c][1..] == [c] && [a, b, c][2..] == [c];
    assert [x] + [c] == [x, c] && [x, c][2..] == [];
    assert VolumesOf([b, c]) == VolumeAt(b, c) + [];
    assert BootAll([x, c]) == [x] + BootAll([Booted(x, c)] + []);
    assert [Booted(x, c)] + [] == [Booted(x, c)];
  }

  /** A file it spoils: the volume after the second marker is no longer marked. */
  lemma {:induction false} SwallowedMarkerIsLost(mountPoint: string, entry: string)
    requires |Fields(Marker(mountPoint))| >= 4 && VolumeAt(Marker(mountPoint), entry) != []
    requires WithBootOptions(Fields(Marker(mountPoint))[3]) != Fields(Marker(mountPoint))[3]
    ensures var lines := [Marker(OWN), Marker(mountPoint), entry];
            VolumesOf(lines) != [] && VolumesOf(BootAll(lines)) == []
  {
    var own, m := Marker(OWN), Marker(mountPoint);
    var f := Fields(m);
    MarkerFacts(OWN, m);
    MarkerFacts(mountPoint, m);
    MarkerSecondField(m);
    var x, g := Booted(own, m), f[3 := WithBootOptions(f[3])];
    hide MARK, WithBootOptions, OWN;
    assert x == Join(g, "\t");
    BootOptionsAreAField(f[3]);
    JoinedIsNoMarker(g);
    BootedFields(own, m);
    assert Fields(x) == g;
    NoVolumeInComment(own, m);
    NoVolumeInComment(own, x);
    assert Booted(x, entry) == entry && VolumeAt(x, entry) == [];
    hide VolumeAt, Booted, Fields;
    ThreeLines(own, m, entry);
    ThreeLines(own, x, entry);
  }

  /** Idempotent on the file itself. */
  lemma {:induction false} BootTwice(conf: string)
    ensures var once := JoinConf(BootAll(SplitConf(conf)));
            JoinConf(BootAll(SplitConf(once))) == once
  {
    BootKeepsLines(SplitConf(conf));
    SplitOfJoinConf(BootAll(SplitConf(conf)));
    BootAllTwice(SplitConf(conf));
  }

  lemma {:induction false} BootKeepsLines(lines: seq<string>)
    requires Lines(lines)
    ensures Lines(BootAll(lines))
    decreases |lines|
  {
    if |lines| >= 2 {
      BootedLine(lines[0], lines[1]);
      BootKeepsLines([Booted(lines[0], lines[1])] + lines[2..]);
    }
  }

  lemma {:induction false} BootedLine(marker: string, line: string)
    requires '\n' !in line
    ensures '\n' !in Booted(marker, line)
  {
    var f := Fields(line);
    hide WithBootOptions, IsMarker, MarkerOf;
    assert Space('\n');
    if |f| >= 4 {
      BootOptionsAreAField(f[3]);
      JoinHoldsNoNewline(f[3 := WithBootOptions(f[3])]);
    }
  }

  lemma {:induction false} JoinHoldsNoNewline(fields: seq<string>)
    requires forall k :: 0 <= k < |fields| ==> Field(fields[k])
    ensures '\n' !in Join(fields, "\t")
  {
    assert Space('\n');
    if |fields| > 1 { JoinHoldsNoNewline(fields[1..]); }
  }
}
