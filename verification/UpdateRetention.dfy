/** What an update host keeps: releases and snapshots (apps/root-worker/update_state.go). */
module UpdateRetention {
  import opened Text
  import opened StableSort

  const UPDATE_KEEP: nat := 2

  // ── Versions ────────────────────────────────────────────────────────────────

  const MAX_INT: nat := 0x7fff_ffff_ffff_ffff

  predicate AllDigits(s: string) { s != "" && forall k :: 0 <= k < |s| ==> IsDigit(s[k]) }

  /** strconv.Atoi, its error ignored: 0 for no number, the limits when out of range. */
  function Atoi(s: string): int {
    if AllDigits(s) then Min(Number(s), MAX_INT)
    else if s != "" && s[0] == '+' && AllDigits(s[1..]) then Min(Number(s[1..]), MAX_INT)
    else if s != "" && s[0] == '-' && AllDigits(s[1..]) then -Min(Number(s[1..]), MAX_INT + 1)
    else 0
  }

  function Min(a: int, b: int): int { if a <= b then a else b }

  /** strings.SplitN(s, ".", n). */
  function SplitN(s: string, n: nat): (parts: seq<string>)
    requires n >= 1
    ensures 1 <= |parts| <= n
    decreases n
  {
    if n == 1 || '.' !in s then [s]
    else var (head, rest) := Cut(s, '.'); [head] + SplitN(rest, n - 1)
  }

  /** strings.Cut at the first c. */
  function Cut(s: string, c: char): (string, string) {
    if s == "" then ("", "")
    else if s[0] == c then ("", s[1..])
    else var (head, rest) := Cut(s[1..], c); ([s[0]] + head, rest)
  }

  datatype Version = Version(major: int, minor: int, patch: int, suffix: string)

  function SplitVersion(v: string): Version {
    var (core, suffix) := Cut(TrimPrefix(v, "v"), '-');
    var p := SplitN(core, 3);
    Version(Atoi(p[0]), if |p| > 1 then Atoi(p[1]) else 0, if |p| > 2 then Atoi(p[2]) else 0, suffix)
  }

  predicate StringLess(a: string, b: string) {
    b != "" && (a == "" || a[0] < b[0] || (a[0] == b[0] && StringLess(a[1..], b[1..])))
  }

  function CompareVersions(a: string, b: string): int { CompareParts(SplitVersion(a), SplitVersion(b)) }

  function CompareParts(x: Version, y: Version): int {
    if x.major != y.major then (if x.major < y.major then -1 else 1)
    else if x.minor != y.minor then (if x.minor < y.minor then -1 else 1)
    else if x.patch != y.patch then (if x.patch < y.patch then -1 else 1)
    else if x.suffix == y.suffix then 0
    else if x.suffix == "" then 1
    else if y.suffix == "" then -1
    else if StringLess(x.suffix, y.suffix) then -1
    else 1
  }

  lemma {:induction false} StringLessIsStrict(a: string, b: string)
    ensures !(StringLess(a, b) && StringLess(b, a))
    ensures a == b || StringLess(a, b) || StringLess(b, a)
  {
    if a != "" && b != "" && a[0] == b[0] {
      StringLessIsStrict(a[1..], b[1..]);
      assert a == [a[0]] + a[1..] && b == [b[0]] + b[1..];
    }
  }

  lemma {:induction false} StringLessIsTransitive(a: string, b: string, c: string)
    requires StringLess(a, b) && StringLess(b, c)
    ensures StringLess(a, c)
  {
    if a != "" && a[0] == b[0] == c[0] { StringLessIsTransitive(a[1..], b[1..], c[1..]); }
  }

  /** compareVersions is antisymmetric in sign. */
  lemma {:induction false} CompareIsAntisymmetric(a: string, b: string)
    ensures CompareVersions(a, b) == -CompareVersions(b, a)
  {
    StringLessIsStrict(SplitVersion(a).suffix, SplitVersion(b).suffix);
  }

  /** compareVersions is a total preorder: with the sign law, transitive. */
  lemma {:induction false} CompareIsTransitive(a: string, b: string, c: string)
    requires CompareVersions(a, b) <= 0 && CompareVersions(b, c) <= 0
    ensures CompareVersions(a, c) <= 0
  {
    var x, y, z := SplitVersion(a).suffix, SplitVersion(b).suffix, SplitVersion(c).suffix;
    StringLessIsStrict(x, y);
    StringLessIsStrict(y, z);
    StringLessIsStrict(x, z);
    if StringLess(x, y) && StringLess(y, z) { StringLessIsTransitive(x, y, z); }
  }

  lemma {:induction false} CutAt(head: string, rest: string, c: char)
    requires c !in head
    ensures Cut(head + [c] + rest, c) == (head, rest)
  {
    if head != "" {
      CutAt(head[1..], rest, c);
      assert (head + [c] + rest)[1..] == head[1..] + [c] + rest && [head[0]] + head[1..] == head;
    }
  }

  lemma {:induction false} CutNone(s: string, c: char)
    requires c !in s
    ensures Cut(s, c) == (s, "")
  {
    if s != "" {
      CutNone(s[1..], c);
      assert [s[0]] + s[1..] == s;
    }
  }

  lemma {:induction false} LeadingZero(a: string)
    requires AllDigits(a)
    ensures AllDigits("0" + a) && Number("0" + a) == Number(a)
  {
    var z := "0" + a;
    assert z[..|z| - 1] == "0" + a[..|a| - 1];
    if |a| == 1 {
      assert z[..1] == "0" && a[..0] == "" && "0"[..0] == "";
    } else {
      LeadingZero(a[..|a| - 1]);
    }
  }

  /** Two tags compare equal exactly when they read the same: numbers and suffix. */
  lemma {:induction false} EqualExactly(a: string, b: string)
    ensures CompareVersions(a, b) == 0 <==> SplitVersion(a) == SplitVersion(b)
  {}

  /** The parts of a release tag, as written. */
  datatype Tag = Tag(major: string, minor: string, patch: string, suffix: string)

  function Core(t: Tag): string { t.major + "." + t.minor + "." + t.patch }

  function TagText(t: Tag): string { "v" + Core(t) + if t.suffix == "" then "" else "-" + t.suffix }

  predicate Digits(t: Tag) { AllDigits(t.major) && AllDigits(t.minor) && AllDigits(t.patch) }

  /** Each number is written without a leading zero, and is not out of range. */
  predicate Plain(t: Tag) { Digits(t) && PlainNumber(t.major) && PlainNumber(t.minor) && PlainNumber(t.patch) }

  predicate PlainNumber(s: string)
    requires AllDigits(s)
  {
    (|s| == 1 || s[0] != '0') && Number(s) <= MAX_INT
  }

  lemma {:induction false} SplitTag(t: Tag)
    requires Digits(t)
    ensures SplitVersion(TagText(t)) == Version(Atoi(t.major), Atoi(t.minor), Atoi(t.patch), t.suffix)
  {
    var core := Core(t);
    assert forall k :: 0 <= k < |core| ==> IsDigit(core[k]) || core[k] == '.';
    hide Atoi;
    if t.suffix == "" {
      assert TagText(t)[1..] == core;
      CutNone(core, '-');
    } else {
      assert TagText(t)[1..] == core + "-" + t.suffix;
      CutAt(core, t.suffix, '-');
    }
    SplitCore(t);
  }

  lemma {:induction false} SplitCore(t: Tag)
    requires Digits(t)
    ensures SplitN(Core(t), 3) == [t.major, t.minor, t.patch]
  {
    assert Core(t) == t.major + "." + (t.minor + "." + t.patch);
    CutAt(t.major, t.minor + "." + t.patch, '.');
    CutAt(t.minor, t.patch, '.');
  }

  /** It is no order: a release folder named with a leading zero compares equal. */
  lemma {:induction false} EqualVersionsDiffer(t: Tag)
    requires Digits(t)
    ensures var zero := t.(major := "0" + t.major);
      TagText(zero) != TagText(t) && CompareVersions(TagText(zero), TagText(t)) == 0
  {
    var zero := t.(major := "0" + t.major);
    LeadingZero(t.major);
    SplitTag(t);
    SplitTag(zero);
    assert |TagText(zero)| == |TagText(t)| + 1;
  }

  lemma {:induction false} Positive(s: string)
    requires AllDigits(s) && s[0] != '0'
    ensures Number(s) >= 1
  {
    if |s| > 1 {
      assert s[..|s| - 1][0] == s[0];
      Positive(s[..|s| - 1]);
    } else {
      assert s[..0] == "";
    }
  }

  /** Without leading zeros a number is written in one way. */
  lemma {:induction false} SameNumber(s: string, t: string)
    requires AllDigits(s) && AllDigits(t) && (|s| == 1 || s[0] != '0') && (|t| == 1 || t[0] != '0')
    requires Number(s) == Number(t)
    ensures s == t
    decreases |s|
  {
    var x, y := s[..|s| - 1], t[..|t| - 1];
    assert s == x + [s[|s| - 1]] && t == y + [t[|t| - 1]];
    assert Number(x) == Number(y) && s[|s| - 1] == t[|t| - 1];
    if x != "" { assert x[0] == s[0]; Positive(x); }
    if y != "" { assert y[0] == t[0]; Positive(y); }
    if x != "" && y != "" { SameNumber(x, y); }
  }

  /** Plain tags are ordered: two of them compare equal only when they are the same. */
  lemma {:induction false} PlainVersionsAreOrdered(p: Tag, q: Tag)
    requires Plain(p) && Plain(q)
    ensures CompareVersions(TagText(p), TagText(q)) == 0 <==> p == q
  {
    SplitTag(p);
    SplitTag(q);
    EqualExactly(TagText(p), TagText(q));
    hide TagText, SplitVersion, CompareVersions;
    if SplitVersion(TagText(p)) == SplitVersion(TagText(q)) {
      SameNumber(p.major, q.major);
      SameNumber(p.minor, q.minor);
      SameNumber(p.patch, q.patch);
    }
  }

  /** a comes before b in the dictionary: at the first difference, or as a part of it. */
  ghost predicate Earlier(a: string, b: string) {
    exists k :: 0 <= k <= |a| && k <= |b| && a[..k] == b[..k] && k < |b| && (k == |a| || a[k] < b[k])
  }

  lemma {:induction false} StringLessIsEarlier(a: string, b: string)
    ensures StringLess(a, b) <==> Earlier(a, b)
  {
    if a == "" {
      if b != "" { assert a[..0] == b[..0]; }
    } else if b != "" {
      if a[0] == b[0] {
        StringLessIsEarlier(a[1..], b[1..]);
        EarlierStep(a, b);
      } else if a[0] < b[0] {
        assert a[..0] == b[..0];
      } else {
        NotEarlier(a, b);
      }
    }
  }

  lemma {:induction false} NotEarlier(a: string, b: string)
    requires a != "" && b != "" && b[0] < a[0]
    ensures !Earlier(a, b)
  {
    forall k | 0 < k <= |a| && k <= |b| ensures a[..k] != b[..k] { assert a[..k][0] != b[..k][0]; }
  }

  lemma {:induction false} EarlierStep(a: string, b: string)
    requires a != "" && b != "" && a[0] == b[0]
    ensures Earlier(a, b) <==> Earlier(a[1..], b[1..])
  {
    if Earlier(a, b) {
      var k :| 0 <= k <= |a| && k <= |b| && a[..k] == b[..k] && k < |b| && (k == |a| || a[k] < b[k]);
      if k > 0 { assert a[1..][..k - 1] == a[..k][1..] && b[1..][..k - 1] == b[..k][1..]; }
    }
    if Earlier(a[1..], b[1..]) {
      var k :| 0 <= k <= |a[1..]| && k <= |b[1..]| && a[1..][..k] == b[1..][..k] && k < |b[1..]|
        && (k == |a[1..]| || a[1..][k] < b[1..][k]);
      assert a[..k + 1] == [a[0]] + a[1..][..k] && b[..k + 1] == [b[0]] + b[1..][..k];
    }
  }

  /** Numbers, and not out of range; leading zeros are allowed. */
  predicate InRange(t: Tag) {
    Digits(t) && Number(t.major) <= MAX_INT && Number(t.minor) <= MAX_INT && Number(t.patch) <= MAX_INT
  }

  /** An older version: a smaller number at the first difference, or with the same numbers a
      suffix where the other has none, or an earlier one. */
  ghost predicate OlderParts(x: Version, y: Version) {
    if x.major != y.major then x.major < y.major
    else if x.minor != y.minor then x.minor < y.minor
    else if x.patch != y.patch then x.patch < y.patch
    else x.suffix != "" && (y.suffix == "" || Earlier(x.suffix, y.suffix))
  }

  ghost predicate Older(p: Tag, q: Tag)
    requires InRange(p) && InRange(q)
  {
    OlderParts(Version(Number(p.major), Number(p.minor), Number(p.patch), p.suffix),
      Version(Number(q.major), Number(q.minor), Number(q.patch), q.suffix))
  }

  /** Which of two tags is the older one. */
  lemma {:induction false} ComparesByAge(p: Tag, q: Tag)
    requires InRange(p) && InRange(q)
    ensures CompareVersions(TagText(p), TagText(q)) < 0 <==> Older(p, q)
    ensures CompareVersions(TagText(p), TagText(q)) > 0 <==> Older(q, p)
  {
    SplitTag(p);
    SplitTag(q);
    NumbersOf(p);
    NumbersOf(q);
    PartsByAge(SplitVersion(TagText(p)), SplitVersion(TagText(q)));
    hide TagText, SplitVersion, CompareParts, Earlier, Number, Atoi, AllDigits;
  }

  lemma {:induction false} PartsByAge(x: Version, y: Version)
    ensures CompareParts(x, y) < 0 <==> OlderParts(x, y)
    ensures CompareParts(x, y) > 0 <==> OlderParts(y, x)
  {
    StringLessIsStrict(x.suffix, y.suffix);
    StringLessIsEarlier(x.suffix, y.suffix);
    StringLessIsEarlier(y.suffix, x.suffix);
    hide StringLess, Earlier;
  }

  lemma {:induction false} NumbersOf(t: Tag)
    requires InRange(t)
    ensures Atoi(t.major) == Number(t.major) && Atoi(t.minor) == Number(t.minor) && Atoi(t.patch) == Number(t.patch)
  {}

  predicate Newer(a: string, b: string) { CompareVersions(a, b) > 0 }

  lemma {:induction false} NewerOrders()
    ensures Orders(Newer)
  {
    forall a, b | Newer(a, b) ensures !Newer(b, a) { CompareIsAntisymmetric(a, b); }
    forall a, b, c | Newer(a, c) ensures Newer(a, b) || Newer(b, c) {
      if !Newer(a, b) && !Newer(b, c) { CompareIsTransitive(a, b, c); }
    }
  }

  predicate IsSuffixChar(c: char) { IsDigit(c) || 'a' <= c <= 'z' || 'A' <= c <= 'Z' || c == '.' }

  /** ^v\d+\.\d+\.\d+(-[0-9A-Za-z.]+)?$ */
  predicate IsVersion(v: string) {
    && v != "" && v[0] == 'v'
    && var (core, suffix) := Cut(v[1..], '-');
       && var p := Split(core, '.');
          && |p| == 3 && AllDigits(p[0]) && AllDigits(p[1]) && AllDigits(p[2])
          && ('-' in v ==> suffix != "" && forall k :: 0 <= k < |suffix| ==> IsSuffixChar(suffix[k]))
  }

  /** The release folders are the tags, with letters, digits and dots in their suffix. */
  lemma {:induction false} VersionsAreTags(v: string)
    ensures IsVersion(v) <==> exists t :: Digits(t) && v == TagText(t) && SuffixFits(t)
  {
    if IsVersion(v) {
      TagOfVersion(v);
    }
    forall t | Digits(t) && v == TagText(t) && SuffixFits(t) ensures IsVersion(v) { TagIsVersion(t); }
  }

  predicate SuffixFits(t: Tag) {
    forall k :: 0 <= k < |t.suffix| ==>
      var c := t.suffix[k]; '0' <= c <= '9' || 'a' <= c <= 'z' || 'A' <= c <= 'Z' || c == '.'
  }

  lemma {:induction false} CutJoins(s: string, c: char)
    ensures var (head, rest) := Cut(s, c);
      c !in head && s == if c in s then head + [c] + rest else head
    ensures c !in s ==> Cut(s, c).1 == ""
  {
    if s != "" && s[0] != c { CutJoins(s[1..], c); }
  }

  lemma {:induction false} TagOfVersion(v: string)
    requires IsVersion(v)
    ensures exists t :: Digits(t) && v == TagText(t) && SuffixFits(t)
  {
    var (core, suffix) := Cut(v[1..], '-');
    var p := Split(core, '.');
    var t := Tag(p[0], p[1], p[2], suffix);
    CutJoins(v[1..], '-');
    JoinOfSplit(core, '.');
    JoinOfThree(p[0], p[1], p[2]);
    assert p == [p[0], p[1], p[2]] && v == "v" + v[1..];
    assert v == TagText(t);
  }

  lemma {:induction false} JoinOfThree(a: string, b: string, c: string)
    ensures Join([a, b, c], ".") == a + "." + b + "." + c
  {
    assert [a, b, c][1..] == [b, c] && [b, c][1..] == [c] && Join([b, c], ".") == b + "." + Join([c], ".");
    assert a + "." + (b + "." + c) == a + "." + b + "." + c;
  }

  lemma {:induction false} TagIsVersion(t: Tag)
    requires Digits(t) && SuffixFits(t)
    ensures IsVersion(TagText(t))
  {
    var core, v := Core(t), TagText(t);
    assert forall k :: 0 <= k < |core| ==> IsDigit(core[k]) || core[k] == '.';
    JoinOfThree(t.major, t.minor, t.patch);
    SplitOfJoin([t.major, t.minor, t.patch], '.');
    if t.suffix == "" {
      assert v[1..] == core;
      CutNone(core, '-');
    } else {
      assert v[1..] == core + "-" + t.suffix;
      CutAt(core, t.suffix, '-');
    }
  }

  predicate IsSnapshotName(name: string) {
    exists k :: 0 <= k < |name| && name[k] == '-' && IsVersion(name[..k]) && IsVersion(name[k + 1..])
  }

  /** A snapshot is named by two versions. */
  lemma {:induction false} SnapshotNames(name: string)
    ensures IsSnapshotName(name) <==> exists v, w :: IsVersion(v) && IsVersion(w) && name == v + "-" + w
  {
    hide IsVersion;
    if k :| 0 <= k < |name| && name[k] == '-' && IsVersion(name[..k]) && IsVersion(name[k + 1..]) {
      assert name == name[..k] + "-" + name[k + 1..];
    }
    if v, w :| IsVersion(v) && IsVersion(w) && name == v + "-" + w {
      assert name[..|v|] == v && name[|v|] == '-' && name[|v| + 1..] == w;
    }
  }

  // ── Releases ────────────────────────────────────────────────────────────────

  datatype Manifest = Manifest(from: string, to: string, created: int)

  /** A folder of the update state; no manifest when it is missing or unreadable. */
  datatype StateDir = StateDir(name: string, manifest: Option<Manifest>)

  predicate Readable(d: StateDir) {
    && IsSnapshotName(d.name) && d.manifest.Some?
    && d.name == d.manifest.value.from + "-" + d.manifest.value.to
  }

  predicate Later(a: StateDir, b: StateDir) {
    a.manifest.Some? && (b.manifest == None || a.manifest.value.created > b.manifest.value.created)
  }

  lemma {:induction false} LaterOrders()
    ensures Orders(Later)
  {}

  /** A snapshot that can be used: its manifest was read and names it. */
  ghost predicate Usable(d: StateDir, from: string, to: string) {
    d.manifest.Some? && d.manifest.value.from == from && d.manifest.value.to == to && d.name == from + "-" + to
  }

  lemma {:induction false} ReadableExactly(d: StateDir)
    ensures Readable(d) <==> IsSnapshotName(d.name) && exists from, to :: Usable(d, from, to)
  {
    hide IsSnapshotName;
    if Readable(d) { assert Usable(d, d.manifest.value.from, d.manifest.value.to); }
  }

  /** listSnapshots: the readable ones, newest first. */
  function ListSnapshots(dirs: seq<StateDir>): seq<StateDir> {
    Sort(Filter(dirs, Readable), Later)
  }

  predicate GoesBackFrom(d: StateDir, version: string) {
    d.manifest.Some? && d.manifest.value.to == version && d.manifest.value.from != version
  }

  function First(list: seq<StateDir>, version: string): (r: Option<StateDir>)
    ensures r.Some? ==> r.value in list && GoesBackFrom(r.value, version)
    ensures r == None ==> forall d :: d in list ==> !GoesBackFrom(d, version)
  {
    if list == [] then None
    else if GoesBackFrom(list[0], version) then Some(list[0])
    else First(list[1..], version)
  }

  /** latestSnapshotFor: what `update rollback` would use. */
  function LatestSnapshotFor(dirs: seq<StateDir>, version: string): Option<StateDir> {
    First(ListSnapshots(dirs), version)
  }

  /** A snapshot of an update to the version, from another one. */
  ghost predicate Updated(m: Manifest, version: string) { m.to == version && m.from != version }

  /** It is the newest of the readable snapshots of the version, and there is one when any. */
  lemma {:induction false} TargetIsNewest(dirs: seq<StateDir>, version: string)
    ensures var t := LatestSnapshotFor(dirs, version);
      && (t.Some? ==> t.value in dirs && Readable(t.value) && Updated(t.value.manifest.value, version))
      && forall d :: d in dirs && Readable(d) && Updated(d.manifest.value, version) ==>
           t.Some? && t.value.manifest.value.created >= d.manifest.value.created
  {
    LaterOrders();
    SortSorts(Filter(dirs, Readable), Later);
    SortMembers(Filter(dirs, Readable), Later);
    FirstOfSorted(ListSnapshots(dirs), version);
  }

  lemma {:induction false} FirstOfSorted(list: seq<StateDir>, version: string)
    requires Sorted(list, Later)
    ensures var t := First(list, version); t.Some? ==>
      forall d :: d in list && GoesBackFrom(d, version) ==> !Later(d, t.value)
  {
    if list != [] {
      SortedHead(list, Later);
      if !GoesBackFrom(list[0], version) { FirstOfSorted(list[1..], version); }
    }
  }

  /** installedReleases: all but current, newest version first. */
  function InstalledReleases(releases: seq<string>, current: string): seq<string> {
    Sort(Filter(releases, v => v != current && IsVersion(v)), Newer)
  }

  function Pinned(dirs: seq<StateDir>, current: string): set<string> {
    match LatestSnapshotFor(dirs, current)
    case None => {current}
    case Some(t) => {current, t.manifest.value.from}
  }

  /** The releases a prune removes: ranked too low, and not pinned. */
  function Outranked(ranked: seq<string>, pinned: set<string>, keep: nat): seq<string> {
    if |ranked| <= keep then [] else Filter(ranked[keep..], v => v !in pinned)
  }

  function KeptReleases(releases: seq<string>, dirs: seq<StateDir>, current: string, keep: nat): seq<string> {
    var drop := Outranked(InstalledReleases(releases, current), Pinned(dirs, current), keep);
    Filter(releases, v => v !in drop)
  }

  /** What pruning removes is no newer than what it keeps for its rank. */
  lemma {:induction false} RemovedIsOlder(releases: seq<string>, dirs: seq<StateDir>, current: string, keep: nat,
      p: Tag, q: Tag)
    requires InRange(p) && InRange(q) && SuffixFits(q)
    requires var kept := KeptReleases(releases, dirs, current, keep);
      && TagText(p) in releases && TagText(p) !in kept
      && TagText(q) in kept && TagText(q) !in Pinned(dirs, current)
    ensures !Older(q, p)
  {
    var ranked, pinned := InstalledReleases(releases, current), Pinned(dirs, current);
    var drop := Outranked(ranked, pinned, keep);
    var a, b := TagText(p), TagText(q);
    VersionsAreTags(b);
    NewerOrders();
    SortSorts(Filter(releases, v => v != current && IsVersion(v)), Newer);
    SortMembers(Filter(releases, v => v != current && IsVersion(v)), Newer);
    assert b != current && b in ranked && b !in drop && a in drop;
    assert a in ranked[keep..] && b !in ranked[keep..];
    SortedParts(ranked, Newer, keep, b, a);
    ComparesByAge(p, q);
    hide Newer, Older, CompareVersions, TagText;
  }

  // ── Snapshots ───────────────────────────────────────────────────────────────

  predicate Installed(d: StateDir, releases: seq<string>, current: string) {
    d.manifest.Some? && (d.manifest.value.from == current || d.manifest.value.from in releases)
  }

  /** The listed snapshots a prune keeps, with `kept` counted so far. */
  function Retained(list: seq<StateDir>, target: Option<StateDir>, releases: seq<string>, current: string, kept: nat,
      keep: nat): seq<StateDir> {
    if list == [] then []
    else if target == Some(list[0]) then [list[0]] + Retained(list[1..], target, releases, current, kept, keep)
    else if Installed(list[0], releases, current) && kept < keep then
      [list[0]] + Retained(list[1..], target, releases, current, kept + 1, keep)
    else Retained(list[1..], target, releases, current, kept, keep)
  }

  function KeptSnapshots(dirs: seq<StateDir>, releases: seq<string>, current: string, keep: nat): seq<StateDir> {
    var target := LatestSnapshotFor(dirs, current);
    var retained := Retained(ListSnapshots(dirs), target, releases, current, if target.Some? then 1 else 0, keep);
    Filter(dirs, d => d in retained || (!Readable(d) && !IsSnapshotName(d.name)))
  }

  /** The two folders on disk, in the order they are read, and the current release. */
  class UpdateState {
    const current: string
    var releases: seq<string>
    var dirs: seq<StateDir>

    constructor (current: string, releases: seq<string>, dirs: seq<StateDir>)
      ensures this.current == current && this.releases == releases && this.dirs == dirs
    {
      this.current, this.releases, this.dirs := current, releases, dirs;
    }

    /** removeRelease; a failure is only logged. */
    method RemoveRelease(v: string) returns (ok: bool)
      modifies this`releases
      ensures releases == if ok then Filter(old(releases), x => x != v) else old(releases)
    {
      ok := *;
      if ok { releases := Filter(releases, x => x != v); }
    }

    method RemoveStateDir(d: StateDir) returns (ok: bool)
      modifies this`dirs
      ensures dirs == if ok then Filter(old(dirs), x => x != d) else old(dirs)
    {
      ok := *;
      if ok { dirs := Filter(dirs, x => x != d); }
    }

    /** pruneReleases: when every removal succeeds exactly the outranked ones go. */
    method PruneReleases(keep: nat) returns (ghost ok: bool)
      modifies this`releases
      ensures ok ==> releases == KeptReleases(old(releases), dirs, current, keep)
      ensures forall v :: v in KeptReleases(old(releases), dirs, current, keep) ==> v in releases
      ensures forall v :: v in releases ==> v in old(releases)
      ensures ok ==> forall p, q :: GoneFor(old(releases), p, q) ==> !Older(q, p)
    {
      hide KeptReleases, Outranked, InstalledReleases, Pinned, DroppedTo, Older, TagText, InRange, SuffixFits;
      ok := true;
      ghost var was := releases;
      var pinned := Pinned(dirs, current);
      var ranked := InstalledReleases(releases, current);
      DropStart(was, ranked, pinned, keep);
      for i := 0 to |ranked|
        invariant DroppedTo(was, releases, ranked, pinned, keep, i, ok)
      {
        DropNext(was, releases, ranked, pinned, keep, i, ok);
        var v := ranked[i];
        if i < keep || v in pinned {
          continue;
        }
        var removed := RemoveRelease(v);
        if !removed { ok := false; }
      }
      DropEnd(was, releases, dirs, current, keep, ok);
      if ok {
        forall p, q | GoneFor(was, p, q) ensures !Older(q, p) { RemovedIsOlder(was, dirs, current, keep, p, q); }
      }
    }

    /** The release of tag p is gone, and that of q is there, without being pinned. */
    ghost predicate GoneFor(was: seq<string>, p: Tag, q: Tag)
      reads this
    {
      && InRange(p) && InRange(q) && SuffixFits(q)
      && TagText(p) in was && TagText(p) !in releases
      && TagText(q) in releases && TagText(q) !in Pinned(dirs, current)
    }

    /** pruneUpdateState: the releases first, then the snapshots that went with them. */
    method PruneUpdateState() returns (ghost ok: bool)
      requires Distinct(dirs)
      modifies this
      ensures ok ==> releases == KeptReleases(old(releases), old(dirs), current, UPDATE_KEEP)
      ensures ok ==> dirs == KeptSnapshots(old(dirs), releases, current, UPDATE_KEEP)
      ensures forall v :: v in KeptReleases(old(releases), old(dirs), current, UPDATE_KEEP) ==> v in releases
      ensures forall d :: d in KeptSnapshots(old(dirs), releases, current, UPDATE_KEEP) ==> d in dirs
    {
      hide KeptReleases, KeptSnapshots;
      ok := PruneReleases(UPDATE_KEEP);
      ghost var swept := PruneSnapshots(UPDATE_KEEP);
      ok := ok && swept;
    }

    /** The first loop of pruneSnapshots: the listed snapshots that are not kept. */
    method PruneListed(keep: nat) returns (list: seq<StateDir>, ghost drop: set<StateDir>, ghost ok: bool)
      requires Distinct(dirs)
      modifies this`dirs
      ensures list == ListSnapshots(old(dirs)) && LeftAfter(old(dirs), dirs, drop, ok)
      ensures var target := LatestSnapshotFor(old(dirs), current);
              Swept(list, |list|, Retained(list, target, releases, current, if target.Some? then 1 else 0, keep), drop)
    {
      hide Retained, ListSnapshots, LatestSnapshotFor, LeftAfter, Swept;
      ok := true;
      ghost var was := dirs;
      drop := {};
      var target := LatestSnapshotFor(dirs, current);
      list := ListSnapshots(dirs);
      var kept := if target.Some? then 1 else 0;
      ghost var all := Retained(list, target, releases, current, kept, keep);
      ghost var retained: seq<StateDir> := [];
      LeftStart(was);
      ListedFacts(was);
      SweptStart(list);
      assert list[0..] == list;
      for i := 0 to |list|
        invariant LeftAfter(was, dirs, drop, ok) && Swept(list, i, retained, drop)
        invariant retained + Retained(list[i..], target, releases, current, kept, keep) == all
      {
        var d := list[i];
        RetainedNext(list, i, target, releases, current, kept, keep);
        SweptNext(list, i, retained, drop);
        if target == Some(d) {
          Regroup(retained, [d], Retained(list[i + 1..], target, releases, current, kept, keep));
          retained := retained + [d];
          continue;
        }
        if Installed(d, releases, current) && kept < keep {
          Regroup(retained, [d], Retained(list[i + 1..], target, releases, current, kept + 1, keep));
          retained := retained + [d];
          kept := kept + 1;
          continue;
        }
        LeftNext(was, dirs, drop, d, ok);
        var removed := RemoveStateDir(d);
        if !removed { ok := false; }
        drop := drop + {d};
      }
      RetainedEnd(list, target, releases, current, kept, keep);
      assert retained + [] == retained;
    }

    /** pruneSnapshots: when every removal succeeds, what is left of the listed
        snapshots is what Retained says, and no unreadable one is left. */
    method PruneSnapshots(keep: nat) returns (ghost ok: bool)
      requires Distinct(dirs)
      modifies this`dirs
      ensures ok ==> dirs == KeptSnapshots(old(dirs), releases, current, keep)
      ensures forall d :: d in KeptSnapshots(old(dirs), releases, current, keep) ==> d in dirs
      ensures forall d :: d in dirs ==> d in old(dirs)
    {
      hide KeptSnapshots, Retained, LatestSnapshotFor, LeftAfter;
      ghost var was, drop := dirs, {};
      var list;
      list, drop, ok := PruneListed(keep);
      ListedFacts(was);
      assert list[..|list|] == list;
      LeftMembers(was, dirs, drop, ok);
      ghost var rest;
      rest, ok := PruneUnreadable(list, was, drop, ok);
      SnapshotsEnd(was, dirs, drop + rest, releases, current, keep, ok);
    }

    /** The second loop of pruneSnapshots: snapshot folders that were not listed. */
    method PruneUnreadable(list: seq<StateDir>, ghost was: seq<StateDir>, ghost drop: set<StateDir>,
        ghost okBefore: bool)
      returns (ghost more: set<StateDir>, ghost ok: bool)
      requires LeftAfter(was, dirs, drop, okBefore)
      modifies this`dirs
      ensures LeftAfter(was, dirs, drop + more, ok)
      ensures more == set d | d in old(dirs) && IsSnapshotName(d.name) && d !in list
    {
      hide LeftAfter;
      more, ok := {}, okBefore;
      var entries := dirs;
      assert drop + more == drop;
      for i := 0 to |entries|
        invariant LeftAfter(was, dirs, drop + more, ok)
        invariant more == set d | d in entries[..i] && IsSnapshotName(d.name) && d !in list
      {
        var d := entries[i];
        LeftNext(was, dirs, drop + more, d, ok);
        assert entries[..i + 1] == entries[..i] + [d];
        if IsSnapshotName(d.name) && d !in list {
          var removed := RemoveStateDir(d);
          if !removed { ok := false; }
          assert drop + more + {d} == drop + (more + {d});
          more := more + {d};
        }
      }
      assert entries[..|entries|] == entries;
    }
  }

  /** Ranks below i are dealt with; all goes as planned while ok. */
  ghost predicate DroppedTo(was: seq<string>, now: seq<string>, ranked: seq<string>, pinned: set<string>, keep: nat,
      i: nat, ok: bool) {
    && i <= |ranked|
    && var drop := Outranked(ranked[..i], pinned, keep);
       && (ok ==> now == Filter(was, v => v !in drop))
       && (forall v :: v in was && v !in drop ==> v in now)
       && (forall v :: v in now ==> v in was)
  }

  lemma {:induction false} DropStart(was: seq<string>, ranked: seq<string>, pinned: set<string>, keep: nat)
    ensures DroppedTo(was, was, ranked, pinned, keep, 0, true)
  {
    var drop := Outranked(ranked[..0], pinned, keep);
    FilterAll(was, v => v !in drop);
  }

  lemma {:induction false} DropNext(was: seq<string>, now: seq<string>, ranked: seq<string>, pinned: set<string>,
      keep: nat, i: nat, ok: bool)
    requires DroppedTo(was, now, ranked, pinned, keep, i, ok) && i < |ranked|
    ensures i < keep || ranked[i] in pinned ==> DroppedTo(was, now, ranked, pinned, keep, i + 1, ok)
    ensures !(i < keep || ranked[i] in pinned) ==>
              && DroppedTo(was, Filter(now, x => x != ranked[i]), ranked, pinned, keep, i + 1, ok)
              && DroppedTo(was, now, ranked, pinned, keep, i + 1, false)
  {
    OutrankedNext(ranked, pinned, keep, i);
    var v, done := ranked[i], Outranked(ranked[..i], pinned, keep);
    var next := Outranked(ranked[..i + 1], pinned, keep);
    if !(i < keep || v in pinned) {
      FilterTwice(was, x => x !in done, x => x != v, x => x !in next);
    }
  }

  lemma {:induction false} DropEnd(was: seq<string>, now: seq<string>, dirs: seq<StateDir>, current: string, keep: nat,
      ok: bool)
    requires var ranked := InstalledReleases(was, current);
             DroppedTo(was, now, ranked, Pinned(dirs, current), keep, |ranked|, ok)
    ensures ok ==> now == KeptReleases(was, dirs, current, keep)
    ensures forall v :: v in KeptReleases(was, dirs, current, keep) ==> v in now
    ensures forall v :: v in now ==> v in was
  {
    var ranked := InstalledReleases(was, current);
    assert ranked[..|ranked|] == ranked;
    var drop := Outranked(ranked, Pinned(dirs, current), keep);
    FilterSame(was, v => v !in drop, v => v !in Outranked(ranked[..|ranked|], Pinned(dirs, current), keep));
  }

  lemma {:induction false} OutrankedNext(ranked: seq<string>, pinned: set<string>, keep: nat, i: nat)
    requires i < |ranked|
    ensures Outranked(ranked[..i + 1], pinned, keep) ==
            if i < keep || ranked[i] in pinned then Outranked(ranked[..i], pinned, keep)
            else Outranked(ranked[..i], pinned, keep) + [ranked[i]]
  {
    if i >= keep {
      assert ranked[..i + 1][keep..] == ranked[..i][keep..] + [ranked[i]];
      FilterConcat(ranked[..i][keep..], [ranked[i]], v => v !in pinned);
    }
  }

  /** The folders of drop are removed, all of them while ok. */
  ghost predicate LeftAfter(was: seq<StateDir>, now: seq<StateDir>, drop: set<StateDir>, ok: bool) {
    && (ok ==> now == Filter(was, d => d !in drop))
    && (forall d :: d in was && d !in drop ==> d in now)
    && (forall d :: d in now ==> d in was)
  }

  /** The first i of the list are kept or dropped, none both. */
  ghost predicate Swept(list: seq<StateDir>, i: nat, retained: seq<StateDir>, drop: set<StateDir>) {
    && i <= |list|
    && (forall d :: d in list[..i] <==> d in drop || d in retained)
    && (forall d :: d in drop ==> d !in retained)
  }

  lemma {:induction false} SweptStart(list: seq<StateDir>)
    ensures Swept(list, 0, [], {})
  {}

  lemma {:induction false} SweptNext(list: seq<StateDir>, i: nat, retained: seq<StateDir>, drop: set<StateDir>)
    requires Distinct(list) && i < |list| && Swept(list, i, retained, drop)
    ensures Swept(list, i + 1, retained + [list[i]], drop) && Swept(list, i + 1, retained, drop + {list[i]})
  {
    ListedOnce(list, i);
    assert list[..i + 1] == list[..i] + [list[i]];
  }

  lemma {:induction false} Regroup<T>(a: seq<T>, b: seq<T>, c: seq<T>)
    ensures a + b + c == a + (b + c)
  {}

  lemma {:induction false} LeftStart(was: seq<StateDir>)
    ensures LeftAfter(was, was, {}, true)
  {
    var drop: set<StateDir> := {};
    FilterAll(was, d => d !in drop);
  }

  lemma {:induction false} LeftMembers(was: seq<StateDir>, now: seq<StateDir>, drop: set<StateDir>, ok: bool)
    requires LeftAfter(was, now, drop, ok)
    ensures forall d :: d in was && d !in now ==> d in drop
    ensures forall d :: d in now ==> d in was
  {}

  lemma {:induction false} LeftNext(was: seq<StateDir>, now: seq<StateDir>, drop: set<StateDir>, d: StateDir, ok: bool)
    requires LeftAfter(was, now, drop, ok)
    ensures LeftAfter(was, Filter(now, x => x != d), drop + {d}, ok)
    ensures LeftAfter(was, now, drop + {d}, false)
    ensures d in now ==> d in was
  {
    FilterTwice(was, x => x !in drop, x => x != d, x => x !in drop + {d});
  }

  lemma {:induction false} ListedFacts(dirs: seq<StateDir>)
    requires Distinct(dirs)
    ensures Distinct(ListSnapshots(dirs))
    ensures forall d :: d in ListSnapshots(dirs) <==> d in dirs && Readable(d)
  {
    LaterOrders();
    FilterKeepsDistinct(dirs, Readable);
    SortKeepsDistinct(Filter(dirs, Readable), Later);
    SortMembers(Filter(dirs, Readable), Later);
  }

  lemma {:induction false} ListedOnce(list: seq<StateDir>, i: nat)
    requires Distinct(list) && i < |list|
    ensures list[i] !in list[..i]
  {
    assert list == list[..i] + list[i..] && list[i] in list[i..];
    if list[i] in list[..i] { PartsShareNothing(list[..i], list[i..], list[i]); }
  }

  lemma {:induction false} RetainedNext(list: seq<StateDir>, i: nat, target: Option<StateDir>, releases: seq<string>,
      current: string, kept: nat, keep: nat)
    requires i < |list|
    ensures Retained(list[i..], target, releases, current, kept, keep) ==
      if target == Some(list[i]) then [list[i]] + Retained(list[i + 1..], target, releases, current, kept, keep)
      else if Installed(list[i], releases, current) && kept < keep then
        [list[i]] + Retained(list[i + 1..], target, releases, current, kept + 1, keep)
      else Retained(list[i + 1..], target, releases, current, kept, keep)
  {
    assert list[i..][1..] == list[i + 1..];
  }

  lemma {:induction false} RetainedEnd(list: seq<StateDir>, target: Option<StateDir>, releases: seq<string>,
      current: string, kept: nat, keep: nat)
    ensures Retained(list[|list|..], target, releases, current, kept, keep) == []
  {}

  lemma {:induction false} RetainedSubset(list: seq<StateDir>, target: Option<StateDir>, releases: seq<string>,
      current: string, kept: nat, keep: nat)
    ensures forall d :: d in Retained(list, target, releases, current, kept, keep) ==>
      d in list && (target == Some(d) || Installed(d, releases, current))
  {
    if list != [] {
      RetainedSubset(list[1..], target, releases, current, kept, keep);
      RetainedSubset(list[1..], target, releases, current, kept + 1, keep);
    }
  }

  lemma {:induction false} SnapshotsEnd(was: seq<StateDir>, now: seq<StateDir>, drop: set<StateDir>,
      releases: seq<string>, current: string, keep: nat, ok: bool)
    requires Distinct(was) && LeftAfter(was, now, drop, ok)
    requires var target, list := LatestSnapshotFor(was, current), ListSnapshots(was);
      var retained := Retained(list, target, releases, current, if target.Some? then 1 else 0, keep);
      && (forall d :: d in drop ==> d in was && d !in retained && (d in list || IsSnapshotName(d.name)))
      && (forall d :: d in list && d !in retained ==> d in drop)
      && (forall d :: d in was && IsSnapshotName(d.name) && d !in list ==> d in drop)
    ensures ok ==> now == KeptSnapshots(was, releases, current, keep)
    ensures forall d :: d in KeptSnapshots(was, releases, current, keep) ==> d in now
    ensures forall d :: d in now ==> d in was
  {
    var target, list := LatestSnapshotFor(was, current), ListSnapshots(was);
    var retained := Retained(list, target, releases, current, if target.Some? then 1 else 0, keep);
    ListedFacts(was);
    RetainedSubset(list, target, releases, current, if target.Some? then 1 else 0, keep);
    FilterSame(was, d => d !in drop, d => d in retained || (!Readable(d) && !IsSnapshotName(d.name)));
  }

  // ── What the retention promises ─────────────────────────────────────────────

  lemma {:induction false} RetainedDistinct(list: seq<StateDir>, target: Option<StateDir>, releases: seq<string>,
      current: string, kept: nat, keep: nat)
    requires Distinct(list)
    ensures var r := Retained(list, target, releases, current, kept, keep); Filter(list, d => d in r) == r
  {
    var r := Retained(list, target, releases, current, kept, keep);
    if list != [] {
      var h, tail := list[0], list[1..];
      var kept' := if target != Some(h) && Installed(h, releases, current) && kept < keep then kept + 1 else kept;
      var r' := Retained(tail, target, releases, current, kept', keep);
      DistinctTail(list);
      RetainedDistinct(tail, target, releases, current, kept', keep);
      RetainedSubset(tail, target, releases, current, kept', keep);
      FilterSame(tail, d => d in r, d => d in r');
      assert list == [h] + tail;
      FilterCons(h, tail, d => d in r);
    }
  }

  /** What is listed after the snapshots are pruned is what was retained. */
  lemma {:induction false} ListedAfterPrune(dirs: seq<StateDir>, releases: seq<string>, current: string, keep: nat)
    requires Distinct(dirs)
    ensures var target := LatestSnapshotFor(dirs, current);
            ListSnapshots(KeptSnapshots(dirs, releases, current, keep)) ==
            Retained(ListSnapshots(dirs), target, releases, current, if target.Some? then 1 else 0, keep)
  {
    var target, list := LatestSnapshotFor(dirs, current), ListSnapshots(dirs);
    var k0 := if target.Some? then 1 else 0;
    var r := Retained(list, target, releases, current, k0, keep);
    LaterOrders();
    ListedFacts(dirs);
    RetainedSubset(list, target, releases, current, k0, keep);
    var stays := (d: StateDir) => d in r || (!Readable(d) && !IsSnapshotName(d.name));
    FilterTwice(dirs, stays, Readable, d => d in r && Readable(d));
    FilterTwice(dirs, Readable, d => d in r, d => d in r && Readable(d));
    SortFilter(Filter(dirs, Readable), Later, d => d in r);
    RetainedDistinct(list, target, releases, current, k0, keep);
  }

  lemma {:induction false} FirstIsRetained(list: seq<StateDir>, target: Option<StateDir>, releases: seq<string>,
      current: string, kept: nat, keep: nat)
    requires target == First(list, current)
    ensures First(Retained(list, target, releases, current, kept, keep), current) == target
  {
    if target == None {
      RetainedSubset(list, target, releases, current, kept, keep);
    } else if !GoesBackFrom(list[0], current) {
      FirstIsRetained(list[1..], target, releases, current, kept, keep);
      FirstIsRetained(list[1..], target, releases, current, kept + 1, keep);
      var r := Retained(list[1..], target, releases, current, kept + 1, keep);
      assert ([list[0]] + r)[1..] == r;
    }
  }

  lemma {:induction false} RetainedCount(list: seq<StateDir>, target: Option<StateDir>, releases: seq<string>,
      current: string, kept: nat, keep: nat)
    requires Distinct(list) && kept <= keep
    ensures |Retained(list, target, releases, current, kept, keep)| <= keep - kept
      + (if target.Some? && target.value in list then 1 else 0)
  {
    if list != [] {
      DistinctTail(list);
      RetainedCount(list[1..], target, releases, current, kept, keep);
      if kept < keep { RetainedCount(list[1..], target, releases, current, kept + 1, keep); }
    }
  }

  lemma {:induction false} RetainedAgain(list: seq<StateDir>, target: Option<StateDir>, releases: seq<string>,
      current: string, kept: nat, keep: nat)
    ensures var r := Retained(list, target, releases, current, kept, keep);
            Retained(r, target, releases, current, kept, keep) == r
  {
    if list != [] {
      var h, tail := list[0], list[1..];
      var kept' := if target != Some(h) && Installed(h, releases, current) && kept < keep then kept + 1 else kept;
      RetainedAgain(tail, target, releases, current, kept', keep);
      var r' := Retained(tail, target, releases, current, kept', keep);
      assert ([h] + r')[1..] == r';
    }
  }

  /** The newest keep of ranked, then only pinned ones. */
  ghost predicate TopThenPinned(after: seq<string>, ranked: seq<string>, pinned: set<string>, keep: nat) {
    if |ranked| <= keep then after == ranked
    else |after| >= keep && after[..keep] == ranked[..keep] && forall v :: v in after[keep..] ==> v in pinned
  }

  lemma {:induction false} DropOutranked(ranked: seq<string>, pinned: set<string>, keep: nat)
    requires Distinct(ranked)
    ensures var drop := Outranked(ranked, pinned, keep);
            TopThenPinned(Filter(ranked, v => v !in drop), ranked, pinned, keep)
  {
    var drop := Outranked(ranked, pinned, keep);
    var stays := (v: string) => v !in drop;
    if |ranked| <= keep {
      FilterAll(ranked, stays);
    } else {
      var a, b := ranked[..keep], ranked[keep..];
      assert ranked == a + b;
      FilterConcat(a, b, stays);
      forall v | v in a ensures stays(v) { PartsShareNothing(a, b, v); }
      FilterAll(a, stays);
      assert (a + Filter(b, stays))[keep..] == Filter(b, stays) && (a + Filter(b, stays))[..keep] == a;
    }
  }

  lemma {:induction false} RankedDistinct(releases: seq<string>, current: string)
    requires Distinct(releases)
    ensures Distinct(InstalledReleases(releases, current))
    ensures forall v :: v in InstalledReleases(releases, current) ==> v in releases && v != current
    ensures |InstalledReleases(releases, current)| == |Filter(releases, v => v != current && IsVersion(v))|
  {
    var named := (v: string) => v != current && IsVersion(v);
    NewerOrders();
    FilterKeepsDistinct(releases, named);
    SortKeepsDistinct(Filter(releases, named), Newer);
    SortMembers(Filter(releases, named), Newer);
    FilterSame(releases, named, v => v != current && IsVersion(v));
  }

  /** The ranking after the releases are pruned. */
  lemma {:induction false} RankedAfterPrune(releases: seq<string>, dirs: seq<StateDir>, current: string, keep: nat)
    requires Distinct(releases)
    ensures TopThenPinned(InstalledReleases(KeptReleases(releases, dirs, current, keep), current),
                          InstalledReleases(releases, current), Pinned(dirs, current), keep)
  {
    var ranked, pinned := InstalledReleases(releases, current), Pinned(dirs, current);
    var drop := Outranked(ranked, pinned, keep);
    var named := (v: string) => v != current && IsVersion(v);
    var stays := (v: string) => v !in drop;
    NewerOrders();
    FilterTwice(releases, stays, named, v => v !in drop && named(v));
    FilterTwice(releases, named, stays, v => v !in drop && named(v));
    SortFilter(Filter(releases, named), Newer, stays);
    RankedDistinct(releases, current);
    DropOutranked(ranked, pinned, keep);
  }

  lemma {:induction false} NoneButTarget(list: seq<StateDir>, target: Option<StateDir>, releases: seq<string>,
      current: string, kept: nat, keep: nat)
    requires kept >= keep
    ensures forall d :: d in Retained(list, target, releases, current, kept, keep) ==> target == Some(d)
  {
    if list != [] { NoneButTarget(list[1..], target, releases, current, kept, keep); }
  }

  /** Of the snapshots that go back to an installed release, none that is removed is newer
      than one that is kept, the rollback target aside. */
  lemma {:induction false} RetainedAreNewest(list: seq<StateDir>, target: Option<StateDir>, releases: seq<string>,
      current: string, kept: nat, keep: nat, gone: StateDir, stays: StateDir)
    requires Sorted(list, Later) && gone in list && Installed(gone, releases, current)
    requires var r := Retained(list, target, releases, current, kept, keep); gone !in r && stays in r
    requires target != Some(gone) && target != Some(stays)
    ensures !Later(gone, stays)
  {
    var h, tail := list[0], list[1..];
    SortedHead(list, Later);
    if target == Some(h) {
      RetainedAreNewest(tail, target, releases, current, kept, keep, gone, stays);
    } else if Installed(h, releases, current) && kept < keep {
      if stays != h { RetainedAreNewest(tail, target, releases, current, kept + 1, keep, gone, stays); }
    } else if gone == h {
      NoneButTarget(tail, target, releases, current, kept, keep);
    } else {
      RetainedAreNewest(tail, target, releases, current, kept, keep, gone, stays);
    }
  }

  lemma {:induction false} RemovedSnapshotIsOlder(dirs: seq<StateDir>, releases: seq<string>, current: string,
      keep: nat, gone: StateDir, stays: StateDir)
    requires Readable(gone) && gone in dirs && Readable(stays)
    requires gone.manifest.value.from == current || gone.manifest.value.from in releases
    requires var kept := KeptSnapshots(dirs, releases, current, keep); gone !in kept && stays in kept
    requires LatestSnapshotFor(dirs, current) !in {Some(gone), Some(stays)}
    ensures gone.manifest.value.created <= stays.manifest.value.created
  {
    var target := LatestSnapshotFor(dirs, current);
    LaterOrders();
    SortSorts(Filter(dirs, Readable), Later);
    SortMembers(Filter(dirs, Readable), Later);
    RetainedAreNewest(ListSnapshots(dirs), target, releases, current, if target.Some? then 1 else 0, keep, gone, stays);
  }

  /** After a prune whose removals succeed: the current release and the rollback
      target are still there, with the target's release if it was installed; every
      other snapshot goes back to an installed release; at most keep snapshots and
      keep + 2 releases remain. */
  lemma {:induction false} PruneKeepsWhatRollbackNeeds(releases: seq<string>, dirs: seq<StateDir>, current: string,
      keep: nat)
    requires Distinct(releases) && Distinct(dirs) && keep >= 1
    ensures var releases' := KeptReleases(releases, dirs, current, keep);
            var dirs' := KeptSnapshots(dirs, releases', current, keep);
            var target := LatestSnapshotFor(dirs, current);
            && (current in releases ==> current in releases')
            && LatestSnapshotFor(dirs', current) == target
            && (target.Some? && target.value.manifest.value.from in releases ==>
              target.value.manifest.value.from in releases')
            && (forall d :: d in ListSnapshots(dirs') ==>
              target == Some(d) || (d.manifest.Some? && d.manifest.value.from in releases' + [current]))
            && |ListSnapshots(dirs')| <= keep
            && |Filter(releases', IsVersion)| <= keep + 2
  {
    var releases' := KeptReleases(releases, dirs, current, keep);
    var target, list := LatestSnapshotFor(dirs, current), ListSnapshots(dirs);
    var k0 := if target.Some? then 1 else 0;
    ListedAfterPrune(dirs, releases', current, keep);
    ListedFacts(dirs);
    FirstIsRetained(list, target, releases', current, k0, keep);
    RetainedSubset(list, target, releases', current, k0, keep);
    RetainedCount(list, target, releases', current, k0, keep);
    CurrentIsKept(releases, dirs, current, keep);
    ReleaseCount(releases, dirs, current, keep);
  }

  lemma {:induction false} CurrentIsKept(releases: seq<string>, dirs: seq<StateDir>, current: string, keep: nat)
    ensures forall v :: v in Pinned(dirs, current) && v in releases ==> v in KeptReleases(releases, dirs, current, keep)
    ensures current in Pinned(dirs, current)
  {}

  lemma {:induction false} ReleaseCount(releases: seq<string>, dirs: seq<StateDir>, current: string, keep: nat)
    requires Distinct(releases)
    ensures |Filter(KeptReleases(releases, dirs, current, keep), IsVersion)| <= keep + 2
  {
    var kept := KeptReleases(releases, dirs, current, keep);
    var drop := Outranked(InstalledReleases(releases, current), Pinned(dirs, current), keep);
    FilterKeepsDistinct(releases, v => v !in drop);
    RankedAfterPrune(releases, dirs, current, keep);
    RankedDistinct(kept, current);
    RankedCount(InstalledReleases(kept, current), InstalledReleases(releases, current), Pinned(dirs, current), current,
      keep);
    FilterPartition(kept, v => v == current, v => v != current && IsVersion(v), IsVersion);
    FilterKeepsDistinct(kept, v => v == current);
    DistinctWithin(Filter(kept, v => v == current), {current});
  }

  lemma {:induction false} RankedCount(after: seq<string>, ranked: seq<string>, pinned: set<string>, current: string,
      keep: nat)
    requires Distinct(after) && current !in after && TopThenPinned(after, ranked, pinned, keep)
    requires current in pinned && |pinned| <= 2
    ensures |after| <= keep + 1
  {
    if |ranked| > keep {
      var a, b := after[..keep], after[keep..];
      assert after == a + b;
      forall x ensures multiset(b)[x] <= 1 { assert multiset(a + b)[x] == multiset(a)[x] + multiset(b)[x]; }
      forall v | v in b ensures v in pinned - {current} { assert v in after; }
      DistinctWithin(b, pinned - {current});
    }
  }

  /** Pruning again removes nothing. */
  lemma {:induction false} PruneIsIdempotent(releases: seq<string>, dirs: seq<StateDir>, current: string, keep: nat)
    requires Distinct(releases) && Distinct(dirs) && keep >= 1
    ensures var releases' := KeptReleases(releases, dirs, current, keep);
            var dirs' := KeptSnapshots(dirs, releases', current, keep);
            && KeptReleases(releases', dirs', current, keep) == releases'
            && KeptSnapshots(dirs', releases', current, keep) == dirs'
  {
    var releases' := KeptReleases(releases, dirs, current, keep);
    var dirs' := KeptSnapshots(dirs, releases', current, keep);
    var target, list := LatestSnapshotFor(dirs, current), ListSnapshots(dirs);
    var k0 := if target.Some? then 1 else 0;
    PruneKeepsWhatRollbackNeeds(releases, dirs, current, keep);
    assert Pinned(dirs', current) == Pinned(dirs, current);
    RankedAfterPrune(releases, dirs, current, keep);
    var after := InstalledReleases(releases', current);
    if |after| > keep { FilterNone(after[keep..], v => v !in Pinned(dirs', current)); }
    var drop := Outranked(after, Pinned(dirs', current), keep);
    assert drop == [];
    FilterAll(releases', v => v !in drop);
    ListedAfterPrune(dirs, releases', current, keep);
    RetainedAgain(list, target, releases', current, k0, keep);
    var r := Retained(list, target, releases', current, k0, keep);
    FilterAll(dirs', d => d in r || (!Readable(d) && !IsSnapshotName(d.name)));
  }
}
