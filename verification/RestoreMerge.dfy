/** Moving a restored tree into place (apps/root-worker/restore_fd.go). A directory is its
    mode and its entries; everything else, links included, is a file. */
module RestoreMerge {
  import opened Text

  datatype Node = File(body: string) | Dir(mode: nat, entries: map<string, Node>)

  const MAX_MERGE_WARN: nat := 20
  const STAGING_MODE: nat := 448 // 0o700

  function At(d: Node, name: string): Option<Node>
    requires d.Dir?
  {
    if name in d.entries then Some(d.entries[name]) else None
  }

  function Put(d: Node, name: string, n: Option<Node>): (r: Node)
    requires d.Dir?
    ensures r.Dir? && r.mode == d.mode && At(r, name) == n
    ensures forall k :: k != name ==> At(r, k) == At(d, k)
  {
    Dir(d.mode, if n.Some? then d.entries[name := n.value] else d.entries - {name})
  }

  lemma {:induction false} SameDir(a: Node, b: Node)
    requires a.Dir? && b.Dir? && a.mode == b.mode
    requires forall k: string :: At(a, k) == At(b, k)
    ensures a == b
  {
    forall k: string ensures k in a.entries <==> k in b.entries { assert At(a, k) == At(b, k); }
    forall k | k in a.entries ensures a.entries[k] == b.entries[k] { assert At(a, k) == At(b, k); }
    assert a.entries == b.entries;
  }

  // ── Paths ───────────────────────────────────────────────────────────────────

  datatype Kind = IsFile(body: string) | IsDir(mode: nat)

  function KindOf(n: Node): Kind { if n.File? then IsFile(n.body) else IsDir(n.mode) }

  /** What is at a path, if anything. */
  ghost function Find(n: Option<Node>, path: seq<string>): Option<Kind>
    decreases |path|
  {
    if n.None? then None
    else if path == [] then Some(KindOf(n.value))
    else if n.value.File? then None
    else Find(At(n.value, path[0]), path[1..])
  }

  // ── The merge, as a function ────────────────────────────────────────────────

  ghost function Live(s: Node, d: Node): (r: Node)
    requires s.Dir? && d.Dir?
    ensures r.Dir? && r.mode == d.mode
    decreases s, 0
  {
    Dir(d.mode, map n | n in s.entries.Keys + d.entries.Keys ::
      if n in s.entries then LiveAt(s.entries[n], At(d, n)) else d.entries[n])
  }

  ghost function LiveAt(s: Node, d: Option<Node>): Node
    decreases s, 1
  {
    if s.File? then if d.Some? && d.value.Dir? then d.value else s
    else if d.None? then Live(s, Dir(s.mode, map[]))
    else if d.value.Dir? then Live(s, d.value)
    else d.value
  }

  ghost function Stay(s: Node, d: Node): (r: Node)
    requires s.Dir? && d.Dir?
    ensures r.Dir? && r.mode == s.mode
    decreases s, 0
  {
    Dir(s.mode, map n | n in s.entries.Keys && StayAt(s.entries[n], At(d, n)).Some? ::
      StayAt(s.entries[n], At(d, n)).value)
  }

  ghost function StayAt(s: Node, d: Option<Node>): Option<Node>
    decreases s, 1
  {
    if s.File? then if d.Some? && d.value.Dir? then Some(s) else None
    else if d.None? then Some(Stay(s, Dir(s.mode, map[])))
    else if d.value.Dir? then Some(Stay(s, d.value))
    else Some(s)
  }

  // ── What any merge may do, complete or not ──────────────────────────────────

  /** From staged s and live d to s' and d': some files moved, some directories made. */
  ghost predicate Merged(s: Node, d: Node, s': Node, d': Node)
    requires s.Dir? && d.Dir?
    decreases s, 0
  {
    && s'.Dir? && d'.Dir? && s'.mode == s.mode && d'.mode == d.mode
    && (forall n :: n in s.entries ==> MergedAt(s.entries[n], At(d, n), At(s', n), At(d', n)))
    && (forall n :: n !in s.entries ==> At(s', n) == None && At(d', n) == At(d, n))
  }

  ghost predicate MergedAt(s: Node, d: Option<Node>, s': Option<Node>, d': Option<Node>)
    decreases s, 1
  {
    || (s' == Some(s) && d' == d)
    || (s.File? && (d.Some? ==> d.value.File?) && s' == None && d' == Some(s))
    || (s.Dir? && d.Some? && d.value.Dir? && s'.Some? && d'.Some? && Merged(s, d.value, s'.value, d'.value))
    || (s.Dir? && d == None && s'.Some? && d'.Some? && d'.value.Dir? && d'.value.mode in {STAGING_MODE, s.mode}
        && Merged(s, Dir(d'.value.mode, map[]), s'.value, d'.value))
  }

  // ── What a complete merge gives at each path ────────────────────────────────

  predicate Differ(a: Option<Kind>, b: Option<Kind>) {
    a.Some? && b.Some? && (a.value.IsFile? != b.value.IsFile?)
  }

  /** Somewhere on the way to the path one side has a directory and the other has not. */
  ghost predicate Clash(s: Option<Node>, d: Option<Node>, path: seq<string>) {
    exists k :: 0 <= k <= |path| && Differ(Find(s, path[..k]), Find(d, path[..k]))
  }

  function Over(s: Option<Kind>, d: Option<Kind>): Option<Kind> {
    if s.Some? && s.value.IsFile? then s else if d.Some? then d else s
  }

  lemma {:induction false} FindStep(n: Option<Node>, path: seq<string>, k: nat)
    requires 0 < k <= |path|
    ensures Find(n, path[..k]) == if n.Some? && n.value.Dir? then Find(At(n.value, path[0]), path[1..][..k - 1])
      else None
  {
    assert path[..k][0] == path[0] && path[..k][1..] == path[1..][..k - 1];
  }

  lemma {:induction false} ClashStep(s: Option<Node>, d: Option<Node>, path: seq<string>)
    requires path != []
    ensures Clash(s, d, path) <==>
      && s.Some? && d.Some?
      && (s.value.File? != d.value.File?
        || (s.value.Dir? && Clash(At(s.value, path[0]), At(d.value, path[0]), path[1..])))
  {
    assert path[..0] == [];
    assert Differ(Find(s, path[..0]), Find(d, path[..0])) <==> s.Some? && d.Some? && s.value.File? != d.value.File?;
    forall k | 0 < k <= |path|
      ensures Differ(Find(s, path[..k]), Find(d, path[..k])) <==>
        s.Some? && d.Some? && s.value.Dir? && d.value.Dir?
          && Differ(Find(At(s.value, path[0]), path[1..][..k - 1]), Find(At(d.value, path[0]), path[1..][..k - 1]))
    {
      FindStep(s, path, k);
      FindStep(d, path, k);
    }
    if s.Some? && d.Some? && s.value.Dir? && d.value.Dir?
      && Clash(At(s.value, path[0]), At(d.value, path[0]), path[1..]) {
      var j :| 0 <= j <= |path[1..]|
        && Differ(Find(At(s.value, path[0]), path[1..][..j]), Find(At(d.value, path[0]), path[1..][..j]));
      assert j == (j + 1) - 1 && Differ(Find(s, path[..j + 1]), Find(d, path[..j + 1]));
    }
  }

  lemma {:induction false} ClashHere(s: Option<Node>, d: Option<Node>)
    ensures Clash(s, d, []) <==> Differ(Find(s, []), Find(d, []))
  {
    var none: seq<string> := [];
    assert none[..0] == [];
  }

  lemma {:induction false} NoClashWithNothing(s: Option<Node>, d: Option<Node>, path: seq<string>)
    requires s == None || d == None
    ensures !Clash(s, d, path)
  {
    if path == [] { ClashHere(s, d); } else { ClashStep(s, d, path); }
  }

  lemma {:induction false} FindNothing(path: seq<string>)
    ensures Find(None, path) == None
  {}

  lemma {:induction false} FindInEmpty(mode: nat, path: seq<string>)
    ensures path != [] ==> Find(Some(Dir(mode, map[])), path) == None
  {}

  lemma {:induction false} LiveName(s: Node, d: Node, name: string)
    requires s.Dir? && d.Dir?
    ensures At(Live(s, d), name) == if name in s.entries then Some(LiveAt(s.entries[name], At(d, name)))
      else At(d, name)
    ensures At(Stay(s, d), name) == if name in s.entries then StayAt(s.entries[name], At(d, name)) else None
  {}

  /** The complete merge, path by path: what clashes keeps the live side, a staged file
      wins over a live one, a directory keeps the live mode, the rest is the union. */
  lemma {:induction false} LiveFinds(s: Node, d: Option<Node>, path: seq<string>)
    ensures Find(Some(LiveAt(s, d)), path) == if Clash(Some(s), d, path) then Find(d, path)
      else Over(Find(Some(s), path), Find(d, path))
    decreases |path|
  {
    if path == [] {
      ClashHere(Some(s), d);
    } else {
      ClashStep(Some(s), d, path);
      if s.Dir? && (d == None || d.value.Dir?) {
        var below := if d == None then Dir(s.mode, map[]) else d.value;
        LiveName(s, below, path[0]);
        if path[0] in s.entries {
          LiveFinds(s.entries[path[0]], At(below, path[0]), path[1..]);
          NoClashWithNothing(Some(s.entries[path[0]]), None, path[1..]);
        } else {
          NoClashWithNothing(None, At(below, path[0]), path[1..]);
        }
        FindNothing(path[1..]);
      }
    }
  }

  /** What stays staged: what clashed, and the directories. */
  lemma {:induction false} StayFinds(s: Node, d: Option<Node>, path: seq<string>)
    ensures var f := Find(Some(s), path);
            Find(StayAt(s, d), path) == if Clash(Some(s), d, path) || (f.Some? && f.value.IsDir?) then f else None
    decreases |path|
  {
    if path == [] {
      ClashHere(Some(s), d);
    } else {
      ClashStep(Some(s), d, path);
      if s.Dir? && (d == None || d.value.Dir?) {
        var below := if d == None then Dir(s.mode, map[]) else d.value;
        LiveName(s, below, path[0]);
        if path[0] in s.entries {
          StayFinds(s.entries[path[0]], At(below, path[0]), path[1..]);
          NoClashWithNothing(Some(s.entries[path[0]]), None, path[1..]);
        } else {
          FindNothing(path[1..]);
        }
      }
    }
  }

  /** A complete merge is one a merge may do. */
  lemma {:induction false} CompleteIsMerged(s: Node, d: Node)
    requires s.Dir? && d.Dir?
    ensures Merged(s, d, Stay(s, d), Live(s, d))
    decreases s, 0
  {
    forall n | n in s.entries ensures MergedAt(s.entries[n], At(d, n), At(Stay(s, d), n), At(Live(s, d), n)) {
      LiveName(s, d, n);
      CompleteAtIsMerged(s.entries[n], At(d, n));
    }
    forall n | n !in s.entries ensures At(Stay(s, d), n) == None && At(Live(s, d), n) == At(d, n) {
      LiveName(s, d, n);
    }
  }

  lemma {:induction false} CompleteAtIsMerged(s: Node, d: Option<Node>)
    ensures MergedAt(s, d, StayAt(s, d), Some(LiveAt(s, d)))
    decreases s, 1
  {
    if s.Dir? {
      if d == None { CompleteIsMerged(s, Dir(s.mode, map[])); } else if d.value.Dir? { CompleteIsMerged(s, d.value); }
    }
  }

  // ── What no merge does, even one cut short ──────────────────────────────────

  /** At a path: no live entry is lost or changes kind, a directory keeps its mode, a
      live file is as it was or the staged one, and a staged file is in its place on one
      side or the other. */
  ghost predicate Safe(s: Option<Kind>, d: Option<Kind>, s': Option<Kind>, d': Option<Kind>) {
    && (d.Some? ==>
          && d'.Some? && (d.value.IsDir? ==> d' == d)
          && (d.value.IsFile? ==> d' == d || (s.Some? && d' == s && d'.value.IsFile?)))
    && (d == None && d'.Some? ==>
          s.Some? && (if s.value.IsFile? then d' == s else d' in {s, Some(IsDir(STAGING_MODE))}))
    && (s.Some? && s.value.IsDir? ==> s' == s)
    && (s.Some? && s.value.IsFile? ==> s' == s || (s' == None && d' == s))
    && (s == None ==> s' == None)
  }

  lemma {:induction false} MergedIsSafe(s: Node, d: Option<Node>, s': Option<Node>, d': Option<Node>, path: seq<string>)
    requires MergedAt(s, d, s', d')
    ensures Safe(Find(Some(s), path), Find(d, path), Find(s', path), Find(d', path))
    decreases |path|
  {
    FindNothing(path);
    if s' == Some(s) && d' == d {
    } else if s.File? {
    } else if path != [] {
      FindNothing(path[1..]);
      var below := if d.Some? then d.value else Dir(d'.value.mode, map[]);
      BelowIsSafe(s, below, s'.value, d'.value, path);
      FindInEmpty(below.mode, path);
    }
  }

  lemma {:induction false} BelowIsSafe(s: Node, d: Node, s': Node, d': Node, path: seq<string>)
    requires s.Dir? && d.Dir? && Merged(s, d, s', d') && path != []
    ensures Safe(Find(Some(s), path), Find(Some(d), path), Find(Some(s'), path), Find(Some(d'), path))
    decreases |path|, 0
  {
    var n := path[0];
    if n in s.entries {
      MergedIsSafe(s.entries[n], At(d, n), At(s', n), At(d', n), path[1..]);
    } else {
      FindNothing(path[1..]);
    }
  }

  // ── Counting ────────────────────────────────────────────────────────────────

  /** The entries other than directories. */
  ghost function Count(n: Node): nat
    decreases n, 1, 0
  {
    if n.File? then 1 else CountIn(n, n.entries.Keys)
  }

  ghost function CountIn(d: Node, names: set<string>): nat
    requires d.Dir? && names <= d.entries.Keys
    decreases d, 0, |names|
  {
    if names == {} then 0 else var n :| n in names; Count(d.entries[n]) + CountIn(d, names - {n})
  }

  ghost function CountAt(n: Option<Node>): nat { if n.None? then 0 else Count(n.value) }

  lemma {:induction false} CountSplit(d: Node, names: set<string>, name: string)
    requires d.Dir? && names <= d.entries.Keys && name in names
    ensures CountIn(d, names) == Count(d.entries[name]) + CountIn(d, names - {name})
    decreases |names|
  {
    var n :| n in names && CountIn(d, names) == Count(d.entries[n]) + CountIn(d, names - {n});
    if n != name {
      CountSplit(d, names - {n}, name);
      CountSplit(d, names - {name}, n);
      assert names - {n} - {name} == names - {name} - {n};
    }
  }

  lemma {:induction false} CountSame(d: Node, d': Node, names: set<string>)
    requires d.Dir? && d'.Dir? && names <= d.entries.Keys && names <= d'.entries.Keys
    requires forall n :: n in names ==> d.entries[n] == d'.entries[n]
    ensures CountIn(d, names) == CountIn(d', names)
    decreases |names|
  {
    if names != {} {
      var n :| n in names;
      CountSplit(d, names, n);
      CountSplit(d', names, n);
      CountSame(d, d', names - {n});
    }
  }

  /** Replacing one entry changes the count by what is replaced. */
  lemma {:induction false} CountPut(d: Node, name: string, n: Option<Node>)
    requires d.Dir?
    ensures Count(Put(d, name, n)) + CountAt(At(d, name)) == Count(d) + CountAt(n)
  {
    var r, others := Put(d, name, n), d.entries.Keys - {name};
    forall k | k in others ensures k in r.entries && r.entries[k] == d.entries[k] { assert At(r, k) == At(d, k); }
    CountSame(d, r, others);
    if name in d.entries { CountSplit(d, d.entries.Keys, name); } else { assert others == d.entries.Keys; }
    assert At(r, name) == n;
    if n.Some? {
      assert r.entries.Keys - {name} == others;
      CountSplit(r, r.entries.Keys, name);
    } else {
      assert r.entries.Keys == others;
    }
  }

  /** countFiles, in whatever order the entries are read; None when a read failed. */
  method CountFiles(dir: Node) returns (r: Option<nat>, ghost faults: nat)
    requires dir.Dir?
    ensures r.Some? ==> r.value == Count(dir)
    ensures faults == 0 ==> r.Some?
    decreases dir
  {
    var listed: bool := *;
    if !listed { return None, 1; }
    var n, todo := 0, dir.entries.Keys;
    while todo != {}
      invariant todo <= dir.entries.Keys && n + CountIn(dir, todo) == Count(dir)
      decreases |todo|
    {
      var name :| name in todo;
      CountSplit(dir, todo, name);
      todo := todo - {name};
      if dir.entries[name].File? {
        n := n + 1;
      } else {
        var c, below := CountFiles(dir.entries[name]);
        if c.None? { return None, below; }
        n := n + c.value;
      }
    }
    r, faults := Some(n), 0;
  }

  // ── The merge, step by step ─────────────────────────────────────────────────

  datatype Renamed = Done | ChangedType | OtherVolume | Refused

  /** A line of the result: what was wrong with an entry, or that there were more. */
  datatype Warning =
    | IsDirectoryThere(relName: string)
    | TypeChanged(relName: string)
    | OnOtherVolume(relName: string)
    | NotDirectoryThere(relName: string)
    | ReplacedMeanwhile(relName: string)
    | MoreSkipped

  // ── What a merge that goes on leaves, and one that stops ────────────────────

  /** Some line names the entry. */
  ghost predicate Named(relName: string, w: set<Warning>) {
    exists m :: m in w && !m.MoreSkipped? && m.relName == relName
  }

  function Under(rel: string, name: string): string { rel + "/" + name }

  function RelName(rel: string, path: seq<string>): string
    decreases |path|
  {
    if path == [] then rel else RelName(Under(rel, path[0]), path[1..])
  }

  /** A path's name: its parts after the folder's, with slashes between them. */
  lemma {:induction false} RelNameIs(rel: string, path: seq<string>)
    ensures RelName(rel, path) == if path == [] then rel else rel + "/" + Join(path, "/")
    decreases |path|
  {
    if path != [] {
      RelNameIs(Under(rel, path[0]), path[1..]);
      if |path| > 1 {
        assert rel + "/" + path[0] + "/" + Join(path[1..], "/") == rel + "/" + (path[0] + "/" + Join(path[1..], "/"));
      }
    }
  }

  /** From staged s and live d to s' and d' with the warnings w: every entry is moved,
      entered, made, or skipped and named. */
  ghost predicate Finished(s: Node, d: Node, s': Node, d': Node, rel: string, w: set<Warning>)
    requires s.Dir? && d.Dir?
    decreases s, 0
  {
    && s'.Dir? && d'.Dir? && s'.mode == s.mode && d'.mode == d.mode
    && (forall n :: n in s.entries ==> FinishedAt(s.entries[n], At(d, n), At(s', n), At(d', n), Under(rel, n), w))
    && (forall n :: n !in s.entries ==> At(s', n) == None && At(d', n) == At(d, n))
  }

  ghost predicate FinishedAt(e: Node, there: Option<Node>, left: Option<Node>, live: Option<Node>, relName: string,
      w: set<Warning>)
    decreases e, 1
  {
    || Skipped(e, there, left, live, relName, w)
    || (e.File? && (there.Some? ==> there.value.File?) && left == None && live == Some(e))
    || (e.Dir? && left.Some? && live.Some? && live.value.Dir? && (there.Some? ==> there.value.Dir?)
        && (there == None ==> live.value.mode == e.mode)
        && Finished(e, if there == None then Dir(e.mode, map[]) else there.value, left.value, live.value, relName, w))
  }

  /** A skipped entry stays as it is on both sides; one replaced while its directory was
      made leaves that directory. */
  ghost predicate Skipped(e: Node, there: Option<Node>, left: Option<Node>, live: Option<Node>, relName: string,
      w: set<Warning>)
  {
    && Named(relName, w) && left == Some(e)
    && (live == there || (there == None && JustMade(live) && e.Dir? && ReplacedMeanwhile(relName) in w))
  }

  predicate JustMade(live: Option<Node>) { live == Some(Dir(STAGING_MODE, map[])) }

  /** The same for a merge that stopped: one entry it stopped at, perhaps, and entries it did
      not come to. */
  ghost predicate Stopped(s: Node, d: Node, s': Node, d': Node, rel: string, w: set<Warning>)
    requires s.Dir? && d.Dir?
    decreases s, 0, 1
  {
    && s'.Dir? && d'.Dir? && s'.mode == s.mode && d'.mode == d.mode
    && (exists at: Option<string> :: StoppedIn(s, d, s', d', rel, w, at))
    && (forall n :: n !in s.entries ==> At(s', n) == None && At(d', n) == At(d, n))
  }

  ghost predicate StoppedIn(s: Node, d: Node, s': Node, d': Node, rel: string, w: set<Warning>, at: Option<string>)
    requires s.Dir? && d.Dir? && s'.Dir? && d'.Dir?
    decreases s, 0, 0
  {
    forall n :: n in s.entries ==>
      || (At(s', n) == Some(s.entries[n]) && At(d', n) == At(d, n))
      || FinishedAt(s.entries[n], At(d, n), At(s', n), At(d', n), Under(rel, n), w)
      || (at == Some(n) && StoppedAt(s.entries[n], At(d, n), At(s', n), At(d', n), Under(rel, n), w))
  }

  /** It stopped in this directory, or where it was given its mode. */
  ghost predicate StoppedAt(e: Node, there: Option<Node>, left: Option<Node>, live: Option<Node>, relName: string,
      w: set<Warning>)
    decreases e, 1
  {
    && e.Dir? && left.Some? && live.Some? && live.value.Dir? && (there.Some? ==> there.value.Dir?)
    && var below := if there == None then Dir(STAGING_MODE, map[]) else there.value;
       Stopped(e, below, left.value, live.value, relName, w) || Finished(e, below, left.value, live.value, relName, w)
  }

  lemma {:induction false} MoreWarnings(e: Node, there: Option<Node>, left: Option<Node>, live: Option<Node>,
      relName: string, w: set<Warning>, w': set<Warning>)
    requires FinishedAt(e, there, left, live, relName, w) && w <= w'
    ensures FinishedAt(e, there, left, live, relName, w')
    decreases e, 1
  {
    if Skipped(e, there, left, live, relName, w) {
      assert Named(relName, w');
    } else if e.Dir? {
      FinishedMore(e, if there == None then Dir(e.mode, map[])
        else there.value, left.value, live.value, relName, w, w');
    }
  }

  lemma {:induction false} FinishedMore(s: Node, d: Node, s': Node, d': Node, rel: string, w: set<Warning>,
      w': set<Warning>)
    requires s.Dir? && d.Dir? && Finished(s, d, s', d', rel, w) && w <= w'
    ensures Finished(s, d, s', d', rel, w')
    decreases s, 0
  {
    forall n | n in s.entries ensures FinishedAt(s.entries[n], At(d, n), At(s', n), At(d', n), Under(rel, n), w') {
      MoreWarnings(s.entries[n], At(d, n), At(s', n), At(d', n), Under(rel, n), w, w');
    }
  }

  /** Each warning names an entry below one of those names that is still staged. */
  ghost predicate True(w: set<Warning>, s: Node, s': Node, rel: string, names: set<string>)
    requires s.Dir? && s'.Dir?
  {
    forall m :: m in w ==> !m.MoreSkipped? && exists path: seq<string> ::
      path != [] && path[0] in names && RelName(rel, path) == m.relName && Stays(Some(s), Some(s'), path)
  }

  ghost predicate Stays(s: Option<Node>, s': Option<Node>, path: seq<string>) {
    Find(s, path).Some? && Find(s', path) == Find(s, path)
  }

  /** The same of one entry and what is below it. */
  ghost predicate TrueAt(w: set<Warning>, e: Node, left: Option<Node>, relName: string) {
    forall m :: m in w ==> !m.MoreSkipped? && exists path ::
      RelName(relName, path) == m.relName && Stays(Some(e), left, path)
  }

  lemma {:induction false} TrueHere(e: Node, m: Warning, given: seq<Warning>)
    requires !m.MoreSkipped?
    ensures TrueAt(Since(given + [m], |given|), e, Some(e), m.relName)
  {
    assert (given + [m])[|given|..] == [m];
    var none: seq<string> := [];
    assert RelName(m.relName, none) == m.relName && Stays(Some(e), Some(e), none);
  }

  lemma {:induction false} TrueStart(s: Node, rel: string, given: seq<Warning>, names: set<string>)
    requires s.Dir?
    ensures True(Since(given, |given|), s, s, rel, names)
  {}

  lemma {:induction false} TrueMore(w: set<Warning>, s: Node, s': Node, rel: string, names: set<string>,
      names': set<string>)
    requires s.Dir? && s'.Dir? && True(w, s, s', rel, names) && names <= names'
    ensures True(w, s, s', rel, names')
  {
    forall m | m in w
      ensures exists path: seq<string> ::
        path != [] && path[0] in names' && RelName(rel, path) == m.relName && Stays(Some(s), Some(s'), path)
    {
      var path: seq<string> :| path != [] && path[0] in names && RelName(rel, path) == m.relName
        && Stays(Some(s), Some(s'), path);
    }
  }

  lemma {:induction false} TrueNothing(e: Node, left: Option<Node>, relName: string, given: seq<Warning>)
    ensures TrueAt(Since(given, |given|), e, left, relName)
  {}

  lemma {:induction false} TrueEntered(w: set<Warning>, e: Node, l: Node, relName: string)
    requires e.Dir? && l.Dir? && True(w, e, l, relName, e.entries.Keys)
    ensures TrueAt(w, e, Some(l), relName)
  {
    forall m | m in w ensures exists path :: RelName(relName, path) == m.relName && Stays(Some(e), Some(l), path) {
      var path: seq<string> :| path != [] && path[0] in e.entries.Keys && RelName(relName, path) == m.relName
        && Stays(Some(e), Some(l), path);
    }
  }

  lemma {:induction false} TrueStep(w: set<Warning>, more: set<Warning>, s: Node, s': Node, rel: string,
      names: set<string>, name: string, left: Option<Node>)
    requires s.Dir? && s'.Dir? && name in s.entries && name !in names && True(w, s, s', rel, names)
    requires TrueAt(more, s.entries[name], left, Under(rel, name))
    ensures True(w + more, s, Put(s', name, left), rel, names + {name})
  {
    hide RelName, Under;
    var r := Put(s', name, left);
    forall m | m in w
      ensures exists path: seq<string> ::
        path != [] && path[0] in names + {name} && RelName(rel, path) == m.relName && Stays(Some(s), Some(r), path)
    {
      var path: seq<string> :| path != [] && path[0] in names && RelName(rel, path) == m.relName
        && Stays(Some(s), Some(s'), path);
      assert At(r, path[0]) == At(s', path[0]);
    }
    forall m | m in more
      ensures exists path: seq<string> ::
        path != [] && path[0] in names + {name} && RelName(rel, path) == m.relName && Stays(Some(s), Some(r), path)
    {
      var below: seq<string> :| RelName(Under(rel, name), below) == m.relName
        && Stays(Some(s.entries[name]), left, below);
      var path := [name] + below;
      assert path[1..] == below && path[0] == name;
      UnderName(rel, name, below);
      assert Find(Some(s), path) == Find(At(s, name), below) && Find(Some(r), path) == Find(left, below);
    }
  }

  lemma {:induction false} UnderName(rel: string, name: string, below: seq<string>)
    ensures RelName(rel, [name] + below) == RelName(Under(rel, name), below)
  {
    assert ([name] + below)[1..] == below;
  }

  // ── Path by path ────────────────────────────────────────────────────────────

  /** The path, or one above it, is named. */
  ghost predicate NamedOn(rel: string, path: seq<string>, w: set<Warning>) {
    exists k :: 1 <= k <= |path| && Named(RelName(rel, path[..k]), w)
  }

  /** As if nothing had been done there. */
  predicate AsItWas(s: Option<Kind>, d: Option<Kind>, s': Option<Kind>, d': Option<Kind>) { s' == s && d' == d }

  /** A directory with the mode it was made with. */
  predicate LeftAsMade(s: Option<Kind>, d: Option<Kind>, s': Option<Kind>, d': Option<Kind>) {
    s.Some? && s.value.IsDir? && s' == s && d == None && d' == Some(IsDir(STAGING_MODE))
  }

  /** As a complete merge leaves it. */
  ghost predicate AsMerged(s: Option<Node>, d: Option<Node>, s': Option<Node>, d': Option<Node>, path: seq<string>) {
    var clash, a, b := Clash(s, d, path), Find(s, path), Find(d, path);
    && Find(s', path) == (if clash || (a.Some? && a.value.IsDir?) then a else None)
    && Find(d', path) == (if clash then b else Over(a, b))
  }

  ghost predicate NotDone(s: Option<Node>, d: Option<Node>, s': Option<Node>, d': Option<Node>, path: seq<string>) {
    AsItWas(Find(s, path), Find(d, path), Find(s', path), Find(d', path))
  }

  ghost predicate OnlyMade(s: Option<Node>, d: Option<Node>, s': Option<Node>, d': Option<Node>, path: seq<string>) {
    LeftAsMade(Find(s, path), Find(d, path), Find(s', path), Find(d', path))
  }

  /** At an entry and below: merged, or named and skipped. */
  ghost predicate Settled(s: Option<Node>, d: Option<Node>, s': Option<Node>, d': Option<Node>, path: seq<string>,
      named: bool, replaced: bool)
  {
    || (AsMerged(s, d, s', d', path) && (Clash(s, d, path) ==> named))
    || (named && (NotDone(s, d, s', d', path) || (replaced && OnlyMade(s, d, s', d', path))))
  }

  /** One step down a directory that is entered or made. */
  lemma {:induction false} OneDown(s: Node, d: Option<Node>, mode: nat, path: seq<string>)
    requires s.Dir? && (d.Some? ==> d.value.Dir?) && path != []
    ensures var below := if d == None then Dir(mode, map[]) else d.value; var n := path[0];
      && (Clash(Some(s), d, path) <==> Clash(At(s, n), At(below, n), path[1..]))
      && Find(Some(s), path) == Find(At(s, n), path[1..]) && Find(d, path) == Find(At(below, n), path[1..])
  {
    ClashStep(Some(s), d, path);
    FindNothing(path[1..]);
    if d == None { NoClashWithNothing(At(s, path[0]), None, path[1..]); }
  }

  lemma {:induction false} SettledDown(s: Node, d: Option<Node>, s': Node, d': Node, mode: nat, path: seq<string>,
      named: bool, replaced: bool)
    requires s.Dir? && (d.Some? ==> d.value.Dir?) && s'.Dir? && d'.Dir? && path != []
    requires var below, n := if d == None then Dir(mode, map[]) else d.value, path[0];
      Settled(At(s, n), At(below, n), At(s', n), At(d', n), path[1..], named, replaced)
    ensures Settled(Some(s), d, Some(s'), Some(d'), path, named, replaced)
  {
    OneDown(s, d, mode, path);
    hide Clash;
  }

  /** An entry that is not staged is as it was, which is as merged. */
  lemma {:induction false} SettledNothing(d: Option<Node>, path: seq<string>, replaced: bool)
    ensures Settled(None, d, None, d, path, false, replaced)
  {
    FindNothing(path);
    NoClashWithNothing(None, d, path);
  }

  /** At every path of a merge that goes on to its end: as merged, or the path or one above
      it is named and nothing was done there. */
  lemma {:induction false} FinishedFinds(s: Node, d: Node, s': Node, d': Node, rel: string, w: set<Warning>,
      path: seq<string>)
    requires s.Dir? && d.Dir? && Finished(s, d, s', d', rel, w) && path != []
    ensures Settled(Some(s), Some(d), Some(s'), Some(d'), path, NamedOn(rel, path, w),
      ReplacedMeanwhile(RelName(rel, path)) in w)
    decreases |path|, 0
  {
    var n, r := path[0], Under(rel, path[0]);
    NamedBelow(rel, path, w);
    assert RelName(rel, path) == RelName(r, path[1..]);
    hide Settled, NamedOn, Named, RelName, Under;
    if n in s.entries {
      EntryFinds(s.entries[n], At(d, n), At(s', n), At(d', n), r, w, path[1..]);
      SettledDown(s, Some(d), s', d', 0, path, NamedOn(rel, path, w), ReplacedMeanwhile(RelName(rel, path)) in w);
    } else {
      SettledNothing(At(d, n), path[1..], ReplacedMeanwhile(RelName(rel, path)) in w);
      SettledMore(None, At(d, n), None, At(d, n), path[1..], false, NamedOn(rel, path, w),
        ReplacedMeanwhile(RelName(rel, path)) in w);
      SettledDown(s, Some(d), s', d', 0, path, NamedOn(rel, path, w), ReplacedMeanwhile(RelName(rel, path)) in w);
    }
  }

  /** What a merge that goes on to its end leaves staged is named, and so is every clash; a
      directory it made has the staged mode, unless it is named as replaced meanwhile. */
  lemma {:induction false} FinishedMeans(s: Node, d: Node, s': Node, d': Node, rel: string, w: set<Warning>,
      path: seq<string>)
    requires s.Dir? && d.Dir? && Finished(s, d, s', d', rel, w) && path != []
    ensures var a, b, a', b' := Find(Some(s), path), Find(Some(d), path), Find(Some(s'), path), Find(Some(d'), path);
      && (Clash(Some(s), Some(d), path) || (a'.Some? && a'.value.IsFile?) ==> NamedOn(rel, path, w))
      && (b == None && b'.Some? && b'.value.IsDir? ==> b' == a || ReplacedMeanwhile(RelName(rel, path)) in w)
  {
    FinishedFinds(s, d, s', d', rel, w, path);
    hide NamedOn, RelName;
  }

  lemma {:induction false} SettledMore(s: Option<Node>, d: Option<Node>, s': Option<Node>, d': Option<Node>,
      path: seq<string>, named: bool, named': bool, replaced: bool)
    requires Settled(s, d, s', d', path, named, replaced) && (named ==> named')
    ensures Settled(s, d, s', d', path, named', replaced)
  {}

  lemma {:induction false} SkippedFinds(e: Node, there: Option<Node>, left: Option<Node>, live: Option<Node>,
      relName: string, w: set<Warning>, path: seq<string>, named: bool)
    requires Skipped(e, there, left, live, relName, w) && named
    ensures Settled(Some(e), there, left, live, path, named, ReplacedMeanwhile(RelName(relName, path)) in w)
  {
    hide Named, Clash;
    FindNothing(path);
    FindInEmpty(STAGING_MODE, path);
  }

  lemma {:induction false} MovedFinds(e: Node, there: Option<Node>, path: seq<string>, replaced: bool)
    requires e.File? && (there.Some? ==> there.value.File?)
    ensures Settled(Some(e), there, None, Some(e), path, false, replaced)
  {
    FindNothing(path);
    if path == [] { ClashHere(Some(e), there); } else { ClashStep(Some(e), there, path); }
  }

  lemma {:induction false} EnteredFinds(e: Node, there: Option<Node>, l: Node, d: Node, replaced: bool)
    requires e.Dir? && (there.Some? ==> there.value.Dir?) && l.Dir? && d.Dir? && l.mode == e.mode
    requires d.mode == if there == None then e.mode else there.value.mode
    ensures Settled(Some(e), there, Some(l), Some(d), [], false, replaced)
  {
    ClashHere(Some(e), there);
  }

  lemma {:induction false} EntryFinds(e: Node, there: Option<Node>, left: Option<Node>, live: Option<Node>,
      relName: string, w: set<Warning>, path: seq<string>)
    requires FinishedAt(e, there, left, live, relName, w)
    ensures Settled(Some(e), there, left, live, path, Named(relName, w) || NamedOn(relName, path, w),
      ReplacedMeanwhile(RelName(relName, path)) in w)
    decreases |path|, 1
  {
    hide Settled, NamedOn, Named, RelName, Under;
    var named, replaced := Named(relName, w)
      || NamedOn(relName, path, w), ReplacedMeanwhile(RelName(relName, path)) in w;
    if Skipped(e, there, left, live, relName, w) {
      SkippedFinds(e, there, left, live, relName, w, path, named);
    } else if e.File? {
      MovedFinds(e, there, path, replaced);
      SettledMore(Some(e), there, left, live, path, false, named, replaced);
    } else if path == [] {
      EnteredFinds(e, there, left.value, live.value, replaced);
      SettledMore(Some(e), there, left, live, path, false, named, replaced);
    } else {
      var below := if there == None then Dir(e.mode, map[]) else there.value;
      FinishedFinds(e, below, left.value, live.value, relName, w, path);
      SettledBelow(e, there, left.value, live.value, e.mode, path, NamedOn(relName, path, w), replaced);
      SettledMore(Some(e), there, left, live, path, NamedOn(relName, path, w), named, replaced);
    }
  }

  /** What holds relative to a directory just made holds relative to nothing. */
  lemma {:induction false} SettledBelow(e: Node, there: Option<Node>, l: Node, d: Node, mode: nat, path: seq<string>,
      named: bool, replaced: bool)
    requires e.Dir? && (there.Some? ==> there.value.Dir?) && l.Dir? && d.Dir? && path != []
    requires var below := if there == None then Dir(mode, map[]) else there.value;
      Settled(Some(e), Some(below), Some(l), Some(d), path, named, replaced)
    ensures Settled(Some(e), there, Some(l), Some(d), path, named, replaced)
  {
    var below := if there == None then Dir(mode, map[]) else there.value;
    OneDown(e, there, mode, path);
    OneDown(e, Some(below), mode, path);
    hide Clash;
  }

  /** At a path of a merge that stopped on way: settled, not come to, or a directory on the
      way that has not been given its mode yet. */
  ghost predicate Cut(s: Option<Node>, d: Option<Node>, s': Option<Node>, d': Option<Node>, path: seq<string>,
      named: bool, replaced: bool, way: seq<string>)
  {
    || Settled(s, d, s', d', path, named, replaced) || NotDone(s, d, s', d', path)
    || (path <= way && OnlyMade(s, d, s', d', path))
  }

  lemma {:induction false} CutDown(s: Node, d: Option<Node>, s': Node, d': Node, mode: nat, path: seq<string>,
      named: bool, replaced: bool, way: seq<string>)
    requires s.Dir? && (d.Some? ==> d.value.Dir?) && s'.Dir? && d'.Dir? && path != []
    requires var below, n := if d == None then Dir(mode, map[]) else d.value, path[0];
      Cut(At(s, n), At(below, n), At(s', n), At(d', n), path[1..], named, replaced, way)
    ensures Cut(Some(s), d, Some(s'), Some(d'), path, named, replaced, [path[0]] + way)
  {
    OneDown(s, d, mode, path);
    if path[1..] <= way { assert path == [path[0]] + path[1..] <= [path[0]] + way; }
    hide Clash;
  }

  lemma {:induction false} CutMore(s: Option<Node>, d: Option<Node>, s': Option<Node>, d': Option<Node>,
      path: seq<string>, named: bool, named': bool, replaced: bool, way: seq<string>, way': seq<string>)
    requires Cut(s, d, s', d', path, named, replaced, way) && (named ==> named') && way <= way'
    ensures Cut(s, d, s', d', path, named', replaced, way')
  {
    if Settled(s, d, s', d', path, named, replaced) { SettledMore(s, d, s', d', path, named, named', replaced); }
    hide Settled;
  }

  lemma {:induction false} CutBelow(e: Node, there: Option<Node>, l: Node, d: Node, mode: nat, path: seq<string>,
      named: bool, replaced: bool, way: seq<string>)
    requires e.Dir? && (there.Some? ==> there.value.Dir?) && l.Dir? && d.Dir? && path != []
    requires var below := if there == None then Dir(mode, map[]) else there.value;
      Cut(Some(e), Some(below), Some(l), Some(d), path, named, replaced, way)
    ensures Cut(Some(e), there, Some(l), Some(d), path, named, replaced, way)
  {
    var below := if there == None then Dir(mode, map[]) else there.value;
    if Settled(Some(e), Some(below), Some(l), Some(d), path, named, replaced) {
      SettledBelow(e, there, l, d, mode, path, named, replaced);
    }
    OneDown(e, there, mode, path);
    OneDown(e, Some(below), mode, path);
    hide Clash, Settled;
  }

  /** Every path of a merge that stopped. */
  ghost predicate CutOn(s: Node, d: Node, s': Node, d': Node, rel: string, w: set<Warning>, way: seq<string>) {
    forall path: seq<string> :: path != [] ==>
      Cut(Some(s), Some(d), Some(s'), Some(d'), path, NamedOn(rel, path, w),
        ReplacedMeanwhile(RelName(rel, path)) in w, way)
  }

  /** The directory it stopped in, at that directory and below. */
  lemma {:induction false} StoppedEntry(e: Node, there: Option<Node>, l: Node, d: Node, relName: string,
      w: set<Warning>,
      way: seq<string>, path: seq<string>)
    requires e.Dir? && (there.Some? ==> there.value.Dir?) && l.Dir? && d.Dir? && l.mode == e.mode
    requires d.mode == if there == None then STAGING_MODE else there.value.mode
    requires CutOn(e, if there == None then Dir(STAGING_MODE, map[]) else there.value, l, d, relName, w, way)
    ensures Cut(Some(e), there, Some(l), Some(d), path, Named(relName, w) || NamedOn(relName, path, w),
      ReplacedMeanwhile(RelName(relName, path)) in w, way)
  {
    hide NamedOn, Named, RelName, Under;
    var named, replaced := NamedOn(relName, path, w), ReplacedMeanwhile(RelName(relName, path)) in w;
    if path == [] {
      if there != None { EnteredFinds(e, there, l, d, replaced); }
      assert Cut(Some(e), there, Some(l), Some(d), path, false, replaced, way);
      CutMore(Some(e), there, Some(l), Some(d), path, false, Named(relName, w) || named, replaced, way, way);
    } else {
      hide Cut;
      CutBelow(e, there, l, d, STAGING_MODE, path, named, replaced, way);
      CutMore(Some(e), there, Some(l), Some(d), path, named, Named(relName, w) || named, replaced, way, way);
    }
  }

  lemma {:induction false} FinishedIsCut(s: Node, d: Node, s': Node, d': Node, rel: string, w: set<Warning>)
    requires s.Dir? && d.Dir? && Finished(s, d, s', d', rel, w)
    ensures CutOn(s, d, s', d', rel, w, [])
  {
    hide Finished, Settled, NamedOn, RelName, Under;
    forall path: seq<string> | path != []
      ensures Cut(Some(s), Some(d), Some(s'), Some(d'), path, NamedOn(rel, path, w),
        ReplacedMeanwhile(RelName(rel, path)) in w, [])
    {
      FinishedFinds(s, d, s', d', rel, w, path);
    }
  }

  /** One step down where the way does not matter. */
  lemma {:induction false} PlainDown(s: Node, d: Node, s': Node, d': Node, path: seq<string>, named: bool,
      named': bool, replaced: bool, way: seq<string>)
    requires s.Dir? && d.Dir? && s'.Dir? && d'.Dir? && path != [] && (named ==> named')
    requires var n := path[0];
      || Settled(At(s, n), At(d, n), At(s', n), At(d', n), path[1..], named, replaced)
      || NotDone(At(s, n), At(d, n), At(s', n), At(d', n), path[1..])
    ensures Cut(Some(s), Some(d), Some(s'), Some(d'), path, named', replaced, way)
  {
    var n := path[0];
    if Settled(At(s, n), At(d, n), At(s', n), At(d', n), path[1..], named, replaced) {
      SettledMore(At(s, n), At(d, n), At(s', n), At(d', n), path[1..], named, named', replaced);
      SettledDown(s, Some(d), s', d', 0, path, named', replaced);
    } else {
      OneDown(s, Some(d), 0, path);
    }
    hide Clash, Settled;
  }

  /** Directories on the way that were not there have the mode they were made with. */
  ghost predicate MadeOn(d: Option<Node>, d': Option<Node>, way: seq<string>) {
    forall path: seq<string> :: path != [] && path <= way && Find(d, path) == None ==>
      Find(d', path) == Some(IsDir(STAGING_MODE))
  }

  lemma {:induction false} NothingMade(d: Option<Node>, d': Option<Node>)
    ensures MadeOn(d, d', [])
  {}

  lemma {:induction false} MadeOnDown(d: Node, d': Node, n: string, sub: seq<string>)
    requires d.Dir? && d'.Dir? && At(d', n).Some? && At(d', n).value.Dir? && (At(d, n).Some? ==> At(d, n).value.Dir?)
    requires At(d, n) == None ==> At(d', n).value.mode == STAGING_MODE
    requires MadeOn(if At(d, n) == None then Some(Dir(STAGING_MODE, map[])) else At(d, n), At(d', n), sub)
    ensures MadeOn(Some(d), Some(d'), [n] + sub)
  {
    forall path: seq<string> | path != [] && path <= [n] + sub && Find(Some(d), path) == None
      ensures Find(Some(d'), path) == Some(IsDir(STAGING_MODE))
    {
      assert path[0] == n && path[1..] <= sub;
      assert Find(Some(d), path) == Find(At(d, n), path[1..]) && Find(Some(d'), path) == Find(At(d', n), path[1..]);
      var below := if At(d, n) == None then Some(Dir(STAGING_MODE, map[])) else At(d, n);
      if path[1..] != [] {
        FindInEmpty(STAGING_MODE, path[1..]);
        assert Find(below, path[1..]) == None;
      }
    }
  }

  /** The directory a merge stopped in. */
  ghost predicate Inside(s: Node, d: Node, s': Node, d': Node, rel: string, w: set<Warning>, n: string,
      sub: seq<string>)
    requires s.Dir? && d.Dir? && s'.Dir? && d'.Dir?
  {
    && n in s.entries && s.entries[n].Dir? && At(s', n).Some? && At(d', n).Some?
    && var e, there, l, live := s.entries[n], At(d, n), At(s', n).value, At(d', n).value;
       && (there.Some? ==> there.value.Dir?) && l.Dir? && live.Dir? && l.mode == e.mode
       && live.mode == (if there == None then STAGING_MODE else there.value.mode)
       && CutOn(e, if there == None then Dir(STAGING_MODE, map[]) else there.value, l, live, Under(rel, n), w, sub)
       && MadeOn(Some(if there == None then Dir(STAGING_MODE, map[]) else there.value), Some(live), sub)
  }

  lemma {:induction false} InsideAtPath(s: Node, d: Node, s': Node, d': Node, rel: string, w: set<Warning>,
      sub: seq<string>, path: seq<string>, named: bool, replaced: bool)
    requires s.Dir? && d.Dir? && s'.Dir? && d'.Dir? && path != [] && Inside(s, d, s', d', rel, w, path[0], sub)
    requires var r := Under(rel, path[0]);
      && named == (Named(r, w) || NamedOn(r, path[1..], w))
      && replaced == (ReplacedMeanwhile(RelName(r, path[1..])) in w)
    ensures Cut(Some(s), Some(d), Some(s'), Some(d'), path, named, replaced, [path[0]] + sub)
  {
    var n := path[0];
    hide Settled, NamedOn, Named, RelName, Cut, CutOn, Under;
    StoppedEntry(s.entries[n], At(d, n), At(s', n).value, At(d', n).value, Under(rel, n), w, sub, path[1..]);
    CutDown(s, Some(d), s', d', 0, path, named, replaced, sub);
  }

  lemma {:induction false} OtherAtPath(s: Node, d: Node, s': Node, d': Node, rel: string, w: set<Warning>,
      way: seq<string>, path: seq<string>, named: bool, replaced: bool)
    requires s.Dir? && d.Dir? && s'.Dir? && d'.Dir? && path != []
    requires var n, r := path[0], Under(rel, path[0]);
      && named == (Named(r, w) || NamedOn(r, path[1..], w))
      && replaced == (ReplacedMeanwhile(RelName(r, path[1..])) in w)
      && (n !in s.entries ==> At(s', n) == None)
      && (((n in s.entries ==> At(s', n) == Some(s.entries[n])) && At(d', n) == At(d, n))
          || (n in s.entries && FinishedAt(s.entries[n], At(d, n), At(s', n), At(d', n), r, w)))
    ensures Cut(Some(s), Some(d), Some(s'), Some(d'), path, named, replaced, way)
  {
    var n, r := path[0], Under(rel, path[0]);
    hide Settled, NamedOn, Named, RelName, Cut, FinishedAt, Under;
    if n !in s.entries {
      SettledNothing(At(d, n), path[1..], replaced);
      PlainDown(s, d, s', d', path, false, named, replaced, way);
    } else if FinishedAt(s.entries[n], At(d, n), At(s', n), At(d', n), r, w) {
      EntryFinds(s.entries[n], At(d, n), At(s', n), At(d', n), r, w, path[1..]);
      PlainDown(s, d, s', d', path, named, named, replaced, way);
    } else {
      PlainDown(s, d, s', d', path, false, named, replaced, way);
    }
  }

  /** At every path, by its first name: the directory it stopped in, or any other entry. */
  lemma {:induction false} CutAtPath(s: Node, d: Node, s': Node, d': Node, rel: string, w: set<Warning>,
      at: Option<string>, sub: seq<string>, path: seq<string>)
    requires s.Dir? && d.Dir? && s'.Dir? && d'.Dir? && path != [] && StoppedIn(s, d, s', d', rel, w, at)
    requires forall n :: n !in s.entries ==> At(s', n) == None && At(d', n) == At(d, n)
    requires at.Some? ==> Inside(s, d, s', d', rel, w, at.value, sub)
    ensures Cut(Some(s), Some(d), Some(s'), Some(d'), path, NamedOn(rel, path, w),
      ReplacedMeanwhile(RelName(rel, path)) in w, if at == None then [] else [at.value] + sub)
  {
    NamedBelow(rel, path, w);
    var named, replaced := NamedOn(rel, path, w), ReplacedMeanwhile(RelName(rel, path)) in w;
    assert RelName(rel, path) == RelName(Under(rel, path[0]), path[1..]);
    hide NamedOn, Named, RelName, Cut, StoppedAt, FinishedAt, Inside, Under;
    if at == Some(path[0]) {
      InsideAtPath(s, d, s', d', rel, w, sub, path, named, replaced);
    } else {
      OtherAtPath(s, d, s', d', rel, w, if at == None then [] else [at.value] + sub, path, named, replaced);
    }
  }

  /** The same of a merge that stopped: the directories with the mode they were made with
      are those on one way down that were not there before, and those replaced meanwhile. */
  lemma {:induction false} StoppedFinds(s: Node, d: Node, s': Node, d': Node, rel: string, w: set<Warning>)
      returns (way: seq<string>)
    requires s.Dir? && d.Dir? && Stopped(s, d, s', d', rel, w)
    ensures CutOn(s, d, s', d', rel, w, way) && MadeOn(Some(d), Some(d'), way)
    decreases s
  {
    var at, sub := StoppedInside(s, d, s', d', rel, w);
    way := if at == None then [] else [at.value] + sub;
    if at.Some? { MadeOnDown(d, d', at.value, sub); }
    hide Cut, RelName, NamedOn, Inside, StoppedIn, Under, MadeOn;
    forall path: seq<string> | path != []
      ensures Cut(Some(s), Some(d), Some(s'), Some(d'), path, NamedOn(rel, path, w),
        ReplacedMeanwhile(RelName(rel, path)) in w, way)
    {
      CutAtPath(s, d, s', d', rel, w, at, sub, path);
    }
  }

  lemma {:induction false} StoppedInside(s: Node, d: Node, s': Node, d': Node, rel: string, w: set<Warning>)
      returns (at: Option<string>, sub: seq<string>)
    requires s.Dir? && d.Dir? && Stopped(s, d, s', d', rel, w)
    ensures s'.Dir? && d'.Dir? && StoppedIn(s, d, s', d', rel, w, at)
    ensures at.Some? ==> Inside(s, d, s', d', rel, w, at.value, sub)
    decreases s, 0
  {
    hide CutOn, Finished, FinishedAt, MadeOn;
    NothingMade(Some(d), Some(d'));
    var found: Option<string> :| StoppedIn(s, d, s', d', rel, w, found);
    at, sub := None, [];
    if found.Some? && found.value in s.entries {
      var n := found.value;
      var e, there, r := s.entries[n], At(d, n), Under(rel, n);
      if StoppedAt(e, there, At(s', n), At(d', n), r, w) {
        var below := if there == None then Dir(STAGING_MODE, map[]) else there.value;
        var l, live := At(s', n).value, At(d', n).value;
        at := found;
        if Stopped(e, below, l, live, r, w) {
          sub := StoppedFinds(e, below, l, live, r, w);
        } else {
          FinishedModes(e, below, l, live, r, w);
          FinishedIsCut(e, below, l, live, r, w);
          NothingMade(Some(below), Some(live));
        }
      }
    }
  }

  lemma {:induction false} FinishedModes(s: Node, d: Node, s': Node, d': Node, rel: string, w: set<Warning>)
    requires s.Dir? && d.Dir? && Finished(s, d, s', d', rel, w)
    ensures s'.Dir? && d'.Dir? && s'.mode == s.mode && d'.mode == d.mode
  {}

  lemma {:induction false} NamedBelow(rel: string, path: seq<string>, w: set<Warning>)
    requires path != []
    ensures NamedOn(rel, path, w) <==> Named(Under(rel, path[0]), w) || NamedOn(Under(rel, path[0]), path[1..], w)
  {
    hide Named;
    var r := Under(rel, path[0]);
    forall k | 1 <= k <= |path| ensures RelName(rel, path[..k]) == RelName(r, path[1..][..k - 1]) {
      assert path[..k][1..] == path[1..][..k - 1] && path[..k][0] == path[0];
    }
    assert path[1..][..0] == [];
    if NamedOn(r, path[1..], w) {
      var k :| 1 <= k <= |path[1..]| && Named(RelName(r, path[1..][..k]), w);
      assert (k + 1) - 1 == k && Named(RelName(rel, path[..k + 1]), w);
    }
    if Named(r, w) { assert Named(RelName(rel, path[..1]), w); }
    if NamedOn(rel, path, w) && !Named(r, w) {
      var k :| 1 <= k <= |path| && Named(RelName(rel, path[..k]), w);
      assert Named(RelName(r, path[1..][..k - 1]), w) && k != 1;
    }
  }

  /** The warnings given after the first n. */
  function Since(given: seq<Warning>, n: nat): set<Warning>
    requires n <= |given|
  {
    set m | m in given[n..]
  }

  lemma {:induction false} SinceMore(given: seq<Warning>, given': seq<Warning>, n: nat)
    requires n <= |given| && given <= given'
    ensures Since(given', n) == Since(given, n) + Since(given', |given|)
  {
    assert given'[n..] == given[n..] + given'[|given|..];
  }

  lemma {:induction false} JustGiven(given: seq<Warning>, m: Warning)
    ensures m in Since(given + [m], |given|)
  {
    assert (given + [m])[|given|..] == [m];
  }

  /** Of all the warnings given the first are kept, and one line says there were more. */
  function Kept(given: seq<Warning>): seq<Warning> {
    if |given| <= MAX_MERGE_WARN then given else given[..MAX_MERGE_WARN] + [MoreSkipped]
  }

  class MergeResult {
    var moved: nat
    var warnings: seq<Warning>
    /** All the warnings there were. */
    ghost var given: seq<Warning>
    /** How many calls failed. */
    ghost var faults: nat

    constructor ()
      ensures moved == 0 && warnings == given == [] && faults == 0
    {
      moved, warnings, given, faults := 0, [], [], 0;
    }

    /** One more warning given; what is kept of all of them. */
    method Warn(message: Warning)
      modifies this`warnings, this`given
      ensures given == old(given) + [message] && old(warnings) <= warnings
      ensures old(warnings) == Kept(old(given)) ==> warnings == Kept(given)
    {
      given := given + [message];
      if |warnings| < MAX_MERGE_WARN {
        warnings := warnings + [message];
      } else if |warnings| == MAX_MERGE_WARN {
        warnings := warnings + [MoreSkipped];
      }
    }
  }

  /** No warning is taken back; those kept are still those of all that were given. */
  twostate predicate Noted(res: MergeResult)
    reads res
  {
    && old(res.warnings) <= res.warnings && old(res.given) <= res.given && old(res.faults) <= res.faults
    && (old(res.warnings) == Kept(old(res.given)) ==> res.warnings == Kept(res.given))
  }

  /** Done without a failure: the complete merge of one entry. */
  ghost predicate Complete(e: Node, there: Option<Node>, left: Option<Node>, live: Option<Node>) {
    left == StayAt(e, there) && live == Some(LiveAt(e, there))
  }

  lemma {:induction false} FileOutcomes(e: Node, there: Option<Node>)
    requires e.File?
    ensures Count(e) == 1 && MergedAt(e, there, Some(e), there)
    ensures there.Some? && there.value.Dir? ==> Complete(e, there, Some(e), there)
    ensures !(there.Some? && there.value.Dir?) ==>
      MergedAt(e, there, None, Some(e)) && Complete(e, there, None, Some(e))
  {}

  /** One staged entry that is not a directory; there is what the destination has. */
  method MergeFile(e: Node, there: Option<Node>, relName: string, res: MergeResult)
      returns (left: Option<Node>, live: Option<Node>, ok: bool)
    requires e.File?
    modifies res
    ensures MergedAt(e, there, left, live) && Noted(res)
    ensures res.moved + CountAt(left) == old(res.moved) + Count(e)
    ensures res.faults == old(res.faults) ==> ok && Complete(e, there, left, live)
    ensures if ok then FinishedAt(e, there, left, live, relName, Since(res.given, |old(res.given)|))
            else left == Some(e) && live == there
    ensures TrueAt(Since(res.given, |old(res.given)|), e, left, relName)
    ensures Named(relName, Since(res.given, |old(res.given)|)) ==> ok
  {
    TrueNothing(e, Some(e), relName, res.given);
    TrueNothing(e, None, relName, res.given);
    NothingNamed(relName, res.given);
    hide Merged, MergedAt, Live, Stay, Complete, Count;
    FileOutcomes(e, there);
    var broke: bool := *;
    if broke && there.Some? {
      res.faults := res.faults + 1;
      return Some(e), there, false;
    }
    if there.Some? && there.value.Dir? {
      res.Warn(IsDirectoryThere(relName));
      SkippedHere(e, there, IsDirectoryThere(relName), old(res.given));
      return Some(e), there, true;
    }
    var renamed: Renamed := *;
    if renamed.Done? {
      res.moved := res.moved + 1;
      return None, Some(e), true;
    }
    res.faults := res.faults + 1;
    if renamed.ChangedType? {
      res.Warn(TypeChanged(relName));
      SkippedHere(e, there, TypeChanged(relName), old(res.given));
      return Some(e), there, true;
    }
    if renamed.OtherVolume? {
      res.Warn(OnOtherVolume(relName));
      SkippedHere(e, there, OnOtherVolume(relName), old(res.given));
      return Some(e), there, true;
    }
    return Some(e), there, false;
  }

  lemma {:induction false} NothingNamed(relName: string, given: seq<Warning>)
    ensures !Named(relName, Since(given, |given|))
  {}

  /** The warnings of a directory's entries do not name the directory. */
  lemma {:induction false} NotItself(w: set<Warning>, s: Node, staged: Node, rel: string, done: set<string>)
    requires s.Dir? && staged.Dir? && True(w, s, staged, rel, done)
    ensures !Named(rel, w)
  {
    hide Stays;
    forall m | m in w && !m.MoreSkipped? ensures m.relName != rel {
      var path :| path != [] && RelName(rel, path) == m.relName;
      RelNameIs(rel, path);
    }
  }

  lemma {:induction false} SkippedHere(e: Node, there: Option<Node>, m: Warning, given: seq<Warning>)
    requires !m.MoreSkipped?
    ensures FinishedAt(e, there, Some(e), there, m.relName, Since(given + [m], |given|))
    ensures TrueAt(Since(given + [m], |given|), e, Some(e), m.relName)
  {
    TrueHere(e, m, given);
    JustGiven(given, m);
    assert Named(m.relName, Since(given + [m], |given|));
  }

  lemma {:induction false} UntouchedDir(s: Node, mode: nat)
    requires s.Dir?
    ensures Merged(s, Dir(mode, map[]), s, Dir(mode, map[]))
  {}

  /** A new directory gets the staged mode once it is filled. */
  lemma {:induction false} ModeOnly(s: Node, mode: nat, mode': nat, s': Node, d': Node)
    requires s.Dir? && Merged(s, Dir(mode, map[]), s', d')
    ensures Merged(s, Dir(mode', map[]), s', Dir(mode', d'.entries))
  {
    var d, e, e' := Dir(mode, map[]), Dir(mode', map[]), Dir(mode', d'.entries);
    forall n | n in s.entries ensures MergedAt(s.entries[n], At(e, n), At(s', n), At(e', n)) {
      assert At(e, n) == At(d, n) && At(e', n) == At(d', n);
    }
    forall n | n !in s.entries ensures At(e', n) == At(e, n) { assert At(d', n) == At(d, n); }
  }

  lemma {:induction false} ModeComplete(s: Node, mode: nat, mode': nat)
    requires s.Dir?
    ensures Stay(s, Dir(mode, map[])) == Stay(s, Dir(mode', map[]))
    ensures Dir(mode', Live(s, Dir(mode, map[])).entries) == Live(s, Dir(mode', map[]))
  {
    var d, d' := Dir(mode, map[]), Dir(mode', map[]);
    forall n: string
      ensures At(Stay(s, d), n) == At(Stay(s, d'), n) && At(Dir(mode', Live(s, d).entries), n) == At(Live(s, d'), n)
    {
      assert At(d, n) == At(d', n);
      LiveName(s, d, n);
      LiveName(s, d', n);
      assert At(Dir(mode', Live(s, d).entries), n) == At(Live(s, d), n);
    }
    SameDir(Stay(s, d), Stay(s, d'));
    SameDir(Dir(mode', Live(s, d).entries), Live(s, d'));
  }

  /** One staged directory: entered where there is one, made where there is nothing. */
  method MergeDir(e: Node, there: Option<Node>, relName: string, res: MergeResult)
      returns (left: Option<Node>, live: Option<Node>, ok: bool)
    requires e.Dir?
    modifies res
    ensures MergedAt(e, there, left, live) && Noted(res)
    ensures res.moved + CountAt(left) == old(res.moved) + Count(e)
    ensures res.faults == old(res.faults) ==> ok && Complete(e, there, left, live)
    ensures var w := Since(res.given, |old(res.given)|);
      if ok then FinishedAt(e, there, left, live, relName, w)
      else (left == Some(e) && live == there) || StoppedAt(e, there, left, live, relName, w)
    ensures TrueAt(Since(res.given, |old(res.given)|), e, left, relName)
    ensures Named(relName, Since(res.given, |old(res.given)|)) ==> ok
    decreases e, 2
  {
    hide Merged, MergedAt, Live, Stay, Count, TrueAt, Named, Since;
    NothingNamed(relName, res.given);
    TrueNothing(e, Some(e), relName, res.given);
    var broke: bool := *;
    if broke {
      res.faults := res.faults + 1;
      Untouched(e, there);
      return Some(e), there, false;
    }
    var dchild, created := there, false;
    if there == None {
      var made: bool, opened': bool := *, *;
      if !made {
        res.faults := res.faults + 1;
        res.Warn(NotDirectoryThere(relName));
        SkippedHere(e, there, NotDirectoryThere(relName), old(res.given));
        Untouched(e, there);
        return Some(e), there, true;
      }
      dchild, created := Some(Dir(STAGING_MODE, map[])), true;
      if !opened' {
        res.faults := res.faults + 1;
        res.Warn(ReplacedMeanwhile(relName));
        MadeOnly(e);
        ReplacedHere(e, relName, old(res.given));
        return Some(e), dchild, true;
      }
    } else {
      var refused: bool := *;
      if there.value.File? || refused {
        if there.value.Dir? { res.faults := res.faults + 1; }
        res.Warn(NotDirectoryThere(relName));
        SkippedHere(e, there, NotDirectoryThere(relName), old(res.given));
        Untouched(e, there);
        SkippedComplete(e, there);
        return Some(e), there, true;
      }
    }
    var l, d;
    l, d, ok := MergeInto(e, dchild.value, relName, res);
    TrueEntered(Since(res.given, |old(res.given)|), e, l, relName);
    NotItself(Since(res.given, |old(res.given)|), e, l, relName, e.entries.Keys);
    var chmod: bool := *;
    if ok && created {
      if chmod {
        ModeOnly(e, STAGING_MODE, e.mode, l, d);
        ModeComplete(e, STAGING_MODE, e.mode);
        ModeFinished(e, STAGING_MODE, e.mode, l, d, relName, Since(res.given, |old(res.given)|));
        d := Dir(e.mode, d.entries);
      } else {
        res.faults := res.faults + 1;
        ok := false;
      }
    }
    EnteredMerged(e, there, l, d);
    EnteredComplete(e, there);
    return Some(l), Some(d), ok;
  }

  lemma {:induction false} ReplacedHere(e: Node, relName: string, given: seq<Warning>)
    requires e.Dir?
    ensures FinishedAt(e, None, Some(e), Some(Dir(STAGING_MODE, map[])), relName,
      Since(given + [ReplacedMeanwhile(relName)], |given|))
    ensures TrueAt(Since(given + [ReplacedMeanwhile(relName)], |given|), e, Some(e), relName)
  {
    TrueHere(e, ReplacedMeanwhile(relName), given);
    JustGiven(given, ReplacedMeanwhile(relName));
    assert Named(relName, Since(given + [ReplacedMeanwhile(relName)], |given|));
  }

  lemma {:induction false} ModeFinished(s: Node, mode: nat, mode': nat, s': Node, d': Node, rel: string,
      w: set<Warning>)
    requires s.Dir? && Finished(s, Dir(mode, map[]), s', d', rel, w)
    ensures Finished(s, Dir(mode', map[]), s', Dir(mode', d'.entries), rel, w)
  {
    var d, e, e' := Dir(mode, map[]), Dir(mode', map[]), Dir(mode', d'.entries);
    forall n | n in s.entries ensures FinishedAt(s.entries[n], At(e, n), At(s', n), At(e', n), Under(rel, n), w) {
      assert At(e, n) == At(d, n) && At(e', n) == At(d', n);
    }
    forall n | n !in s.entries ensures At(e', n) == At(e, n) { assert At(d', n) == At(d, n); }
  }

  lemma {:induction false} Untouched(e: Node, there: Option<Node>)
    ensures MergedAt(e, there, Some(e), there)
  {}

  lemma {:induction false} MadeOnly(e: Node)
    requires e.Dir?
    ensures MergedAt(e, None, Some(e), Some(Dir(STAGING_MODE, map[])))
  {
    UntouchedDir(e, STAGING_MODE);
  }

  lemma {:induction false} SkippedComplete(e: Node, there: Option<Node>)
    requires e.Dir? && there.Some?
    ensures there.value.File? ==> Complete(e, there, Some(e), there)
  {}

  lemma {:induction false} EnteredMerged(e: Node, there: Option<Node>, l: Node, d: Node)
    requires e.Dir? && l.Dir? && d.Dir? && (there.Some? ==> there.value.Dir? && Merged(e, there.value, l, d))
    requires there == None ==> d.mode in {STAGING_MODE, e.mode} && Merged(e, Dir(d.mode, map[]), l, d)
    ensures MergedAt(e, there, Some(l), Some(d))
  {}

  lemma {:induction false} EnteredComplete(e: Node, there: Option<Node>)
    requires e.Dir? && (there.Some? ==> there.value.Dir?)
    ensures var below := if there == None then Dir(e.mode, map[]) else there.value;
            Complete(e, there, Some(Stay(e, below)), Some(Live(e, below)))
  {}

  /** Where the loop over src's entries is: what is not done is as it was, the rest merged,
      completely if nothing failed. */
  ghost predicate Going(src: Node, dst: Node, staged: Node, live: Node, todo: set<string>, clean: bool)
    requires src.Dir? && dst.Dir?
  {
    && staged.Dir? && live.Dir? && staged.mode == src.mode && live.mode == dst.mode && todo <= src.entries.Keys
    && (forall n :: n in todo ==> At(staged, n) == At(src, n) && At(live, n) == At(dst, n))
    && (forall n :: n !in src.entries ==> At(staged, n) == None && At(live, n) == At(dst, n))
    && (forall n :: n in src.entries && n !in todo ==> MergedAt(src.entries[n], At(dst, n), At(staged, n), At(live, n)))
    && (clean ==> forall n :: n in src.entries && n !in todo ==>
      Complete(src.entries[n], At(dst, n), At(staged, n), At(live, n)))
  }

  lemma {:induction false} GoingStart(src: Node, dst: Node)
    requires src.Dir? && dst.Dir?
    ensures Going(src, dst, src, dst, src.entries.Keys, true)
  {}

  lemma {:induction false} GoingStep(src: Node, dst: Node, staged: Node, live: Node, todo: set<string>, clean: bool,
      name: string, left: Option<Node>, put: Option<Node>, clean': bool)
    requires src.Dir? && dst.Dir? && Going(src, dst, staged, live, todo, clean) && name in todo
    requires MergedAt(src.entries[name], At(dst, name), left, put)
    requires clean' ==> clean && Complete(src.entries[name], At(dst, name), left, put)
    ensures Going(src, dst, Put(staged, name, left), Put(live, name, put), todo - {name}, clean')
  {
    hide MergedAt, Complete;
  }

  lemma {:induction false} GoingMerged(src: Node, dst: Node, staged: Node, live: Node, todo: set<string>, clean: bool)
    requires src.Dir? && dst.Dir? && Going(src, dst, staged, live, todo, clean)
    ensures Merged(src, dst, staged, live)
    ensures staged.Dir? && live.Dir? && live.mode == dst.mode
  {
    forall n | n in src.entries ensures MergedAt(src.entries[n], At(dst, n), At(staged, n), At(live, n)) {
      if n in todo { Untouched(src.entries[n], At(dst, n)); }
    }
  }

  lemma {:induction false} GoingDone(src: Node, dst: Node, staged: Node, live: Node)
    requires src.Dir? && dst.Dir? && Going(src, dst, staged, live, {}, true)
    ensures staged == Stay(src, dst) && live == Live(src, dst)
  {
    forall n: string ensures At(staged, n) == At(Stay(src, dst), n) && At(live, n) == At(Live(src, dst), n) {
      LiveName(src, dst, n);
    }
    SameDir(staged, Stay(src, dst));
    SameDir(live, Live(src, dst));
  }

  /** The same with the warnings given: what is done is moved, entered, made, or named. */
  ghost predicate GoingOn(src: Node, dst: Node, staged: Node, live: Node, todo: set<string>, rel: string,
      w: set<Warning>)
    requires src.Dir? && dst.Dir?
  {
    && staged.Dir? && live.Dir? && staged.mode == src.mode && live.mode == dst.mode && todo <= src.entries.Keys
    && (forall n :: n in todo ==> At(staged, n) == At(src, n) && At(live, n) == At(dst, n))
    && (forall n :: n !in src.entries ==> At(staged, n) == None && At(live, n) == At(dst, n))
    && (forall n :: n in src.entries && n !in todo ==>
          FinishedAt(src.entries[n], At(dst, n), At(staged, n), At(live, n), Under(rel, n), w))
  }

  lemma {:induction false} GoingOnStart(src: Node, dst: Node, rel: string, w: set<Warning>)
    requires src.Dir? && dst.Dir?
    ensures GoingOn(src, dst, src, dst, src.entries.Keys, rel, w) && Stopped(src, dst, src, dst, rel, w)
  {
    assert StoppedIn(src, dst, src, dst, rel, w, None);
  }

  lemma {:induction false} GoingOnStep(src: Node, dst: Node, staged: Node, live: Node, todo: set<string>, rel: string,
      w: set<Warning>, w': set<Warning>, name: string, left: Option<Node>, put: Option<Node>)
    requires src.Dir? && dst.Dir? && GoingOn(src, dst, staged, live, todo, rel, w) && name in todo && w <= w'
    requires FinishedAt(src.entries[name], At(dst, name), left, put, Under(rel, name), w')
    ensures GoingOn(src, dst, Put(staged, name, left), Put(live, name, put), todo - {name}, rel, w')
  {
    hide FinishedAt;
    var s', d' := Put(staged, name, left), Put(live, name, put);
    forall n | n in src.entries && n !in todo - {name}
      ensures FinishedAt(src.entries[n], At(dst, n), At(s', n), At(d', n), Under(rel, n), w')
    {
      if n != name { MoreWarnings(src.entries[n], At(dst, n), At(staged, n), At(live, n), Under(rel, n), w, w'); }
    }
  }

  /** The merge stops at an entry left as it was, or in the directory it is. */
  lemma {:induction false} GoingStops(src: Node, dst: Node, staged: Node, live: Node, todo: set<string>, rel: string,
      w: set<Warning>, w': set<Warning>, name: string, left: Option<Node>, put: Option<Node>)
    requires src.Dir? && dst.Dir? && GoingOn(src, dst, staged, live, todo, rel, w) && name in todo && w <= w'
    requires (left == Some(src.entries[name]) && put == At(dst, name))
      || StoppedAt(src.entries[name], At(dst, name), left, put, Under(rel, name), w')
    ensures Stopped(src, dst, Put(staged, name, left), Put(live, name, put), rel, w')
  {
    hide FinishedAt, StoppedAt;
    var s', d' := Put(staged, name, left), Put(live, name, put);
    forall n | n in src.entries && n !in todo
      ensures FinishedAt(src.entries[n], At(dst, n), At(s', n), At(d', n), Under(rel, n), w')
    {
      MoreWarnings(src.entries[n], At(dst, n), At(staged, n), At(live, n), Under(rel, n), w, w');
    }
    assert StoppedIn(src, dst, s', d', rel, w', Some(name));
  }

  lemma {:induction false} GoingEnds(src: Node, dst: Node, staged: Node, live: Node, rel: string, w: set<Warning>)
    requires src.Dir? && dst.Dir? && GoingOn(src, dst, staged, live, {}, rel, w)
    ensures Finished(src, dst, staged, live, rel, w)
  {
    hide FinishedAt;
  }

  /** Both: what is done is accounted for by the warnings, and these are true. */
  ghost predicate Progress(src: Node, dst: Node, staged: Node, live: Node, todo: set<string>, rel: string,
      w: set<Warning>)
    requires src.Dir? && dst.Dir?
  {
    GoingOn(src, dst, staged, live, todo, rel, w) && True(w, src, staged, rel, src.entries.Keys - todo)
  }

  lemma {:induction false} ProgressStart(src: Node, dst: Node, rel: string, given: seq<Warning>)
    requires src.Dir? && dst.Dir?
    ensures Progress(src, dst, src, dst, src.entries.Keys, rel, Since(given, |given|))
    ensures Stopped(src, dst, src, dst, rel, Since(given, |given|))
    ensures True(Since(given, |given|), src, src, rel, src.entries.Keys)
  {
    GoingOnStart(src, dst, rel, Since(given, |given|));
    TrueStart(src, rel, given, src.entries.Keys);
    TrueStart(src, rel, given, src.entries.Keys - src.entries.Keys);
  }

  /** One more entry, with what was given meanwhile. */
  lemma {:induction false} ProgressStep(src: Node, dst: Node, staged: Node, live: Node, todo: set<string>, rel: string,
      old': seq<Warning>, given: seq<Warning>, n: nat, name: string, left: Option<Node>, put: Option<Node>, ok: bool)
    requires src.Dir? && dst.Dir? && n <= |old'| && old' <= given && name in todo
    requires Progress(src, dst, staged, live, todo, rel, Since(old', n)) && name in src.entries
    requires var e, there, more := src.entries[name], At(dst, name), Since(given, |old'|);
      && TrueAt(more, e, left, Under(rel, name))
      && if ok then FinishedAt(e, there, left, put, Under(rel, name), more)
         else (left == Some(e) && put == there) || StoppedAt(e, there, left, put, Under(rel, name), more)
    ensures var w, staged', live' := Since(given, n), Put(staged, name, left), Put(live, name, put);
      if ok then Progress(src, dst, staged', live', todo - {name}, rel, w)
      else Stopped(src, dst, staged', live', rel, w) && True(w, src, staged', rel, src.entries.Keys)
  {
    var e, there, more, r := src.entries[name], At(dst, name), Since(given, |old'|), Under(rel, name);
    var w, w' := Since(old', n), Since(given, n);
    SinceMore(old', given, n);
    hide FinishedAt, StoppedAt, Stopped, GoingOn, True, TrueAt, Since;
    assert staged.Dir? by { GoingDirs(src, dst, staged, live, todo, rel, w); }
    TrueStep(w, more, src, staged, rel, src.entries.Keys - todo, name, left);
    assert src.entries.Keys - todo + {name} == src.entries.Keys - (todo - {name});
    if ok {
      MoreWarnings(e, there, left, put, r, more, w');
      GoingOnStep(src, dst, staged, live, todo, rel, w, w', name, left, put);
    } else {
      StoppedMore(e, there, left, put, r, more, w');
      GoingStops(src, dst, staged, live, todo, rel, w, w', name, left, put);
      TrueMore(w', src, Put(staged, name, left), rel, src.entries.Keys - (todo - {name}), src.entries.Keys);
    }
  }

  lemma {:induction false} GoingDirs(src: Node, dst: Node, staged: Node, live: Node, todo: set<string>, rel: string,
      w: set<Warning>)
    requires src.Dir? && dst.Dir? && GoingOn(src, dst, staged, live, todo, rel, w)
    ensures staged.Dir? && live.Dir? && todo <= src.entries.Keys
  {}

  lemma {:induction false} ProgressEnds(src: Node, dst: Node, staged: Node, live: Node, rel: string, w: set<Warning>)
    requires src.Dir? && dst.Dir? && Progress(src, dst, staged, live, {}, rel, w)
    ensures Finished(src, dst, staged, live, rel, w) && True(w, src, staged, rel, src.entries.Keys)
  {
    hide FinishedAt;
    GoingEnds(src, dst, staged, live, rel, w);
    assert src.entries.Keys - {} == src.entries.Keys;
  }

  /** mergeInto, whatever the order the entries are read in and whatever fails: a merge,
      complete when nothing failed; the files moved and those left add up. */
  method MergeInto(src: Node, dst: Node, rel: string, res: MergeResult) returns (staged: Node, live: Node, ok: bool)
    requires src.Dir? && dst.Dir?
    modifies res
    ensures Merged(src, dst, staged, live) && Noted(res)
    ensures staged.Dir? && live.Dir? && live.mode == dst.mode
    ensures res.moved + Count(staged) == old(res.moved) + Count(src)
    ensures res.faults == old(res.faults) ==> ok && staged == Stay(src, dst) && live == Live(src, dst)
    ensures var w := Since(res.given, |old(res.given)|);
      && True(w, src, staged, rel, src.entries.Keys)
      && if ok then Finished(src, dst, staged, live, rel, w) else Stopped(src, dst, staged, live, rel, w)
    decreases src, 1
  {
    hide Merged, MergedAt, Live, Stay, Count, Complete, Going, Progress, Finished, FinishedAt, Stopped, StoppedAt,
      Under, Since, True, TrueAt;
    staged, live, ok := src, dst, true;
    GoingStart(src, dst);
    ProgressStart(src, dst, rel, res.given);
    var broke: bool := *;
    if broke {
      res.faults := res.faults + 1;
      GoingMerged(src, dst, staged, live, src.entries.Keys, true);
      return src, dst, false;
    }
    var todo := src.entries.Keys;
    while todo != {}
      invariant Going(src, dst, staged, live, todo, res.faults == old(res.faults)) && Noted(res)
      invariant Progress(src, dst, staged, live, todo, rel, Since(res.given, |old(res.given)|))
      invariant staged.Dir? && live.Dir? && todo <= src.entries.Keys
      invariant res.moved + Count(staged) == old(res.moved) + Count(src) && ok
      decreases |todo|
    {
      var name :| name in todo;
      var e, left, put := src.entries[name], None, None;
      GoingAt(src, dst, staged, live, todo, res.faults == old(res.faults), name);
      ghost var clean, given := res.faults == old(res.faults), res.given;
      if e.Dir? {
        left, put, ok := MergeDir(e, At(dst, name), Under(rel, name), res);
      } else {
        left, put, ok := MergeFile(e, At(dst, name), Under(rel, name), res);
      }
      GoingStep(src, dst, staged, live, todo, clean, name, left, put, res.faults == old(res.faults));
      ProgressStep(src, dst, staged, live, todo, rel, given, res.given, |old(res.given)|, name, left, put, ok);
      CountPut(staged, name, left);
      staged, live, todo := Put(staged, name, left), Put(live, name, put), todo - {name};
      if !ok {
        GoingMerged(src, dst, staged, live, todo, res.faults == old(res.faults));
        return;
      }
    }
    GoingMerged(src, dst, staged, live, todo, res.faults == old(res.faults));
    ProgressEnds(src, dst, staged, live, rel, Since(res.given, |old(res.given)|));
    if res.faults == old(res.faults) { GoingDone(src, dst, staged, live); }
  }

  lemma {:induction false} StoppedMore(e: Node, there: Option<Node>, left: Option<Node>, live: Option<Node>,
      relName: string, w: set<Warning>, w': set<Warning>)
    requires w <= w'
    ensures StoppedAt(e, there, left, live, relName, w) ==> StoppedAt(e, there, left, live, relName, w')
    decreases e, 1
  {
    if StoppedAt(e, there, left, live, relName, w) {
      var below := if there == None then Dir(STAGING_MODE, map[]) else there.value;
      if Stopped(e, below, left.value, live.value, relName, w) {
        StoppedInMore(e, below, left.value, live.value, relName, w, w');
      } else {
        FinishedMore(e, below, left.value, live.value, relName, w, w');
      }
    }
  }

  lemma {:induction false} StoppedInMore(s: Node, d: Node, s': Node, d': Node, rel: string, w: set<Warning>,
      w': set<Warning>)
    requires s.Dir? && d.Dir? && Stopped(s, d, s', d', rel, w) && w <= w'
    ensures Stopped(s, d, s', d', rel, w')
    decreases s, 0
  {
    var at: Option<string> :| StoppedIn(s, d, s', d', rel, w, at);
    forall n | n in s.entries
      ensures FinishedAt(s.entries[n], At(d, n), At(s', n), At(d', n), Under(rel, n), w) ==>
        FinishedAt(s.entries[n], At(d, n), At(s', n), At(d', n), Under(rel, n), w')
      ensures StoppedAt(s.entries[n], At(d, n), At(s', n), At(d', n), Under(rel, n), w) ==>
        StoppedAt(s.entries[n], At(d, n), At(s', n), At(d', n), Under(rel, n), w')
    {
      var e := s.entries[n];
      if FinishedAt(e, At(d, n), At(s', n), At(d', n), Under(rel, n), w) {
        MoreWarnings(e, At(d, n), At(s', n), At(d', n), Under(rel, n), w, w');
      }
      StoppedMore(e, At(d, n), At(s', n), At(d', n), Under(rel, n), w, w');
    }
    hide FinishedAt, StoppedAt;
    assert StoppedIn(s, d, s', d', rel, w', at);
  }

  lemma {:induction false} GoingAt(src: Node, dst: Node, staged: Node, live: Node, todo: set<string>, clean: bool,
      name: string)
    requires src.Dir? && dst.Dir? && Going(src, dst, staged, live, todo, clean) && name in todo
    ensures name in src.entries && staged.Dir? && live.Dir? && At(staged, name) == Some(src.entries[name])
      && At(live, name) == At(dst, name)
  {}

  /** The complete merge of two trees, path by path, whatever the order. */
  lemma {:induction false} MergeFinds(src: Node, dst: Node, path: seq<string>)
    requires src.Dir? && dst.Dir?
    ensures var s, d := Find(Some(src), path), Find(Some(dst), path);
            var clash := Clash(Some(src), Some(dst), path);
            && Find(Some(Live(src, dst)), path) == (if clash then d else Over(s, d))
            && Find(Some(Stay(src, dst)), path) == (if clash || (s.Some? && s.value.IsDir?) then s else None)
  {
    LiveFinds(src, Some(dst), path);
    StayFinds(src, Some(dst), path);
  }

  /** Cut short or not, at every path. */
  lemma {:induction false} MergeLosesNothing(src: Node, dst: Node, staged: Node, live: Node, path: seq<string>)
    requires src.Dir? && dst.Dir? && Merged(src, dst, staged, live)
    ensures Safe(Find(Some(src), path), Find(Some(dst), path), Find(Some(staged), path), Find(Some(live), path))
  {
    MergedIsSafe(src, Some(dst), Some(staged), Some(live), path);
  }

  // ── Emptying a directory ────────────────────────────────────────────────────

  /** l is d with some entries removed; modes of the directories visited may differ. */
  ghost predicate Within(l: Node, d: Node) {
    l == d || (l.Dir? && d.Dir? && forall n :: n in l.entries ==> n in d.entries && Within(l.entries[n], d.entries[n]))
  }

  lemma {:induction false} WithinRefl(d: Node)
    ensures Within(d, d)
  {}

  ghost predicate Emptying(l: Node, d: Node, todo: set<string>) {
    && l.Dir? && d.Dir? && todo <= d.entries.Keys && l.entries.Keys == todo
    && forall n :: n in todo ==> l.entries[n] == d.entries[n]
  }

  lemma {:induction false} EmptyingWithin(l: Node, d: Node, todo: set<string>, name: string, n: Option<Node>)
    requires Emptying(l, d, todo) && name in todo && (n.Some? ==> Within(n.value, d.entries[name]))
    ensures Within(Put(l, name, n), d)
    ensures n == None ==> Emptying(Put(l, name, n), d, todo - {name})
  {
    var r := Put(l, name, n);
    forall k | k in r.entries ensures k in d.entries && Within(r.entries[k], d.entries[k]) {
      if k == name { assert At(r, k) == n; } else { assert At(r, k) == At(l, k); WithinRefl(d.entries[k]); }
    }
    if n == None {
      forall k ensures k in r.entries <==> k in todo - {name} {
        assert At(r, k) == if k == name then None else At(l, k);
      }
      forall k | k in todo - {name} ensures r.entries[k] == d.entries[k] { assert At(r, k) == At(l, k); }
      assert r.entries.Keys == todo - {name};
    }
  }

  /** removeChildren: all or, on a failure, a part; nothing else changes. */
  method RemoveChildren(d: Node) returns (l: Node, ok: bool, ghost faults: nat)
    requires d.Dir?
    ensures l.Dir? && Within(l, d) && (ok ==> l.entries == map[])
    ensures faults == 0 ==> ok
    decreases d
  {
    hide Within;
    var chmod: bool := *;
    l, ok, faults := if chmod then Dir(STAGING_MODE, d.entries) else d, *, 0;
    if !ok { faults := faults + 1; }
    var todo := d.entries.Keys;
    KeepsAll(l, d);
    while ok && todo != {}
      invariant l.Dir? && Within(l, d) && (ok ==> Emptying(l, d, todo)) && (faults == 0 ==> ok)
      decreases |todo|
    {
      var name :| name in todo;
      var e, left := d.entries[name], None;
      if e.Dir? {
        ok := *;
        if !ok { faults := faults + 1; }
        left := Some(e);
        WithinRefl(e);
        if ok {
          var emptied;
          ghost var below;
          emptied, ok, below := RemoveChildren(e);
          faults := faults + below;
          left := Some(emptied);
        }
      }
      if ok {
        ok := *;
        if !ok { faults := faults + 1; }
      }
      if ok { left := None; } else if left == None { left := Some(e); WithinRefl(e); }
      EmptyingWithin(l, d, todo, name, left);
      l, todo := Put(l, name, left), todo - {name};
    }
    if ok { assert l.entries.Keys == {}; }
  }

  lemma {:induction false} KeepsAll(l: Node, d: Node)
    requires l.Dir? && d.Dir? && l.entries == d.entries
    ensures Within(l, d) && Emptying(l, d, d.entries.Keys)
  {
    forall n | n in l.entries ensures Within(l.entries[n], d.entries[n]) { WithinRefl(d.entries[n]); }
  }
}
