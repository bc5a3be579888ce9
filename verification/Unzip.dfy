/** Which archives are unpacked (apps/root-worker/fs.go): one pass checks every entry before
    anything is written. A cleaned path is its list of components, "." the empty list. */
module Unzip {
  import opened Text

  type Path = seq<string>

  datatype Entry = Entry(name: string, symlink: bool, dir: bool, special: bool)

  predicate Regular(e: Entry) { !e.symlink && !e.dir && !e.special }

  // ── filepath.Clean ──────────────────────────────────────────────────────────

  /** Rooted paths start at "/"; others can start with some "..". */
  datatype Cleaned = Cleaned(rooted: bool, ups: nat, names: Path)

  predicate Plain(name: string) { name != "" && name != "." && name != ".." && '/' !in name }

  function CleanParts(parts: seq<string>, c: Cleaned): (r: Cleaned)
    requires forall n :: n in c.names ==> Plain(n)
    requires forall k :: 0 <= k < |parts| ==> '/' !in parts[k]
    ensures r.rooted == c.rooted && forall n :: n in r.names ==> Plain(n)
  {
    if parts == [] then c
    else
      var p := parts[0];
      CleanParts(parts[1..],
        if p == "" || p == "." then c
        else if p == ".." then
          if c.names != [] then c.(names := c.names[..|c.names| - 1])
          else if c.rooted then c
          else c.(ups := c.ups + 1)
        else c.(names := c.names + [p]))
  }

  function Clean(name: string): (r: Cleaned)
    ensures forall n :: n in r.names ==> Plain(n)
  {
    CleanParts(Split(name, '/'), Cleaned(name != "" && name[0] == '/', 0, []))
  }

  predicate Local(c: Cleaned) { !c.rooted && c.ups == 0 }

  function PathOf(e: Entry): Path { Clean(e.name).names }

  // ── Where a name leads ──────────────────────────────────────────────────────

  /** One component of a path, followed from at; above the root there is only the root. */
  ghost function Step(at: Path, part: string): Path {
    if part == "" || part == "." then at
    else if part == ".." then if at == [] then [] else at[..|at| - 1]
    else at + [part]
  }

  ghost function Walk(at: Path, parts: seq<string>): Path
    decreases |parts|
  {
    if parts == [] then at else Walk(Step(at, parts[0]), parts[1..])
  }

  /** No component of the walk leaves base. */
  ghost predicate Stays(base: Path, at: Path, parts: seq<string>)
    decreases |parts|
  {
    base <= at && (parts == [] || Stays(base, Step(at, parts[0]), parts[1..]))
  }

  /** An entry is local exactly when it is not rooted and nowhere leaves the folder it is
      unpacked in, and its path is where it leads there. */
  lemma {:induction false} LocalExactly(name: string, base: Path)
    requires base != []
    ensures Local(Clean(name)) <==> (name == "" || name[0] != '/') && Stays(base, base, Split(name, '/'))
    ensures Local(Clean(name)) ==> Walk(base, Split(name, '/')) == base + Clean(name).names
  {
    assert base + [] == base;
    if name == "" || name[0] != '/' { CleanWalks(Split(name, '/'), Cleaned(false, 0, []), base); }
  }

  lemma {:induction false} CleanWalks(parts: seq<string>, c: Cleaned, base: Path)
    requires (forall n :: n in c.names ==> Plain(n)) && forall k :: 0 <= k < |parts| ==> '/' !in parts[k]
    requires base != [] && !c.rooted && c.ups == 0
    ensures CleanParts(parts, c).ups == 0 <==> Stays(base, base + c.names, parts)
    ensures CleanParts(parts, c).ups == 0 ==> Walk(base + c.names, parts) == base + CleanParts(parts, c).names
  {
    if parts != [] {
      var p, rest, at := parts[0], parts[1..], base + c.names;
      if p == "" || p == "." {
        CleanWalks(rest, c, base);
      } else if p == ".." && c.names == [] {
        UpsGrow(rest, c.(ups := 1));
        assert at == base && Step(at, p) == base[..|base| - 1];
      } else if p == ".." {
        var less := c.names[..|c.names| - 1];
        assert at[..|at| - 1] == base + less;
        CleanWalks(rest, c.(names := less), base);
      } else {
        assert at + [p] == base + (c.names + [p]);
        CleanWalks(rest, c.(names := c.names + [p]), base);
      }
    }
  }

  lemma {:induction false} UpsGrow(parts: seq<string>, c: Cleaned)
    requires (forall n :: n in c.names ==> Plain(n)) && forall k :: 0 <= k < |parts| ==> '/' !in parts[k]
    ensures CleanParts(parts, c).ups >= c.ups
  {
    if parts != [] {
      var p, rest := parts[0], parts[1..];
      if p == "" || p == "." || (p == ".." && c.names == [] && c.rooted) {
        UpsGrow(rest, c);
      } else if p == ".." && c.names != [] {
        UpsGrow(rest, c.(names := c.names[..|c.names| - 1]));
      } else if p == ".." {
        UpsGrow(rest, c.(ups := c.ups + 1));
      } else {
        UpsGrow(rest, c.(names := c.names + [p]));
      }
    }
  }

  /** A plain name leads to just that entry of the folder. */
  lemma {:induction false} CleanName(name: string)
    ensures Plain(name) <==> Clean(name) == Cleaned(false, 0, [name])
  {
    if '/' !in name {
      SplitSingle(name, '/');
      OnePart(name);
    } else if Clean(name).names == [name] {
      assert name in Clean(name).names;
    }
  }

  lemma {:induction false} OnePart(name: string)
    requires '/' !in name
    ensures Plain(name) ==> CleanParts([name], Cleaned(false, 0, [])) == Cleaned(false, 0, [name])
    ensures !Plain(name) ==> CleanParts([name], Cleaned(false, 0, [])).names == []
  {
    assert [name][1..] == [];
  }

  // ── What an archive must be ─────────────────────────────────────────────────

  predicate EntryOk(e: Entry) {
    && '\0' !in e.name && Local(Clean(e.name)) && !e.symlink && (e.dir || Regular(e)) && (PathOf(e) == [] ==> e.dir)
  }

  /** The destination, as it is, lets the entry be written. */
  predicate Allowed(e: Entry, refused: set<(Path, bool)>) { (PathOf(e), e.dir) !in refused }

  /** An entry that is refused by itself: a link, a device, a name with a NUL or one that
      leaves the folder, or a file in place of the folder. */
  lemma {:induction false} EntryOkExactly(e: Entry, base: Path)
    requires base != []
    ensures var parts := Split(e.name, '/'); EntryOk(e) <==>
      && '\0' !in e.name && !e.symlink && (e.special ==> e.dir)
      && (e.name == "" || e.name[0] != '/') && Stays(base, base, parts)
      && (Walk(base, parts) == base ==> e.dir)
  {
    LocalExactly(e.name, base);
    hide Clean;
    assert PathOf(e) == [] <==> base + PathOf(e) == base;
  }

  predicate Above(p: Path, q: Path) { |p| < |q| && p == q[..|p|] }

  /** Two entries can be in one archive: only directories repeat, no file has others below. */
  predicate Fits(a: Entry, b: Entry) {
    && (PathOf(a) == PathOf(b) ==> a.dir && b.dir)
    && (Above(PathOf(a), PathOf(b)) ==> a.dir) && (Above(PathOf(b), PathOf(a)) ==> b.dir)
  }

  ghost predicate Consistent(es: seq<Entry>, refused: set<(Path, bool)>) {
    && (forall e :: e in es ==> EntryOk(e) && Allowed(e, refused))
    && (forall i, j :: 0 <= i < j < |es| ==> Fits(es[i], es[j]))
  }

  lemma {:induction false} ConsistentMore(es: seq<Entry>, e: Entry, refused: set<(Path, bool)>)
    ensures Consistent(es + [e], refused) <==>
      Consistent(es, refused) && EntryOk(e) && Allowed(e, refused) && forall x :: x in es ==> Fits(x, e)
  {
    var all := es + [e];
    if Consistent(all, refused) {
      assert e in all;
      forall x | x in es ensures EntryOk(x) && Allowed(x, refused) && Fits(x, e) {
        var i :| 0 <= i < |es| && es[i] == x;
        assert all[i] == x && all[|es|] == e;
      }
      forall i, j | 0 <= i < j < |es| ensures Fits(es[i], es[j]) { assert all[i] == es[i] && all[j] == es[j]; }
    } else if Consistent(es, refused) && EntryOk(e) && Allowed(e, refused) {
      forall i, j | 0 <= i < j < |all| && forall x :: x in es ==> Fits(x, e) ensures Fits(all[i], all[j]) {
        assert all[i] == es[i];
        if j < |es| { assert all[j] == es[j]; } else { assert es[i] in es; }
      }
    }
  }

  // ── The pass ────────────────────────────────────────────────────────────────

  datatype Verdict = Accepted(entries: seq<Entry>) | Rejected(at: nat)

  /** The paths seen, and which are directories. */
  ghost predicate InKinds(es: seq<Entry>, kinds: map<Path, bool>) {
    && (forall e :: e in es ==> PathOf(e) in kinds && kinds[PathOf(e)] == e.dir)
    && (forall p :: p in kinds ==> exists e :: e in es && PathOf(e) == p)
  }

  /** What an entry must be to fit with those seen. */
  ghost predicate FitsKinds(kinds: map<Path, bool>, path: Path, dir: bool) {
    && (path in kinds ==> kinds[path] && dir)
    && (forall q :: q in kinds && Above(q, path) ==> kinds[q])
    && (forall q :: q in kinds && Above(path, q) ==> dir)
  }

  ghost predicate InFiles(kinds: map<Path, bool>, files: set<Path>) {
    forall p :: p in files <==> p in kinds && !kinds[p]
  }

  ghost predicate InDirs(kinds: map<Path, bool>, requiredDirs: set<Path>) {
    && [] in requiredDirs
    && (forall p, q :: q in kinds && Above(p, q) ==> p in requiredDirs)
    && (forall p :: p in requiredDirs && p != [] ==> exists q :: q in kinds && Above(p, q))
  }

  /** The entries to write: one for each path, each from the archive. */
  ghost predicate Chosen(es: seq<Entry>, kinds: map<Path, bool>, entries: seq<Entry>) {
    && (forall e :: e in entries ==> e in es && PathOf(e) in kinds)
    && (forall p :: p in kinds ==> exists c :: c in entries && PathOf(c) == p)
    && (forall i, j :: 0 <= i < j < |entries| ==> PathOf(entries[i]) != PathOf(entries[j]))
  }

  /** What the pass knows after the entries es. */
  ghost predicate Seen(es: seq<Entry>, refused: set<(Path, bool)>, kinds: map<Path, bool>, requiredDirs: set<Path>,
      files: set<Path>, entries: seq<Entry>) {
    && Consistent(es, refused) && InKinds(es, kinds) && ([] in kinds ==> kinds[[]])
    && InDirs(kinds, requiredDirs) && InFiles(kinds, files) && Chosen(es, kinds, entries)
  }

  lemma {:induction false} SeenStart(refused: set<(Path, bool)>)
    ensures Seen([], refused, map[], {[]}, {}, [])
  {}

  function Prefixes(p: Path): (r: set<Path>)
    ensures forall q :: q in r <==> Above(q, p)
  {
    set k | 0 <= k < |p| :: p[..k]
  }

  lemma {:induction false} FitsKindsFits(es: seq<Entry>, kinds: map<Path, bool>, e: Entry)
    requires InKinds(es, kinds)
    ensures FitsKinds(kinds, PathOf(e), e.dir) <==> forall x :: x in es ==> Fits(x, e)
  {
    hide Clean, PathOf, Above;
    var path := PathOf(e);
    if forall x :: x in es ==> Fits(x, e) {
      forall q | q in kinds
        ensures (q == path ==> kinds[q] && e.dir) && (Above(q, path) ==> kinds[q]) && (Above(path, q) ==> e.dir)
      {
        var x :| x in es && PathOf(x) == q;
        assert Fits(x, e);
      }
    }
  }

  /** The whole archive with one more entry. */
  lemma {:induction false} OneMore(es: seq<Entry>, refused: set<(Path, bool)>, kinds: map<Path, bool>, e: Entry)
    requires Consistent(es, refused) && InKinds(es, kinds)
    ensures Consistent(es + [e], refused) <==> EntryOk(e) && Allowed(e, refused) && FitsKinds(kinds, PathOf(e), e.dir)
  {
    hide Clean, PathOf, Above, Consistent, InKinds, Fits, FitsKinds, EntryOk, Allowed;
    ConsistentMore(es, e, refused);
    FitsKindsFits(es, kinds, e);
  }

  /** A directory seen before fits again. */
  lemma {:induction false} SeenAgain(es: seq<Entry>, refused: set<(Path, bool)>, kinds: map<Path, bool>,
      requiredDirs: set<Path>, files: set<Path>, entries: seq<Entry>, e: Entry)
    requires Seen(es, refused, kinds, requiredDirs, files, entries) && EntryOk(e) && PathOf(e) in kinds
      && kinds[PathOf(e)] && e.dir
    ensures Seen(es + [e], refused, kinds, requiredDirs, files, entries)
  {
    hide Clean, PathOf, Above, EntryOk, InDirs, InFiles, Fits;
    var path := PathOf(e);
    var o :| o in es && PathOf(o) == path;
    assert Allowed(e, refused);
    forall q | q in kinds && Above(q, path) ensures kinds[q] {
      var x :| x in es && PathOf(x) == q;
      AboveIsDir(es, refused, x, o);
    }
    OneMore(es, refused, kinds, e);
    assert Consistent(es + [e], refused);
    hide Consistent, FitsKinds, Allowed;
    AgainKinds(es, kinds, entries, e);
  }

  lemma {:induction false} AgainKinds(es: seq<Entry>, kinds: map<Path, bool>, entries: seq<Entry>, e: Entry)
    requires InKinds(es, kinds) && Chosen(es, kinds, entries) && PathOf(e) in kinds && kinds[PathOf(e)] == e.dir
    ensures InKinds(es + [e], kinds) && Chosen(es + [e], kinds, entries)
  {
    hide Clean, PathOf;
    var all := es + [e];
    forall p | p in kinds ensures exists x :: x in all && PathOf(x) == p {
      var x :| x in es && PathOf(x) == p;
      assert x in all;
    }
  }

  lemma {:induction false} AboveIsDir(es: seq<Entry>, refused: set<(Path, bool)>, x: Entry, o: Entry)
    requires Consistent(es, refused) && x in es && o in es && Above(PathOf(x), PathOf(o))
    ensures x.dir
  {
    hide Clean, PathOf, EntryOk, Allowed;
    var i :| 0 <= i < |es| && es[i] == x;
    var j :| 0 <= j < |es| && es[j] == o;
    if i < j { assert Fits(es[i], es[j]); } else if j < i { assert Fits(es[j], es[i]); }
  }

  /** For a new path: no file above it and, as a file, nothing below it. */
  lemma {:induction false} NewFits(kinds: map<Path, bool>, requiredDirs: set<Path>, files: set<Path>, path: Path,
      dir: bool)
    requires InDirs(kinds, requiredDirs) && InFiles(kinds, files) && ([] in kinds ==> kinds[[]]) && path !in kinds
      && (path == [] ==> dir)
    ensures FitsKinds(kinds, path, dir) <==>
      (forall p :: Above(p, path) && p != [] ==> p !in files) && (dir || path !in requiredDirs)
  {
    hide Above;
  }

  lemma {:induction false} SeenNew(es: seq<Entry>, refused: set<(Path, bool)>, kinds: map<Path, bool>,
      requiredDirs: set<Path>, files: set<Path>, entries: seq<Entry>, e: Entry)
    requires Seen(es, refused, kinds, requiredDirs, files, entries) && PathOf(e) !in kinds && EntryOk(e)
    requires Consistent(es + [e], refused)
    ensures Seen(es + [e], refused, kinds[PathOf(e) := e.dir], requiredDirs + Prefixes(PathOf(e)), if e.dir then files
      else files + {PathOf(e)}, entries + [e])
  {
    assert PathOf(e) == [] ==> e.dir;
    hide Clean, EntryOk, Consistent, PathOf, Above, InKinds, InDirs, Chosen;
    NewKinds(es, kinds, e);
    NewDirs(kinds, requiredDirs, PathOf(e), e.dir);
    NewChosen(es, kinds, entries, e);
  }

  lemma {:induction false} NewKinds(es: seq<Entry>, kinds: map<Path, bool>, e: Entry)
    requires InKinds(es, kinds) && PathOf(e) !in kinds
    ensures InKinds(es + [e], kinds[PathOf(e) := e.dir])
  {
    hide Clean, PathOf;
    var all, k := es + [e], kinds[PathOf(e) := e.dir];
    assert all[|es|] == e;
    forall p | p in k ensures exists x :: x in all && PathOf(x) == p {
      if p in kinds {
        var x :| x in es && PathOf(x) == p;
        assert x in all;
      } else {
        assert e in all;
      }
    }
  }

  lemma {:induction false} NewDirs(kinds: map<Path, bool>, requiredDirs: set<Path>, path: Path, dir: bool)
    requires InDirs(kinds, requiredDirs) && path !in kinds
    ensures InDirs(kinds[path := dir], requiredDirs + Prefixes(path))
  {
    hide Above;
    var k := kinds[path := dir];
    forall p | p in requiredDirs + Prefixes(path) && p != [] ensures exists q :: q in k && Above(p, q) {
      if p in requiredDirs {
        var q :| q in kinds && Above(p, q);
        assert q in k;
      } else {
        assert path in k;
      }
    }
  }

  lemma {:induction false} NewChosen(es: seq<Entry>, kinds: map<Path, bool>, entries: seq<Entry>, e: Entry)
    requires PathOf(e) !in kinds && Chosen(es, kinds, entries)
    ensures Chosen(es + [e], kinds[PathOf(e) := e.dir], entries + [e])
  {
    hide Clean, PathOf;
    var all, r, k := es + [e], entries + [e], kinds[PathOf(e) := e.dir];
    assert all[|es|] == e && r[|entries|] == e;
    forall p | p in k ensures exists c :: c in r && PathOf(c) == p {
      if p in kinds {
        var c :| c in entries && PathOf(c) == p;
        assert c in r;
      } else {
        assert e in r;
      }
    }
    forall i, j | 0 <= i < j < |r| ensures PathOf(r[i]) != PathOf(r[j]) {
      assert r[i] == entries[i] && entries[i] in entries;
    }
  }

  /** The directories above a path, up to the destination; false at the first that is a file. */
  method AddParents(path: Path, files: set<Path>, requiredDirs: set<Path>) returns (ok: bool, dirs: set<Path>)
    requires [] in requiredDirs
    ensures ok <==> forall p :: Above(p, path) && p != [] ==> p !in files
    ensures ok ==> dirs == requiredDirs + Prefixes(path)
  {
    ok, dirs := true, requiredDirs;
    if path == [] { return; }
    var n := |path| - 1;
    while n > 0
      invariant 0 <= n < |path| && ok
      invariant forall k :: n < k < |path| ==> path[..k] !in files && path[..k] in dirs
      invariant forall p :: p in dirs <==> p in requiredDirs || (Above(p, path) && |p| > n)
    {
      if path[..n] in files {
        assert Above(path[..n], path);
        return false, dirs;
      }
      dirs := dirs + {path[..n]};
      n := n - 1;
    }
    assert dirs == requiredDirs + Prefixes(path);
  }

  /** A consistent archive is consistent up to any entry. */
  lemma {:induction false} ConsistentPrefix(es: seq<Entry>, refused: set<(Path, bool)>, i: nat)
    requires i <= |es| && Consistent(es, refused)
    ensures Consistent(es[..i], refused)
  {
    hide Fits, EntryOk, Allowed;
    forall e | e in es[..i] ensures e in es {}
  }

  /** The entries to write: one for each path of the archive. */
  ghost predicate Picked(es: seq<Entry>, entries: seq<Entry>) {
    && (forall e :: e in entries ==> e in es)
    && (forall e :: e in es ==> exists c :: c in entries && PathOf(c) == PathOf(e))
    && (forall i, j :: 0 <= i < j < |entries| ==> PathOf(entries[i]) != PathOf(entries[j]))
  }

  /** The checks of doUnzip before anything is written: it accepts exactly the consistent
      archives, and rejects the others at the first entry that does not fit. */
  method Validate(es: seq<Entry>, refused: set<(Path, bool)>) returns (v: Verdict)
    ensures v.Accepted? <==> Consistent(es, refused)
    ensures v.Accepted? ==> forall e :: e in es ==> (PathOf(e), e.dir) !in refused
    ensures v.Accepted? ==> Picked(es, v.entries)
    ensures v.Rejected? ==> v.at < |es| && Consistent(es[..v.at], refused) && !Consistent(es[..v.at + 1], refused)
  {
    hide Clean, PathOf, EntryOk, Consistent, Fits, FitsKinds, Seen, Allowed, Above, Picked, InKinds, InDirs, InFiles,
      Chosen;
    var entries: seq<Entry>, kinds: map<Path, bool>, requiredDirs: set<Path>, files: set<Path> := [], map[], {[]}, {};
    SeenStart(refused);
    assert es[..0] == [];
    for i := 0 to |es|
      invariant Seen(es[..i], refused, kinds, requiredDirs, files, entries)
    {
      var e := es[i];
      ghost var before := es[..i];
      assert es[..i + 1] == before + [e];
      SeenFacts(before, refused, kinds, requiredDirs, files, entries);
      OneMore(before, refused, kinds, e);
      var path := PathOf(e);
      if !EntryOk(e) {
        RejectedAt(es, refused, i);
        return Rejected(i);
      }
      RootIsDir(e);
      if path in kinds {
        if kinds[path] != e.dir || !e.dir {
          SeenBefore(kinds, path, e.dir);
          RejectedAt(es, refused, i);
          return Rejected(i);
        }
        SeenAgain(before, refused, kinds, requiredDirs, files, entries, e);
        continue;
      }
      NewFits(kinds, requiredDirs, files, path, e.dir);
      var ok, dirs := AddParents(path, files, requiredDirs);
      if !ok || (!e.dir && path in dirs) || !Allowed(e, refused) {
        NotAboveItself(path);
        RejectedAt(es, refused, i);
        return Rejected(i);
      }
      NotAboveItself(path);
      SeenNew(before, refused, kinds, requiredDirs, files, entries, e);
      requiredDirs := dirs;
      if !e.dir { files := files + {path}; }
      kinds := kinds[path := e.dir];
      entries := entries + [e];
    }
    assert es[..|es|] == es;
    SeenFacts(es, refused, kinds, requiredDirs, files, entries);
    NoneRefused(es, refused);
    v := Accepted(entries);
  }

  lemma {:induction false} NoneRefused(es: seq<Entry>, refused: set<(Path, bool)>)
    requires Consistent(es, refused)
    ensures forall e :: e in es ==> (PathOf(e), e.dir) !in refused
  {
    hide PathOf, EntryOk, Fits;
    assert forall e :: e in es ==> Allowed(e, refused);
  }

  lemma {:induction false} RootIsDir(e: Entry)
    requires EntryOk(e)
    ensures PathOf(e) == [] ==> e.dir
  {}

  lemma {:induction false} SeenBefore(kinds: map<Path, bool>, path: Path, dir: bool)
    requires path in kinds && (kinds[path] != dir || !dir)
    ensures !FitsKinds(kinds, path, dir)
  {}

  lemma {:induction false} NotAboveItself(path: Path)
    ensures path !in Prefixes(path)
  {}

  lemma {:induction false} SeenFacts(es: seq<Entry>, refused: set<(Path, bool)>, kinds: map<Path, bool>,
      requiredDirs: set<Path>, files: set<Path>, entries: seq<Entry>)
    requires Seen(es, refused, kinds, requiredDirs, files, entries)
    ensures Consistent(es, refused) && InKinds(es, kinds) && ([] in kinds ==> kinds[[]])
    ensures InDirs(kinds, requiredDirs) && InFiles(kinds, files) && [] in requiredDirs && Picked(es, entries)
  {
    hide Clean, PathOf;
  }

  lemma {:induction false} RejectedAt(es: seq<Entry>, refused: set<(Path, bool)>, i: nat)
    requires i < |es| && !Consistent(es[..i + 1], refused)
    ensures !Consistent(es, refused)
  {
    hide Consistent;
    if Consistent(es, refused) { ConsistentPrefix(es, refused, i + 1); }
  }

  // ── What the checks are for ─────────────────────────────────────────────────

  /** Two entries of an archive, at two places. */
  ghost predicate Both(es: seq<Entry>, a: Entry, b: Entry) {
    a in es && b in es && (a == b ==> multiset(es)[a] >= 2)
  }

  lemma {:induction false} BothAt(es: seq<Entry>, i: nat, j: nat)
    requires i < j < |es|
    ensures Both(es, es[i], es[j])
  {
    assert es == es[..j] + es[j..] && es[j..] == [es[j]] + es[j + 1..];
    assert es[i] == es[..j][i];
    if es[i] == es[j] {
      assert es[i] in multiset(es[..j]);
      assert multiset(es) == multiset(es[..j]) + multiset{es[j]} + multiset(es[j + 1..]);
    }
  }

  lemma {:induction false} PlacesOf(es: seq<Entry>, a: Entry, b: Entry)
    requires Both(es, a, b)
    ensures exists i, j :: 0 <= i < |es| && 0 <= j < |es| && i != j && es[i] == a && es[j] == b
  {
    var i :| 0 <= i < |es| && es[i] == a;
    if a == b {
      assert es == es[..i] + [a] + es[i + 1..];
      assert multiset(es) == multiset(es[..i]) + multiset{a} + multiset(es[i + 1..]);
      if a in es[..i] {
        var j :| 0 <= j < i && es[..i][j] == a;
        assert es[j] == b;
      } else {
        assert a !in multiset(es[..i]) && a in multiset(es[i + 1..]);
        var j :| 0 <= j < |es[i + 1..]| && es[i + 1..][j] == a;
        assert es[i + 1 + j] == b;
      }
    } else {
      var j :| 0 <= j < |es| && es[j] == b;
    }
  }

  lemma {:induction false} FitsBothWays(a: Entry, b: Entry)
    ensures Fits(a, b) <==> Fits(b, a)
  {}

  lemma {:induction false} OrderOneWay(es: seq<Entry>, fs: seq<Entry>, refused: set<(Path, bool)>)
    requires multiset(es) == multiset(fs) && Consistent(es, refused)
    ensures Consistent(fs, refused)
  {
    hide Fits, EntryOk, Allowed;
    forall e | e in fs ensures EntryOk(e) && Allowed(e, refused) {
      assert e in multiset(fs);
      assert e in es;
    }
    forall i, j | 0 <= i < j < |fs| ensures Fits(fs[i], fs[j]) {
      BothAt(fs, i, j);
      assert fs[i] in multiset(fs) && fs[j] in multiset(fs);
      PlacesOf(es, fs[i], fs[j]);
      var k, l :| 0 <= k < |es| && 0 <= l < |es| && k != l && es[k] == fs[i] && es[l] == fs[j];
      if l < k {
        assert Fits(es[l], es[k]);
        FitsBothWays(es[l], es[k]);
      }
    }
  }

  /** Acceptance does not depend on the order of the entries. */
  lemma {:induction false} OrderDoesNotMatter(es: seq<Entry>, fs: seq<Entry>, refused: set<(Path, bool)>)
    requires multiset(es) == multiset(fs)
    ensures Consistent(es, refused) <==> Consistent(fs, refused)
  {
    if Consistent(es, refused) { OrderOneWay(es, fs, refused); }
    if Consistent(fs, refused) { OrderOneWay(fs, es, refused); }
  }

  /** What is written into an empty folder: true is a directory. */
  type Tree = map<Path, bool>

  /** os.MkdirAll: fails at a file, or when the disk does at any directory; else every
      directory of the path is there. */
  method MkdirAll(tree: Tree, path: Path) returns (ok: bool, fault: bool, r: Tree)
    ensures ok <==> !fault && forall k :: 0 <= k <= |path| && path[..k] in tree ==> tree[path[..k]]
    ensures ok ==> forall p :: p in r <==> p in tree || p == path || Above(p, path)
    ensures forall p :: p in r ==> r[p] == if p in tree then tree[p] else true
    ensures forall p :: p in tree ==> p in r
    ensures forall p :: p in r ==> p in tree || p == path || Above(p, path)
  {
    ok, fault, r := true, false, tree;
    for n := 0 to |path| + 1
      invariant ok && !fault && forall k :: 0 <= k < n && path[..k] in tree ==> tree[path[..k]]
      invariant forall p :: p in r <==> p in tree || (|p| < n && (p == path || Above(p, path)))
      invariant forall p :: p in r ==> r[p] == if p in tree then tree[p] else true
    {
      assert path[..|path|] == path;
      var p := path[..n];
      if p in r && !r[p] {
        return false, false, r;
      }
      if p !in r {
        fault := *;
        if fault { return false, true, r; }
      }
      r := r[p := true];
    }
  }

  /** A file is written beside its place and moved there; a copy that fails is removed, or
      stays under its temporary name when that fails too. */
  method WriteFile(tree: Tree, path: Path) returns (ok: bool, r: Tree, leftover: Option<Path>)
    requires path != []
    ensures ok ==> r == tree[path := false] && leftover == None
    ensures !ok ==> r == tree && (leftover.Some? ==> Temporary(leftover.value, path))
  {
    ok, r, leftover := *, tree, None;
    if ok {
      r := tree[path := false];
      return;
    }
    var removed: bool, tag: string := *, *;
    if !removed { leftover := Some(path[..|path| - 1] + [".hsi-unzip-" + tag + ".tmp"]); }
  }

  /** In the folder of path, under a name of its own. */
  ghost predicate Temporary(p: Path, path: Path) {
    path != [] && exists tag :: p == path[..|path| - 1] + [".hsi-unzip-" + tag + ".tmp"]
  }

  /** Unpacking so far: the files of the entries, and the directories they need. */
  ghost predicate Unpacked(entries: seq<Entry>, tree: Tree) {
    && (forall e :: e in entries ==> PathOf(e) in tree && tree[PathOf(e)] == e.dir)
    && (forall e, p :: e in entries && Above(p, PathOf(e)) ==> p in tree && tree[p])
    && (forall p :: p in tree ==> p == [] || exists e :: e in entries && (p == PathOf(e) || Above(p, PathOf(e))))
    && ([] in tree ==> tree[[]])
  }

  /** Without the checks of names: what unpacking needs of the entries. */
  ghost predicate Unpackable(entries: seq<Entry>) {
    && (forall i, j :: 0 <= i < |entries| && 0 <= j < |entries| && i != j ==> PathOf(entries[i]) != PathOf(entries[j]))
    && (forall x, y :: x in entries && y in entries && Above(PathOf(x), PathOf(y)) ==> x.dir)
    && (forall x :: x in entries && PathOf(x) == [] ==> x.dir)
  }

  lemma {:induction false} PickedUnpackable(es: seq<Entry>, refused: set<(Path, bool)>, entries: seq<Entry>)
    requires Consistent(es, refused) && Picked(es, entries)
    ensures Unpackable(entries)
  {
    hide Clean, PathOf, Above, Allowed, Fits;
    forall x, y | x in entries && y in entries && Above(PathOf(x), PathOf(y)) ensures x.dir {
      AboveIsDir(es, refused, x, y);
    }
    forall x | x in entries && PathOf(x) == [] ensures x.dir { RootIsDir(x); }
  }

  /** A path and what is above it: no file stands in the way of an entry still to come. */
  lemma {:induction false} NothingInTheWay(entries: seq<Entry>, i: nat, tree: Tree, p: Path)
    requires Unpackable(entries) && i < |entries| && Unpacked(entries[..i], tree)
    requires p in tree && (Above(p, PathOf(entries[i])) || p == PathOf(entries[i]))
    ensures tree[p] && (p == PathOf(entries[i]) ==> entries[i].dir)
  {
    hide Clean, PathOf;
    var e := entries[i];
    assert e in entries;
    if p == [] {
    } else {
      var x :| x in entries[..i] && (p == PathOf(x) || Above(p, PathOf(x)));
      assert x in entries;
      var k :| 0 <= k < i && entries[..i][k] == x;
      assert entries[k] == x;
      if p == PathOf(x) { assert PathOf(entries[k]) != PathOf(entries[i]); }
    }
  }

  lemma {:induction false} UnpackedMore(entries: seq<Entry>, tree: Tree, dirs: Tree, e: Entry)
    requires Unpacked(entries, tree) && (PathOf(e) == [] ==> e.dir)
    requires PathOf(e) in tree ==> tree[PathOf(e)] && e.dir
    requires forall p :: p in dirs <==> p in tree || Above(p, PathOf(e))
    requires forall p :: p in dirs ==> dirs[p] == if p in tree then tree[p] else true
    requires forall p :: p in tree && Above(p, PathOf(e)) ==> tree[p]
    requires forall x :: x in entries ==> PathOf(x) != PathOf(e)
    ensures Unpacked(entries + [e], dirs[PathOf(e) := e.dir])
  {
    hide Clean, PathOf, Above;
    NotAbove(PathOf(e));
    var all, r := entries + [e], dirs[PathOf(e) := e.dir];
    assert all[|entries|] == e;
    forall x, p | x in all && Above(p, PathOf(x)) ensures p in r && r[p] {
      if x in entries { assert p in tree && tree[p]; }
    }
    forall p | p in r ensures p == [] || exists x :: x in all && (p == PathOf(x) || Above(p, PathOf(x))) {
      if p in tree && p != [] {
        var x :| x in entries && (p == PathOf(x) || Above(p, PathOf(x)));
        assert x in all;
      } else {
        assert e in all;
      }
    }
  }

  lemma {:induction false} NotAbove(path: Path)
    ensures !Above(path, path)
  {}

  /** A path is there because of the entries: one of them, or a directory above one. */
  ghost predicate From(entries: seq<Entry>, p: Path, dir: bool) {
    (p == [] && dir) ||
    exists e :: e in entries && ((p == PathOf(e) && dir == e.dir) || (Above(p, PathOf(e)) && dir))
  }

  ghost predicate AllFrom(entries: seq<Entry>, tree: Tree) { forall p :: p in tree ==> From(entries, p, tree[p]) }

  /** The first k entries are there, and nothing but what they and the next one need. */
  ghost predicate Partly(entries: seq<Entry>, k: nat, tree: Tree) {
    && k < |entries| && AllFrom(entries[..k + 1], tree)
    && forall e :: e in entries[..k] ==> PathOf(e) in tree && tree[PathOf(e)] == e.dir
  }

  /** Writing stopped at some entry. */
  ghost predicate StoppedIn(entries: seq<Entry>, tree: Tree, leftover: Option<Path>) {
    exists k: nat :: Partly(entries, k, tree) &&
      (leftover.Some? ==> !entries[k].dir && Temporary(leftover.value, PathOf(entries[k])))
  }

  lemma {:induction false} UnpackedFrom(entries: seq<Entry>, tree: Tree)
    requires Unpacked(entries, tree)
    ensures AllFrom(entries, tree)
  {
    hide Clean, PathOf, Above;
  }

  /** A write that failed at the next entry. */
  lemma {:induction false} StoppedAt(entries: seq<Entry>, k: nat, tree: Tree, r: Tree)
    requires k < |entries| && Unpacked(entries[..k], tree) && forall p :: p in tree ==> p in r && r[p] == tree[p]
    requires forall p :: p in r && p !in tree ==>
      r[p] && (Above(p, PathOf(entries[k])) || (p == PathOf(entries[k]) && entries[k].dir))
    ensures Partly(entries, k, r)
  {
    hide Clean, PathOf, Above;
    UnpackedFrom(entries[..k], tree);
    var e := entries[k];
    assert entries[..k + 1] == entries[..k] + [e];
    assert entries[..k + 1][k] == e;
    forall p | p in r ensures From(entries[..k + 1], p, r[p]) {
      if p in tree {
        assert From(entries[..k], p, tree[p]);
      } else {
        assert e in entries[..k + 1];
      }
    }
  }

  /** What doUnzip writes once the checks passed: it stops only where the disk fails, with
      a part of the archive written; else the folder has the files and the directories of
      the archive, with those above them. */
  method Unpack(entries: seq<Entry>) returns (ok: bool, fault: bool, tree: Tree, leftover: Option<Path>)
    requires Unpackable(entries)
    ensures ok <==> !fault
    ensures ok ==> Unpacked(entries, tree) && leftover == None
    ensures !ok ==> StoppedIn(entries, tree, leftover)
  {
    hide Clean, PathOf, Above, Unpacked, Unpackable, Partly, Temporary;
    ok, fault, tree, leftover := true, false, map[[] := true], None;
    UnpackedStart();
    assert entries[..0] == [];
    for i := 0 to |entries|
      invariant ok && !fault && leftover == None && Unpacked(entries[..i], tree)
    {
      ok, fault, tree, leftover := UnpackOne(entries, i, tree);
      if !ok {
        assert StoppedIn(entries, tree, leftover);
        return;
      }
    }
    assert entries[..|entries|] == entries;
  }

  /** One entry: a directory with those above it, or a file in one. */
  method UnpackOne(entries: seq<Entry>, i: nat, tree: Tree)
      returns (ok: bool, fault: bool, r: Tree, leftover: Option<Path>)
    requires Unpackable(entries) && i < |entries| && Unpacked(entries[..i], tree)
    ensures ok <==> !fault
    ensures ok ==> Unpacked(entries[..i + 1], r) && leftover == None
    ensures !ok ==> Partly(entries, i, r)
    ensures !ok && leftover.Some? ==> !entries[i].dir && Temporary(leftover.value, PathOf(entries[i]))
  {
    hide Clean, PathOf, Above, Unpacked, Unpackable, Partly, Temporary;
    var e := entries[i];
    assert entries[..i + 1] == entries[..i] + [e];
    forall p | p in tree && (Above(p, PathOf(e)) || p == PathOf(e)) ensures tree[p] && (p == PathOf(e) ==> e.dir) {
      NothingInTheWay(entries, i, tree, p);
    }
    UnpackableAt(entries, i);
    var path := PathOf(e);
    leftover := None;
    Ancestors(path);
    NotAbove(path);
    forall k | 0 <= k <= |path| && path[..k] in tree ensures tree[path[..k]] {
      assert Above(path[..k], path) || path[..k] == path;
    }
    if e.dir {
      ok, fault, r := MkdirAll(tree, path);
      if !ok {
        StoppedAt(entries, i, tree, r);
        return;
      }
      ghost var above := map p | p in r && (p in tree || p != path) :: r[p];
      UnpackedMore(entries[..i], tree, above, e);
      assert above[path := true] == r;
    } else {
      var parent := path[..|path| - 1];
      assert forall k :: 0 <= k <= |parent| ==> parent[..k] == path[..k];
      ok, fault, r := MkdirAll(tree, parent);
      if !ok {
        StoppedAt(entries, i, tree, r);
        return;
      }
      StoppedAt(entries, i, tree, r);
      UnpackedMore(entries[..i], tree, r, e);
      ok, r, leftover := WriteFile(r, path);
      fault := !ok;
    }
  }

  lemma {:induction false} UnpackedStart()
    ensures Unpacked([], map[[] := true])
  {}

  lemma {:induction false} UnpackableAt(entries: seq<Entry>, i: nat)
    requires Unpackable(entries) && i < |entries|
    ensures PathOf(entries[i]) == [] ==> entries[i].dir
    ensures forall x :: x in entries[..i] ==> PathOf(x) != PathOf(entries[i])
  {
    forall x | x in entries[..i] ensures PathOf(x) != PathOf(entries[i]) {
      var k :| 0 <= k < i && entries[..i][k] == x;
      assert entries[k] == x;
    }
  }

  lemma {:induction false} Ancestors(path: Path)
    ensures forall k :: 0 <= k < |path| ==> Above(path[..k], path)
    ensures path[..|path|] == path
    ensures path != [] ==> forall p :: Above(p, path) <==> p == path[..|path| - 1] || Above(p, path[..|path| - 1])
    ensures path != [] ==> forall k :: 0 <= k <= |path| - 1 ==> path[..|path| - 1][..k] == path[..k]
  {}

  datatype Outcome = Refused | Stopped(leftover: Option<Path>) | Done

  /** Into an empty folder: an archive that is not consistent writes nothing; the others
      give the folder their files and directories, and nothing else, unless the disk fails
      on the way: then a part of that. */
  method DoUnzip(es: seq<Entry>) returns (done: Outcome, tree: Tree, fault: bool)
    ensures done.Refused? <==> !Consistent(es, {})
    ensures done.Done? <==> Consistent(es, {}) && !fault
    ensures done.Refused? ==> tree == map[] && !fault
    ensures !done.Refused? ==> AllFrom(es, tree)
    ensures done.Stopped? && done.leftover.Some? ==>
      exists e :: e in es && !e.dir && Temporary(done.leftover.value, PathOf(e))
    ensures done.Done? ==> forall e :: e in es ==> PathOf(e) in tree && tree[PathOf(e)] == e.dir
    ensures done.Done? ==> forall e, p :: e in es && Above(p, PathOf(e)) ==> p in tree && tree[p]
  {
    hide Clean, PathOf, Above, Consistent, Picked, Unpackable, Unpacked, Temporary, AllFrom, StoppedIn;
    var v := Validate(es, {});
    if v.Rejected? { return Refused, map[], false; }
    PickedUnpackable(es, {}, v.entries);
    PickedIn(es, v.entries);
    var ok, leftover;
    ok, fault, tree, leftover := Unpack(v.entries);
    if ok {
      done := Done;
      UnpackedFrom(v.entries, tree);
      AllFromMore(v.entries, es, tree);
      WholeArchive(es, v.entries, tree);
    } else {
      done := Stopped(leftover);
      PartOf(es, v.entries, tree, leftover);
    }
  }

  lemma {:induction false} AllFromMore(entries: seq<Entry>, es: seq<Entry>, tree: Tree)
    requires AllFrom(entries, tree) && forall e :: e in entries ==> e in es
    ensures AllFrom(es, tree)
  {
    hide Clean, PathOf, Above;
    forall p | p in tree ensures From(es, p, tree[p]) { assert From(entries, p, tree[p]); }
  }

  lemma {:induction false} PartOf(es: seq<Entry>, entries: seq<Entry>, tree: Tree, leftover: Option<Path>)
    requires StoppedIn(entries, tree, leftover) && forall e :: e in entries ==> e in es
    ensures AllFrom(es, tree)
    ensures leftover.Some? ==> exists e :: e in es && !e.dir && Temporary(leftover.value, PathOf(e))
  {
    hide Clean, PathOf, Above, AllFrom, Temporary;
    var k: nat :| Partly(entries, k, tree) &&
      (leftover.Some? ==> !entries[k].dir && Temporary(leftover.value, PathOf(entries[k])));
    forall e | e in entries[..k + 1] ensures e in es { assert e in entries; }
    AllFromMore(entries[..k + 1], es, tree);
    assert entries[k] in es;
  }

  lemma {:induction false} PickedIn(es: seq<Entry>, entries: seq<Entry>)
    requires Picked(es, entries)
    ensures forall e :: e in entries ==> e in es
  {}

  lemma {:induction false} EntryThere(es: seq<Entry>, entries: seq<Entry>, tree: Tree, e: Entry)
    requires Consistent(es, {}) && Picked(es, entries) && Unpacked(entries, tree) && e in es
    ensures PathOf(e) in tree && tree[PathOf(e)] == e.dir
    ensures forall p :: Above(p, PathOf(e)) ==> p in tree && tree[p]
  {
    hide *;
    var c := PickedFor(es, entries, e);
    SamePathSameKind(es, c, e);
    UnpackedAt(entries, tree, c);
  }

  lemma {:induction false} PickedFor(es: seq<Entry>, entries: seq<Entry>, e: Entry) returns (c: Entry)
    requires Picked(es, entries) && e in es
    ensures c in entries && c in es && PathOf(c) == PathOf(e)
  {
    hide Clean, PathOf;
    c :| c in entries && PathOf(c) == PathOf(e);
  }

  lemma {:induction false} UnpackedAt(entries: seq<Entry>, tree: Tree, c: Entry)
    requires Unpacked(entries, tree) && c in entries
    ensures PathOf(c) in tree && tree[PathOf(c)] == c.dir
    ensures forall p :: Above(p, PathOf(c)) ==> p in tree && tree[p]
  {
    hide Clean, PathOf, Above;
  }

  lemma {:induction false} WholeArchive(es: seq<Entry>, entries: seq<Entry>, tree: Tree)
    requires Consistent(es, {}) && Picked(es, entries) && Unpacked(entries, tree)
    ensures forall e :: e in es ==> PathOf(e) in tree && tree[PathOf(e)] == e.dir
    ensures forall e, p :: e in es && Above(p, PathOf(e)) ==> p in tree && tree[p]
  {
    hide *;
    forall e | e in es ensures PathOf(e) in tree && tree[PathOf(e)] == e.dir { EntryThere(es, entries, tree, e); }
    forall e, p | e in es && Above(p, PathOf(e)) ensures p in tree && tree[p] { EntryThere(es, entries, tree, e); }
  }

  lemma {:induction false} SamePathSameKind(es: seq<Entry>, a: Entry, b: Entry)
    requires Consistent(es, {}) && a in es && b in es && PathOf(a) == PathOf(b)
    ensures a.dir == b.dir
  {
    hide Clean, PathOf, Above, EntryOk, Allowed;
    var i :| 0 <= i < |es| && es[i] == a;
    var j :| 0 <= j < |es| && es[j] == b;
    if i < j { assert Fits(es[i], es[j]); } else if j < i { assert Fits(es[j], es[i]); }
  }

  /** An accepted entry stays inside: its path is plain names, none of them "..". */
  lemma {:induction false} AcceptedStaysInside(es: seq<Entry>, refused: set<(Path, bool)>, e: Entry)
    requires Consistent(es, refused) && e in es
    ensures forall n :: n in PathOf(e) ==> Plain(n)
    ensures e.name == "" || e.name[0] != '/'
  {
    hide Fits;
    assert EntryOk(e);
  }
}
