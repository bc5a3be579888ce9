/** The configuration half of a rollback: what takeSnapshot saves of a list of files
    (apps/root-worker/update_state.go) and what restoreFiles makes of it later
    (apps/root-worker/update_rollback.go). Every call may fail. */
module UpdateFiles {
  import opened Text

  datatype Path = Path(dir: string, base: string)

  datatype Node = File(content: seq<int>, mode: nat, owner: nat) | Link(target: string, owner: nat)

  /** An entry of a folder beside the units. A link's target can be unreadable. */
  datatype Entry = Symlink(target: string, readable: bool) | Plain

  datatype SnapFile = SnapFile(src: Path, saved: (nat, string), mode: nat, existed: bool)

  const UNIT_EXTS := ["service", "timer", "path", "target"]

  /** <prefix>*.{service,timer,path,target} */
  predicate IsUnitName(name: string, prefix: string) {
    prefix <= name && exists k :: 0 <= k < |UNIT_EXTS| && HasSuffix(name, "." + UNIT_EXTS[k])
  }

  /** What a unit of the prefix is, file by file: in that folder, so named, so ending. */
  ghost predicate OwnUnit(systemd: string, prefix: string, p: Path) {
    && p.dir == systemd && (exists rest :: p.base == prefix + rest)
    && exists start :: p.base == start + ".service" || p.base == start + ".timer" || p.base == start + ".path"
         || p.base == start + ".target"
  }

  lemma {:induction false} UnitNames(systemd: string, prefix: string, p: Path)
    ensures OwnUnit(systemd, prefix, p) <==> p.dir == systemd && IsUnitName(p.base, prefix)
  {
    var b := p.base;
    assert "." + UNIT_EXTS[0] == ".service" && "." + UNIT_EXTS[1] == ".timer" && "." + UNIT_EXTS[2] == ".path"
      && "." + UNIT_EXTS[3] == ".target";
    if prefix <= b { assert b == prefix + b[|prefix|..]; }
    UnitEndings(b);
  }

  lemma {:induction false} UnitEndings(b: string)
    ensures (exists k :: 0 <= k < |UNIT_EXTS| && HasSuffix(b, "." + UNIT_EXTS[k])) <==>
      HasSuffix(b, ".service") || HasSuffix(b, ".timer") || HasSuffix(b, ".path") || HasSuffix(b, ".target")
  {
    hide HasSuffix;
    assert "." + UNIT_EXTS[0] == ".service" && "." + UNIT_EXTS[1] == ".timer" && "." + UNIT_EXTS[2] == ".path"
      && "." + UNIT_EXTS[3] == ".target";
  }

  predicate HoldsLinks(folder: string): (yes: bool)
    ensures yes <==> exists start :: folder == start + ".wants" || folder == start + ".requires"
  {
    HasSuffix(folder, ".wants") || HasSuffix(folder, ".requires")
  }

  /** filepath.Base of a link's target. */
  function BaseOf(target: string): string {
    if target == "" then "."
    else
      var trimmed := TrimSlashes(target);
      var parts := Split(trimmed, '/');
      if trimmed == "" then "/" else parts[|parts| - 1]
  }

  function TrimSlashes(s: string): string {
    if s != "" && s[|s| - 1] == '/' then TrimSlashes(s[..|s| - 1]) else s
  }

  /** The last name of a target, whatever is before it and however many slashes follow. */
  lemma {:induction false} LastName(before: string, name: string, slashes: nat)
    requires name != "" && '/' !in name && (before == "" || before[|before| - 1] == '/')
    ensures BaseOf(before + name + seq(slashes, _ => '/')) == name
  {
    var s := before + name + seq(slashes, _ => '/');
    TrimmedName(before + name, slashes);
    assert s != "" && before + name != "";
    if before == "" {
      assert before + name == name;
      SplitSingle(name, '/');
    } else {
      assert before + name == before[..|before| - 1] + "/" + name;
      LastOfSplit(before[..|before| - 1], name);
    }
  }

  lemma {:induction false} TrimmedName(s: string, slashes: nat)
    requires s != "" && s[|s| - 1] != '/'
    ensures TrimSlashes(s + seq(slashes, _ => '/')) == s
  {
    var all := s + seq(slashes, _ => '/');
    if slashes == 0 {
      assert all == s;
    } else {
      assert all[..|all| - 1] == s + seq(slashes - 1, _ => '/');
      TrimmedName(s, slashes - 1);
    }
  }

  lemma {:induction false} LastOfSplit(before: string, name: string)
    requires '/' !in name
    ensures var parts := Split(before + "/" + name, '/'); parts[|parts| - 1] == name
  {
    var s := before + "/" + name;
    if before == "" {
      assert s[1..] == name;
      SplitSingle(name, '/');
    } else {
      assert s[1..] == before[1..] + "/" + name;
      LastOfSplit(before[1..], name);
      SplitLong(before[1..], name);
    }
  }

  lemma {:induction false} SplitLong(before: string, name: string)
    ensures |Split(before + "/" + name, '/')| >= 2
  {
    var s := before + "/" + name;
    if before != "" {
      assert s[1..] == before[1..] + "/" + name;
      SplitLong(before[1..], name);
    }
  }

  function Lookup(files: map<Path, Node>, p: Path): Option<Node> {
    if p in files then Some(files[p]) else None
  }

  /** What a copy keeps of a file: all but mode bits like setuid. */
  function Copied(n: Node): Node {
    if n.File? then n.(mode := n.mode % 0x200) else n
  }

  lemma {:induction false} CopiedExactly(n: Node)
    ensures Copied(n) == n <==> n.File? ==> n.mode < 0x200
  {}

  function CopiedLookup(files: map<Path, Node>, p: Path): Option<Node> {
    if p in files then Some(Copied(files[p])) else None
  }

  /** What a record says its file was. */
  ghost function Recorded(f: SnapFile, saved: map<(nat, string), Node>): Option<Node> {
    if f.existed && f.saved in saved then
      Some(if saved[f.saved].File?
        then saved[f.saved].(mode := if f.mode == 0 then saved[f.saved].mode % 0x200 else f.mode)
           else saved[f.saved])
    else None
  }

  /** The manifest records each of the paths as it is on disk. */
  ghost predicate Records(files: map<Path, Node>, paths: seq<Path>, m: seq<SnapFile>, saved: map<(nat, string), Node>) {
    && |m| == |paths|
    && forall i :: 0 <= i < |m| ==>
         && m[i].src == paths[i] && m[i].existed == (paths[i] in files)
         && (m[i].existed ==> m[i].saved in saved)
         && Recorded(m[i], saved) == CopiedLookup(files, paths[i])
  }

  ghost predicate Lists(m: seq<SnapFile>, p: Path) {
    exists i :: 0 <= i < |m| && m[i].src == p
  }

  /** Some record says there was no such file. */
  ghost predicate Missing(m: seq<SnapFile>, p: Path) {
    exists i :: 0 <= i < |m| && m[i].src == p && !m[i].existed
  }

  lemma {:induction false} MissingNext(m: seq<SnapFile>, i: nat)
    requires i < |m|
    ensures forall p :: Missing(m[..i], p) ==> Missing(m[..i + 1], p)
    ensures !m[i].existed ==> Missing(m[..i + 1], m[i].src)
  {
    forall p | Missing(m[..i], p) ensures Missing(m[..i + 1], p) {
      var k :| 0 <= k < i && m[..i][k].src == p && !m[..i][k].existed;
      assert m[..i + 1][k] == m[k];
    }
    assert m[..i + 1][i] == m[i];
  }

  lemma {:induction false} ListsNext(m: seq<SnapFile>, i: nat)
    requires i < |m|
    ensures forall p :: Lists(m[..i + 1], p) <==> Lists(m[..i], p) || p == m[i].src
  {
    forall p ensures Lists(m[..i + 1], p) <==> Lists(m[..i], p) || p == m[i].src {
      if Lists(m[..i], p) { var k :| 0 <= k < i && m[..i][k].src == p; assert m[..i + 1][k].src == p; }
      if p == m[i].src { assert m[..i + 1][i].src == p; }
    }
  }

  /** The host's files of interest: systemd is its unit folder, wants the folders in it. */
  class Host {
    const systemd: string
    const prefix: string
    var files: map<Path, Node>
    var dirs: set<string>
    var wants: map<string, map<string, Entry>>
    /** How many calls have failed. */
    ghost var faults: nat

    constructor (systemd: string, prefix: string, files: map<Path, Node>, dirs: set<string>, wants: map<string,
        map<string, Entry>>)
      ensures this.systemd == systemd && this.prefix == prefix
      ensures this.files == files && this.dirs == dirs && this.wants == wants
    {
      this.systemd, this.prefix, this.files, this.dirs, this.wants := systemd, prefix, files, dirs, wants;
      faults := 0;
    }

    /** A call that can fail by itself. */
    method Try() returns (ok: bool)
      modifies this`faults
      ensures faults == old(faults) + if ok then 0 else 1
    {
      ok := *;
      if !ok { faults := faults + 1; }
    }

    /** A link that is not a unit is neither saved nor put back. */
    ghost predicate Foreign(n: Option<Node>, p: Path)
    {
      n.Some? && n.value.Link? && !OwnUnit(systemd, prefix, p)
    }

    /** A record that can be put back: its copy is there. */
    ghost predicate Restorable(f: SnapFile, saved: map<(nat, string), Node>)
    {
      f.existed ==> f.saved in saved && !Foreign(Some(saved[f.saved]), f.src)
    }

    predicate IsUnit(p: Path): (yes: bool)
      ensures yes <==> OwnUnit(systemd, prefix, p)
    {
      UnitNames(systemd, prefix, p);
      p.dir == systemd && IsUnitName(p.base, prefix)
    }

    // ── takeSnapshot's files ──────────────────────────────────────────────────

    /** snapshotFile: the record of one path, and its copy. */
    method SnapshotFile(i: nat, p: Path, saved: map<(nat, string), Node>)
      returns (ok: bool, f: SnapFile, saved': map<(nat, string), Node>)
      modifies this`faults
      ensures faults >= old(faults) && (ok && p.dir in dirs ==> !Foreign(Lookup(files, p), p))
      ensures !ok ==> faults > old(faults) || Foreign(Lookup(files, p), p)
      ensures ok ==> f.src == p && f.existed == (p.dir in dirs && p in files)
      ensures ok && f.existed ==> f.saved == (i, p.base) && f.saved in saved'
      ensures ok && f.existed ==> Recorded(f, saved') == Some(Copied(files[p]))
      ensures forall k :: k in saved && k.0 != i ==> k in saved' && saved'[k] == saved[k]
    {
      f := SnapFile(p, (i, ""), 0, false);
      saved' := saved;
      if p.dir !in dirs {
        return true, f, saved;
      }
      var looked := Try();
      if !looked {
        return false, f, saved;
      }
      if p !in files {
        return true, f, saved;
      }
      var node := files[p];
      f := SnapFile(p, (i, p.base), if node.File? then node.mode % 0x200 else 0x1ff, true);
      if node.Link? && !IsUnit(p) {
        return false, f, saved;
      }
      var copied := Try();
      if !copied {
        return false, f, saved;
      }
      return true, f, saved[(i, p.base) := Copied(node)];
    }

    /** takeSnapshot, the files: on success every path is recorded as it is. */
    method TakeFiles(paths: seq<Path>) returns (ok: bool, m: seq<SnapFile>, saved: map<(nat, string), Node>)
      requires forall p :: p in files ==> p.dir in dirs
      modifies this`faults
      ensures ok ==> Records(files, paths, m, saved)
      ensures faults >= old(faults) && (ok ==> forall p :: p in paths ==> !Foreign(Lookup(files, p), p))
      ensures !ok ==> faults > old(faults) || exists p :: p in paths && Foreign(Lookup(files, p), p)
    {
      hide OwnUnit, Foreign;
      m, saved := [], map[];
      for i := 0 to |paths|
        invariant |m| == i
        invariant forall k :: 0 <= k < i && m[k].existed ==> m[k].saved.0 == k
        invariant Records(files, paths[..i], m, saved)
        invariant faults >= old(faults) && forall k :: 0 <= k < i ==> !Foreign(Lookup(files, paths[k]), paths[k])
      {
        var f;
        ghost var before := saved;
        ok, f, saved := SnapshotFile(i, paths[i], saved);
        if !ok {
          assert paths[i] in paths;
          return;
        }
        NotThere(paths[i]);
        forall k | 0 <= k < i ensures Recorded(m[k], saved) == Recorded(m[k], before) {}
        m := m + [f];
      }
      assert paths[..|paths|] == paths;
      ok := true;
    }

    lemma {:induction false} NotThere(p: Path)
      requires forall q :: q in files ==> q.dir in dirs
      ensures p.dir !in dirs ==> !Foreign(Lookup(files, p), p)
    {}

    // ── restoreFiles ──────────────────────────────────────────────────────────

    /** restoreFile: one record, put back or taken away. */
    method RestoreFile(f: SnapFile, saved: map<(nat, string), Node>) returns (ok: bool)
      requires forall p :: p in files ==> p.dir in dirs
      modifies this`files, this`dirs, this`faults
      ensures forall p :: p in files ==> p.dir in dirs
      ensures ok ==> Lookup(files, f.src) == Recorded(f, saved) && (f.existed ==> f.saved in saved)
      ensures faults >= old(faults) && (ok ==> Restorable(f, saved))
      ensures !ok ==> faults > old(faults) || !Restorable(f, saved)
      ensures forall p :: p != f.src ==> Lookup(files, p) == Lookup(old(files), p)
      ensures !ok ==> Lookup(files, f.src) in {Lookup(old(files), f.src), Recorded(f, saved)}
    {
      var looked := Try();
      if !looked {
        return false;
      }
      if f.src.dir !in dirs {
        if !f.existed {
          return true;
        }
        var made := Try();
        if !made {
          return false;
        }
        dirs := dirs + {f.src.dir};
      }
      if !f.existed {
        var removed := Try();
        if removed { files := files - {f.src}; }
        return removed;
      }
      if f.saved !in saved || (saved[f.saved].Link? && !IsUnit(f.src)) {
        return false;
      }
      var done := Try();
      if !done {
        return false;
      }
      var copy := saved[f.saved];
      files := files[f.src := if copy.File? then copy.(mode := if f.mode == 0 then copy.mode % 0x200 else f.mode)
        else copy];
      ok := Try();
    }

    /** removeLinksTo: in one folder, the links that name a removed unit. */
    method RemoveLinksTo(folder: string, removed: set<string>) returns (ok: bool)
      requires folder in wants
      modifies this`wants, this`faults
      ensures faults >= old(faults) && (!ok ==> faults > old(faults))
      ensures wants.Keys == old(wants).Keys && forall w :: w in wants && w != folder ==> wants[w] == old(wants)[w]
      ensures forall n :: n in wants[folder] ==> n in old(wants)[folder] && wants[folder][n] == old(wants)[folder][n]
      ensures forall n :: n in old(wants)[folder] && !NamesRemoved(n, old(wants)[folder][n], removed) ==>
        n in wants[folder]
      ensures ok ==> forall n :: n in wants[folder] ==> !NamesRemoved(n, wants[folder][n], removed)
    {
      var readable := Try();
      if !readable {
        return false;
      }
      var rest := wants[folder].Keys;
      while rest != {}
        invariant faults >= old(faults)
        invariant wants.Keys == old(wants).Keys && forall w :: w in wants && w != folder ==> wants[w] == old(wants)[w]
        invariant rest <= wants[folder].Keys
        invariant forall n :: n in wants[folder] ==>
          n in old(wants)[folder] && wants[folder][n] == old(wants)[folder][n]
        invariant forall n :: n in old(wants)[folder] && !NamesRemoved(n, old(wants)[folder][n], removed) ==>
          n in wants[folder]
        invariant forall n :: n in wants[folder] && n !in rest ==> !NamesRemoved(n, wants[folder][n], removed)
        decreases |rest|
      {
        var name :| name in rest;
        rest := rest - {name};
        var e := wants[folder][name];
        if e.Plain? || !e.readable {
          continue;
        }
        if name in removed || BaseOf(e.target) in removed {
          var gone := Try();
          if !gone {
            return false;
          }
          wants := wants[folder := wants[folder] - {name}];
        }
      }
      return true;
    }

    /** A unit of that name was there, and is not listed. */
    predicate IsNew(files: map<Path, Node>, listed: set<Path>, name: string) {
      Path(systemd, name) in files && IsUnit(Path(systemd, name)) && Path(systemd, name) !in listed
    }

    /** removeNewUnits: unit files that are not listed go, and then the links that
        name them or a unit removed before. */
    method RemoveNewUnits(listed: set<Path>, already: set<string>) returns (ok: bool, removed: set<string>)
      modifies this`files, this`wants, this`faults
      ensures faults >= old(faults) && (!ok ==> faults > old(faults))
      ensures forall p :: p in files ==> p in old(files) && files[p] == old(files)[p]
      ensures forall p :: p in old(files) && !(IsUnit(p) && p !in listed) ==> p in files
      ensures already <= removed && forall b :: b in removed ==> b in already || IsNew(old(files), listed, b)
      ensures ok ==> forall p :: p in files && IsUnit(p) ==> p in listed
      ensures ok ==> forall p :: p in old(files) && p !in files ==> p.base in removed
      ensures wants.Keys == old(wants).Keys
      ensures forall w, n :: w in wants && n in wants[w] ==> n in old(wants)[w] && wants[w][n] == old(wants)[w][n]
      ensures forall w, n ::
        w in wants && n in old(wants)[w] && !(HoldsLinks(w) && NamesRemoved(n, old(wants)[w][n], removed)) ==>
          n in wants[w]
      ensures ok ==> forall w, n :: w in wants && HoldsLinks(w) && n in wants[w] ==>
        !NamesRemoved(n, wants[w][n], removed)
    {
      removed := already;
      var readable := Try();
      if !readable {
        return false, removed;
      }
      ok := true;
      var rest := set p | p in files && p.dir == systemd;
      while rest != {}
        invariant rest <= files.Keys && wants == old(wants)
        invariant faults >= old(faults) && (!ok ==> faults > old(faults))
        invariant forall p :: p in files ==> p in old(files) && files[p] == old(files)[p]
        invariant forall p :: p in old(files) && !(IsUnit(p) && p !in listed) ==> p in files
        invariant already <= removed && forall b :: b in removed ==> b in already || IsNew(old(files), listed, b)
        invariant ok ==> forall p :: p in files && IsUnit(p) && p !in rest ==> p in listed
        invariant forall p :: p in old(files) && p !in files ==> p.base in removed
        decreases |rest|
      {
        var p :| p in rest;
        rest := rest - {p};
        if !IsUnit(p) || p in listed {
          continue;
        }
        var gone := Try();
        if !gone {
          ok := false;
          continue;
        }
        files := files - {p};
        removed := removed + {p.base};
      }
      var swept := SweepLinks(removed);
      ok := ok && swept;
    }

    /** The first loop of restoreFiles: each record in turn, whatever failed before. */
    method RestoreListed(m: seq<SnapFile>, saved: map<(nat, string), Node>)
      returns (ok: bool, listed: set<Path>, gone: set<string>, unitsListed: bool)
      requires forall p :: p in files ==> p.dir in dirs
      modifies this`files, this`dirs, this`faults
      ensures faults >= old(faults) && (ok ==> AllRestorable(m, saved))
      ensures !ok ==> faults > old(faults) || !AllRestorable(m, saved)
      ensures forall p :: p in listed <==> Lists(m, p)
      ensures unitsListed <==> exists p :: p in listed && IsUnit(p)
      ensures ok ==> forall p :: p in listed ==> Lookup(files, p) == Wanted(m, saved, p)
      ensures ok ==> forall p :: p in listed && IsUnit(p) && p !in files ==> p.base in gone
      ensures forall b :: b in gone ==> IsUnit(Path(systemd, b)) && Missing(m, Path(systemd, b))
      ensures forall p :: p !in listed ==> Lookup(files, p) == Lookup(old(files), p)
    {
      hide Lists, Missing, Wanted, Restored, IsUnitName, Restorable;
      ok, listed, gone, unitsListed := true, {}, {}, false;
      ghost var was := files;
      RestoredStart(m, saved, files);
      for i := 0 to |m|
        invariant forall p :: p in files ==> p.dir in dirs
        invariant Restored(m, saved, i, was, files, listed, gone, ok)
        invariant faults >= old(faults) && (ok ==> forall k :: 0 <= k < i ==> Restorable(m[k], saved))
        invariant !ok ==> faults > old(faults) || !AllRestorable(m, saved)
        invariant unitsListed <==> exists p :: p in listed && IsUnit(p)
      {
        var f := m[i];
        ghost var before := files;
        var restored := RestoreFile(f, saved);
        RestoredNext(m, saved, i, was, before, files, listed, gone, ok, restored);
        listed := listed + {f.src};
        if IsUnit(f.src) { unitsListed := true; }
        if !restored {
          ok := false;
        } else if !f.existed && IsUnit(f.src) {
          gone := gone + {f.src.base};
        }
      }
      RestoredEnd(m, saved, was, files, listed, gone, ok);
    }

    ghost predicate AllRestorable(m: seq<SnapFile>, saved: map<(nat, string), Node>)
    {
      forall k :: 0 <= k < |m| ==> Restorable(m[k], saved)
    }

    /** What the first i records did to the files. */
    ghost predicate Restored(m: seq<SnapFile>, saved: map<(nat, string), Node>, i: nat, was: map<Path, Node>,
        now: map<Path, Node>, listed: set<Path>, gone: set<string>, ok: bool) {
      && i <= |m|
      && (forall p :: p in listed <==> Lists(m[..i], p))
      && (ok ==> forall p :: p in listed ==> Lookup(now, p) == Wanted(m[..i], saved, p))
      && (ok ==> forall p :: p in listed && IsUnit(p) && p !in now ==> p.base in gone)
      && (forall b :: b in gone ==> IsUnit(Path(systemd, b)) && Missing(m[..i], Path(systemd, b)))
      && (forall p :: p !in listed ==> Lookup(now, p) == Lookup(was, p))
    }

    lemma {:induction false} RestoredStart(m: seq<SnapFile>, saved: map<(nat, string), Node>, was: map<Path, Node>)
      ensures Restored(m, saved, 0, was, was, {}, {}, true)
    {}

    lemma {:induction false} RestoredNext(m: seq<SnapFile>, saved: map<(nat, string), Node>, i: nat, was: map<Path,
        Node>, before: map<Path, Node>, now: map<Path, Node>, listed: set<Path>, gone: set<string>, ok: bool,
        restored: bool)
      requires i < |m| && Restored(m, saved, i, was, before, listed, gone, ok)
      requires forall p :: p != m[i].src ==> Lookup(now, p) == Lookup(before, p)
      requires restored ==> Lookup(now, m[i].src) == Recorded(m[i], saved) && (m[i].existed ==> m[i].saved in saved)
      ensures Restored(m, saved, i + 1, was, now, listed + {m[i].src}, if restored && !m[i].existed
        && IsUnit(m[i].src) then gone + {m[i].src.base} else gone, ok && restored)
    {
      var f := m[i];
      ListsNext(m, i);
      MissingNext(m, i);
      assert m[..i + 1][..i] == m[..i] && f.src == Path(f.src.dir, f.src.base);
      forall p | p != f.src ensures Lookup(now, p) == Lookup(before, p) && (p in now <==> p in before) {}
      if restored { WantedNext(m, saved, i); }
      hide Lists, Missing, Wanted, Recorded, IsUnitName;
    }

    lemma {:induction false} WantedNext(m: seq<SnapFile>, saved: map<(nat, string), Node>, i: nat)
      requires i < |m|
      ensures Wanted(m[..i + 1], saved, m[i].src) == Recorded(m[i], saved)
      ensures forall p :: p != m[i].src ==> Wanted(m[..i + 1], saved, p) == Wanted(m[..i], saved, p)
    {
      assert m[..i + 1][..i] == m[..i] && m[..i + 1][i] == m[i];
      hide Recorded;
    }

    lemma {:induction false} RestoredEnd(m: seq<SnapFile>, saved: map<(nat, string), Node>, was: map<Path, Node>,
        now: map<Path, Node>, listed: set<Path>, gone: set<string>, ok: bool)
      requires Restored(m, saved, |m|, was, now, listed, gone, ok)
      ensures forall p :: p in listed <==> Lists(m, p)
      ensures ok ==> forall p :: p in listed ==> Lookup(now, p) == Wanted(m, saved, p)
      ensures ok ==> forall p :: p in listed && IsUnit(p) && p !in now ==> p.base in gone
      ensures forall b :: b in gone ==> IsUnit(Path(systemd, b)) && Missing(m, Path(systemd, b))
      ensures forall p :: p !in listed ==> Lookup(now, p) == Lookup(was, p)
    {
      assert m[..|m|] == m;
      hide Lists, Missing, Wanted, IsUnitName;
    }

    /** restoreFiles: on success each listed file is as its (last) record says, the
        unit files are the listed ones when any is listed, no readable link names a
        removed unit, and nothing else has changed. */
    method RestoreFiles(m: seq<SnapFile>, saved: map<(nat, string), Node>)
        returns (ok: bool, ghost removed: set<string>)
      requires forall p :: p in files ==> p.dir in dirs
      modifies this
      ensures faults >= old(faults) && (faults == old(faults) ==> (ok <==> AllRestorable(m, saved)))
      ensures ok ==> forall p :: Lists(m, p) ==> Lookup(files, p) == Wanted(m, saved, p)
      ensures forall p :: !Lists(m, p) && !IsUnit(p) ==> Lookup(files, p) == Lookup(old(files), p)
      ensures forall p :: !Lists(m, p) && !OwnUnit(systemd, prefix, p) ==> Lookup(files, p) == Lookup(old(files), p)
      ensures ok && (exists p :: Lists(m, p) && OwnUnit(systemd, prefix, p)) ==>
        forall p :: OwnUnit(systemd, prefix, p) && !Lists(m, p) ==> p !in files
      ensures ok && (exists p :: Lists(m, p) && IsUnit(p)) ==>
        && (forall p :: IsUnit(p) && !Lists(m, p) ==> p !in files)
        && (forall p :: IsUnit(p) && (Lists(m, p) || p in old(files)) && p !in files ==> p.base in removed)
        && (forall w, n :: w in wants && HoldsLinks(w) && n in wants[w] ==> !NamesRemoved(n, wants[w][n], removed))
      ensures !(exists p :: Lists(m, p) && IsUnit(p)) ==>
        removed == {} && wants == old(wants) && forall p :: !Lists(m, p) ==> Lookup(files, p) == Lookup(old(files), p)
      ensures wants.Keys == old(wants).Keys
      ensures forall b :: b in removed ==> var p := Path(systemd, b);
        IsUnit(p) && (Missing(m, p) || (p in old(files) && !Lists(m, p)))
      ensures forall w, n :: w in wants && n in wants[w] ==> n in old(wants)[w] && wants[w][n] == old(wants)[w][n]
      ensures forall w, n ::
        w in wants && n in old(wants)[w] && !(HoldsLinks(w) && NamesRemoved(n, old(wants)[w][n], removed)) ==>
        n in wants[w] && wants[w][n] == old(wants)[w][n]
    {
      hide IsUnitName, OwnUnit, Missing, Wanted, Restorable;
      var listed, gone, unitsListed;
      ok, listed, gone, unitsListed := RestoreListed(m, saved);
      removed := {};
      if unitsListed {
        ghost var before := files;
        var swept;
        swept, removed := RemoveNewUnits(listed, gone);
        ok := ok && swept;
        KeptFiles(before, files, old(files), listed);
      }
    }

    /** Snapshot, then an update that leaves any files, folders and links at all, then a
        restore. On success every listed file is back, its existence, content, owner and permission
        bits. When a unit is listed, no other unit is there, and exactly the readable links
        that name one that is gone are gone too; when all of them were listed, the units are
        exactly those of the snapshot. When none is listed, units and links stay as the
        update left them. */
    method RoundTrip(paths: seq<Path>, files': map<Path, Node>, dirs': set<string>, wants': map<string, map<string,
        Entry>>)
      returns (ok: bool)
      requires (forall p :: p in files ==> p.dir in dirs) && forall p :: p in files' ==> p.dir in dirs'
      modifies this
      ensures faults == old(faults) ==> (ok <==> forall p :: p in paths ==> !Foreign(Lookup(old(files), p), p))
      ensures ok ==> forall p :: p in paths ==> Lookup(files, p) == CopiedLookup(old(files), p)
      ensures ok ==> forall p :: p !in paths && !IsUnit(p) ==> Lookup(files, p) == Lookup(files', p)
      ensures ok ==> forall p :: p !in paths && !OwnUnit(systemd, prefix, p) ==> Lookup(files, p) == Lookup(files', p)
      ensures ok && (exists p :: p in paths && OwnUnit(systemd, prefix, p)) ==>
        forall p :: OwnUnit(systemd, prefix, p) && p !in paths ==> p !in files
      ensures ok && (exists p :: p in paths && IsUnit(p)) ==>
        && (forall p :: IsUnit(p) && p !in paths ==> p !in files)
        && (forall w, n, p :: w in wants && HoldsLinks(w) && n in wants[w] && Gone(p, paths, files') ==>
          !Names(n, wants[w][n], p.base))
      ensures ok && (exists p :: p in paths && IsUnit(p)) ==>
        (forall p :: p in old(files) && IsUnit(p) ==> p in paths) ==>
        forall p :: IsUnit(p) ==> (p in files <==> p in old(files))
      ensures ok && !(exists p :: p in paths && IsUnit(p)) ==>
        wants == wants' && forall p :: p !in paths ==> Lookup(files, p) == Lookup(files', p)
      ensures ok ==> wants.Keys == wants'.Keys && forall w, n :: w in wants && n in wants[w] ==>
        n in wants'[w] && wants[w][n] == wants'[w][n]
      ensures ok ==> forall w, n :: w in wants && n in wants'[w] && n !in wants[w] ==>
        HoldsLinks(w) && exists p :: Gone(p, paths, files') && Names(n, wants'[w][n], p.base)
    {
      hide Records, Lists, Missing, Wanted, Recorded, IsUnitName, OwnUnit, HoldsLinks, HasSuffix, Foreign,
        AllRestorable;
      ghost var was := files;
      var m, saved;
      ok, m, saved := TakeFiles(paths);
      if !ok {
        return;
      }
      TakenRestorable(files, paths, m, saved);
      files, dirs, wants := files', dirs', wants';
      ghost var removed;
      ok, removed := RestoreFiles(m, saved);
      forall p ensures Lists(m, p) <==> p in paths { ListedPath(was, paths, m, saved, p); }
      forall p | p in paths ensures Wanted(m, saved, p) == CopiedLookup(was, p) {
        WantedIsRecorded(was, paths, m, saved, p);
      }
      if ok {
        forall b | b in removed ensures Gone(Path(systemd, b), paths, files') {
          var p := Path(systemd, b);
          MissingPath(was, paths, m, saved, p);
          if Missing(m, p) { assert Lookup(files, p) == CopiedLookup(was, p) == None; }
        }
        forall w, n | w in wants && n in wants'[w] && n !in wants[w]
          ensures exists p :: Gone(p, paths, files') && Names(n, wants'[w][n], p.base)
        {
          var b := if n in removed then n else BaseOf(wants'[w][n].target);
          assert Gone(Path(systemd, b), paths, files') && Names(n, wants'[w][n], Path(systemd, b).base);
        }
      }
    }

    lemma {:induction false} TakenRestorable(files: map<Path, Node>, paths: seq<Path>, m: seq<SnapFile>,
        saved: map<(nat, string), Node>)
      requires Records(files, paths, m, saved) && forall p :: p in paths ==> !Foreign(Lookup(files, p), p)
      ensures AllRestorable(m, saved)
    {
      hide OwnUnit;
      forall k | 0 <= k < |m| ensures Restorable(m[k], saved) {
        assert paths[k] in paths && Recorded(m[k], saved) == CopiedLookup(files, paths[k]);
      }
    }

    /** A unit that was listed, or there after the update, and is not there now. */
    ghost predicate Gone(p: Path, paths: seq<Path>, files': map<Path, Node>)
      reads this
    {
      IsUnit(p) && (p in paths || p in files') && p !in files
    }

    /** The second loop of removeNewUnits, over the folders that hold links. */
    method SweepLinks(removed: set<string>) returns (ok: bool)
      modifies this`wants, this`faults
      ensures faults >= old(faults) && (!ok ==> faults > old(faults))
      ensures wants.Keys == old(wants).Keys
      ensures forall w, n :: w in wants && n in wants[w] ==> n in old(wants)[w] && wants[w][n] == old(wants)[w][n]
      ensures forall w, n ::
        w in wants && n in old(wants)[w] && !(HoldsLinks(w) && NamesRemoved(n, old(wants)[w][n], removed)) ==>
          n in wants[w]
      ensures ok ==> forall w, n :: w in wants && HoldsLinks(w) && n in wants[w] ==>
        !NamesRemoved(n, wants[w][n], removed)
    {
      ok := true;
      var rest := wants.Keys;
      while rest != {}
        invariant wants.Keys == old(wants).Keys && rest <= wants.Keys
        invariant faults >= old(faults) && (!ok ==> faults > old(faults))
        invariant forall w :: w in rest ==> wants[w] == old(wants)[w]
        invariant forall w, n :: w in wants && n in wants[w] ==> n in old(wants)[w] && wants[w][n] == old(wants)[w][n]
        invariant forall w, n ::
          w in wants && n in old(wants)[w] && !(HoldsLinks(w) && NamesRemoved(n, old(wants)[w][n], removed)) ==>
            n in wants[w]
        invariant ok ==> forall w, n :: w in wants && w !in rest && HoldsLinks(w) && n in wants[w] ==>
          !NamesRemoved(n, wants[w][n], removed)
        decreases |rest|
      {
        var w :| w in rest;
        rest := rest - {w};
        if HoldsLinks(w) {
          var swept := RemoveLinksTo(w, removed);
          ok := ok && swept;
        }
      }
    }
  }

  lemma {:induction false} KeptFiles(before: map<Path, Node>, after: map<Path, Node>, start: map<Path, Node>,
      listed: set<Path>)
    requires forall p :: p in after ==> p in before && after[p] == before[p]
    requires forall p :: p !in listed ==> Lookup(before, p) == Lookup(start, p)
    ensures forall p :: (p in before ==> p in after) ==> Lookup(after, p) == Lookup(before, p)
    ensures forall p :: p !in listed ==> (p in before <==> p in start)
  {
    forall p | p !in listed ensures p in before <==> p in start { assert Lookup(before, p) == Lookup(start, p); }
  }

  // ── The round trip ──────────────────────────────────────────────────────────

  /** What the manifest says of p: its last record, when it has one. */
  ghost function Wanted(m: seq<SnapFile>, saved: map<(nat, string), Node>, p: Path): Option<Node> {
    if m == [] then None
    else if m[|m| - 1].src == p then Recorded(m[|m| - 1], saved)
    else Wanted(m[..|m| - 1], saved, p)
  }

  lemma {:induction false} ListedPath(files: map<Path, Node>, paths: seq<Path>, m: seq<SnapFile>,
      saved: map<(nat, string), Node>, p: Path)
    requires Records(files, paths, m, saved)
    ensures Lists(m, p) <==> p in paths
  {
    hide Recorded;
    if p in paths {
      var i :| 0 <= i < |paths| && paths[i] == p;
      assert m[i].src == p;
    }
  }

  lemma {:induction false} MissingPath(files: map<Path, Node>, paths: seq<Path>, m: seq<SnapFile>,
      saved: map<(nat, string), Node>, p: Path)
    requires Records(files, paths, m, saved)
    ensures Missing(m, p) ==> p in paths && p !in files
  {
    hide Recorded;
    if Missing(m, p) {
      var i :| 0 <= i < |m| && m[i].src == p && !m[i].existed;
      assert paths[i] == p;
    }
  }

  lemma {:induction false} WantedIsRecorded(files: map<Path, Node>, paths: seq<Path>, m: seq<SnapFile>,
      saved: map<(nat, string), Node>, p: Path)
    requires Records(files, paths, m, saved) && p in paths
    ensures Wanted(m, saved, p) == CopiedLookup(files, p)
  {
    var n := |m| - 1;
    if m[n].src != p {
      assert p in paths[..n];
      WantedIsRecorded(files, paths[..n], m[..n], saved, p);
    }
  }

  /** A readable link named like a removed unit, or leading to one. */
  ghost predicate NamesRemoved(name: string, e: Entry, removed: set<string>) {
    e.Symlink? && e.readable && (name in removed || BaseOf(e.target) in removed)
  }

  ghost predicate Names(name: string, e: Entry, unit: string) {
    e.Symlink? && e.readable && (name == unit || BaseOf(e.target) == unit)
  }
}
