/** One user's trash as its own operations see it (apps/root-worker/trash.go),
    each run by itself; a system call may fail wherever the source handles it. */
module Trash {
  import opened Text
  import opened TrashProtocol
  import Unzip

  datatype Outcome<+T> = Ok(value: T) | Err(code: string)

  /** Names that cannot leave a trash folder. */
  predicate ValidName(name: string) {
    name != "" && name != "." && name != ".." && '/' !in name && '\0' !in name && |name| <= 255
  }

  const NAME_MAX: nat := 255
  const INFO_EXT := ".trashinfo"

  /** A name of a file or folder: any text but these, with no slash and no NUL. */
  ghost predicate EntryName(name: string) {
    name !in ["", ".", ".."] && forall c :: c in name ==> c != '/' && c != '\0'
  }

  /** Valid are the names a folder can hold, and so those that lead to just that entry in it. */
  lemma {:induction false} ValidExactly(name: string)
    ensures ValidName(name) <==> EntryName(name) && |name| <= NAME_MAX
    ensures ValidName(name) <==>
      Unzip.Clean(name) == Unzip.Cleaned(false, 0, [name]) && '\0' !in name && |name| <= NAME_MAX
  {
    Unzip.CleanName(name);
    hide Unzip.Clean;
  }

  lemma {:induction false} CandidateIsName(base: string, n: nat)
    requires EntryName(base) && |Candidate(base, n)| <= NAME_MAX
    ensures ValidName(Candidate(base, n))
  {
    if n > 1 {
      assert forall c :: c in Decimal(n) ==> IsDigit(c);
      assert |Candidate(base, n)| == |base| + 1 + |Decimal(n)|;
    }
  }

  function Base(path: Path): string
    requires path != []
  {
    path[|path| - 1]
  }

  ghost function SeqSet(names: seq<string>): set<string> { set n | n in names }

  /** Removed by a purge: an item deleted before cutoff, or a record without item. */
  predicate Due(files: map<string, Tree>, info: map<string, Record>, cutoff: int, name: string) {
    name in info && ValidName(name) &&
    (name !in files || (info[name].Complete? && info[name].info.deletedAt < cutoff))
  }

  /** name is the first candidate, among those tried, taken in neither folder. */
  ghost predicate FirstFree(base: string, name: string, info: map<string, Record>, files: map<string, Tree>) {
    exists n: nat ::
      && 1 <= n < MAX_NAMES && name == Candidate(base, n)
      && (forall m: nat :: 1 <= m < n ==> Candidate(base, m) in info || Candidate(base, m) in files)
  }

  /** Some of the tree, with what is above each of its entries. */
  ghost predicate Part(sub: Tree, t: Tree) {
    && (forall p :: p in sub ==> p in t && sub[p] == t[p])
    && (forall p: Path, k :: p in sub && 0 <= k <= |p| && p[..k] in t ==> p[..k] in sub)
  }

  /** No item is new; all that are left are whole, but for one of which a part is left. */
  ghost predicate Reduced(f0: map<string, Tree>, f: map<string, Tree>) {
    && (forall k :: k in f ==> k in f0 && Part(f[k], f0[k]))
    && (forall j, k :: j in f && k in f && f[j] != f0[j] && f[k] != f0[k] ==> j == k)
  }

  lemma {:induction false} OnePart(f0: map<string, Tree>, f: map<string, Tree>, name: string, sub: Tree)
    requires (forall k :: k in f ==> k in f0 && f[k] == f0[k]) && name in f && Part(sub, f[name])
    ensures Reduced(f0, f[name := sub])
  {}

  ghost predicate NothingElsePurged(f0: map<string, Tree>, i0: map<string, Record>, f: map<string, Tree>,
      i: map<string, Record>, cutoff: int) {
    && (forall k :: k in f0 && !Due(f0, i0, cutoff, k) ==> k in f && f[k] == f0[k])
    && (forall k :: k in i0 && !Due(f0, i0, cutoff, k) ==> k in i && i[k] == i0[k])
    && Reduced(f0, f)
    && (forall k :: k in i ==> k in i0 && i[k] == i0[k])
    && (forall k :: k in f && k in i0 ==> k in i)
  }

  lemma {:induction false} PurgeStart(f0: map<string, Tree>, i0: map<string, Record>, cutoff: int)
    ensures PurgedExcept(f0, i0, f0, i0, cutoff, i0.Keys) && NothingElsePurged(f0, i0, f0, i0, cutoff)
  {}

  lemma {:induction false} PurgedIsConfined(f0: map<string, Tree>, i0: map<string, Record>, f: map<string, Tree>,
      i: map<string, Record>, cutoff: int, rest: set<string>)
    requires PurgedExcept(f0, i0, f, i, cutoff, rest)
    ensures NothingElsePurged(f0, i0, f, i, cutoff)
  {}

  lemma {:induction false} PurgeKeepsRecords(f0: map<string, Tree>, i0: map<string, Record>, f: map<string, Tree>,
      i: map<string, Record>, cutoff: int)
    requires NothingElsePurged(f0, i0, f, i, cutoff)
    requires forall k :: k in f0 ==> k in i0 && i0[k].Complete?
    ensures forall k :: k in f ==> k in i && i[k].Complete?
  {}

  /** The due records outside rest are gone with their items; the rest is as before. */
  ghost predicate PurgedExcept(f0: map<string, Tree>, i0: map<string, Record>, f: map<string, Tree>, i: map<string,
      Record>, cutoff: int, rest: set<string>) {
    && NothingElsePurged(f0, i0, f, i, cutoff) && (forall k :: k in f ==> k in f0 && f[k] == f0[k])
    && (forall k :: k in i0 && Due(f0, i0, cutoff, k) ==>
          if k in rest then k in i && (k in f0 ==> k in f) else k !in i && k !in f)
  }

  lemma {:induction false} PurgeNext(f0: map<string, Tree>, i0: map<string, Record>, f: map<string, Tree>,
      i: map<string, Record>, cutoff: int, rest: set<string>, name: string)
    requires PurgedExcept(f0, i0, f, i, cutoff, rest) && name in rest && name in i
    ensures NothingElsePurged(f0, i0, f, i, cutoff) && f.Keys <= f0.Keys
    ensures Due(f, i, cutoff, name) ==> NothingElsePurged(f0, i0, f - {name}, i, cutoff)
    ensures Due(f, i, cutoff, name) ==> PurgedExcept(f0, i0, f - {name}, i - {name}, cutoff, rest - {name})
    ensures Due(f, i, cutoff, name) && name !in f ==> f - {name} == f
    ensures forall sub :: Due(f, i, cutoff, name) && name in f && Part(sub, f[name]) ==>
      NothingElsePurged(f0, i0, f[name := sub], i, cutoff)
    ensures !Due(f, i, cutoff, name) ==> PurgedExcept(f0, i0, f, i, cutoff, rest - {name})
  {
    if Due(f, i, cutoff, name) { assert Due(f0, i0, cutoff, name); } else { assert !Due(f0, i0, cutoff, name); }
  }

  lemma {:induction false} CountRemoved(all: set<string>, left: set<string>, name: string)
    requires name in left && left <= all
    ensures |all - (left - {name})| == |all - left| + 1
  {
    assert all - (left - {name}) == (all - left) + {name};
  }

  /** Some name can be reserved: the first candidate without an info file that is not taken
      by an item is not too long for one. */
  ghost predicate NameFree(base: string, info: map<string, Record>, files: map<string, Tree>) {
    exists n: nat :: NameFreeAt(base, n, info, files)
  }

  ghost predicate NameFreeAt(base: string, n: nat, info: map<string, Record>, files: map<string, Tree>) {
    && 1 <= n < MAX_NAMES && Candidate(base, n) !in info && Candidate(base, n) !in files
    && (forall m: nat :: 1 <= m <= n && Candidate(base, m) !in info ==>
          |Candidate(base, m)| + |".trashinfo"| <= NAME_MAX)
  }

  /** The candidates before n are taken, and none of them is too long for an info file. */
  ghost predicate PassedBy(base: string, n: nat, info: map<string, Record>, files: map<string, Tree>) {
    forall m: nat :: 1 <= m < n && Candidate(base, m) !in info ==>
      Candidate(base, m) in files && |Candidate(base, m)| + |".trashinfo"| <= NAME_MAX
  }

  lemma {:induction false} PassedFacts(base: string, n: nat, info: map<string, Record>, files: map<string, Tree>)
    ensures PassedBy(base, 1, info, files)
    ensures var c := Candidate(base, n); var fits := |c| + |INFO_EXT| <= NAME_MAX;
      PassedBy(base, n, info, files) && n >= 1 ==>
        && (c in info || (c in files && fits) ==> PassedBy(base, n + 1, info, files))
        && (n < MAX_NAMES && c !in info && fits && c !in files ==> NameFree(base, info, files))
        && (n == MAX_NAMES || (c !in info && !fits) ==> !NameFree(base, info, files))
  {
    hide Candidate;
    var c := Candidate(base, n);
    if PassedBy(base, n, info, files) && n >= 1 {
      if n < MAX_NAMES && c !in info && |c| + |INFO_EXT| <= NAME_MAX && c !in files {
        assert NameFreeAt(base, n, info, files);
      }
      assert forall k: nat :: 1 <= k < n ==> !NameFreeAt(base, k, info, files);
    }
  }

  /** The item is recorded, and free is the place it goes to. */
  ghost predicate CanRestore(place: Tree, info: map<string, Record>, name: string, target: Option<Path>) {
    && name in info && info[name].Complete?
    && var dst := if target.Some? then target.value else info[name].info.path;
       Movable(dst) && dst !in place
  }

  lemma {:induction false} CountLost(all: set<string>, was: set<string>, now: set<string>)
    requires now <= was
    ensures |all - was| <= |all - now|
  {
    CountSubset(all - was, all - now);
  }

  lemma {:induction false} CountSubset(a: set<string>, b: set<string>)
    requires a <= b
    ensures |a| <= |b|
  {
    assert b == a + (b - a);
  }

  /** The entries made have numbers of their own, from next on. */
  ghost predicate NewNumbers(before: Tree, after: Tree, next: Inode, next': Inode) {
    && next <= next' && (forall p :: p in after && p !in before ==> next <= after[p] < next')
    && (forall p, q :: p in after && q in after && p !in before && q !in before && p != q ==> after[p] != after[q])
  }

  predicate Leaf(t: Tree, p: Path) { forall q :: q in t && p <= q ==> q == p }

  class UserTrash {
    var place: Tree
    var files: map<string, Tree>
    var info: map<string, Record>
    var next: Inode   // the number of the next entry made in the place
    /** How many calls have failed, folders found not ready among them. */
    ghost var faults: nat
    /** How many of them were the removal of an info file whose failure is ignored. */
    ghost var stuck: nat

    constructor (place: Tree, next: Inode)
      ensures this.place == place && this.next == next && files == map[] && info == map[]
      ensures faults == stuck == 0
    {
      this.place, this.next, files, info, faults, stuck := place, next, map[], map[], 0, 0;
    }

    /** A call, or a look at the folders, that can fail by itself. */
    method Try() returns (ok: bool)
      modifies this`faults
      ensures faults == old(faults) + if ok then 0 else 1
    {
      ok := *;
      if !ok { faults := faults + 1; }
    }

    /** Every item has its complete record. */
    ghost predicate AllRecorded()
      reads this
    {
      forall name :: name in files ==> name in info && info[name].Complete?
    }

    /** unlinkat of an info file whose failure the caller ignores. */
    method Unlink(name: string)
      modifies this`info, this`faults, this`stuck
      ensures info == old(info) - {name} || (info == old(info) && faults > old(faults) && stuck > old(stuck))
      ensures faults >= old(faults) && stuck >= old(stuck) && (faults == old(faults) ==> stuck == old(stuck))
    {
      var works := Try();
      if works { info := info - {name}; } else { stuck := stuck + 1; }
    }

    /** Creates the info file of a name and fills it; not when an item has the name already:
        then the file goes again. */
    method ReserveAs(name: string, content: Info) returns (r: Outcome<bool>)
      requires name !in info
      modifies this`info, this`faults, this`stuck
      ensures info - {name} == old(info) && faults >= old(faults) && stuck >= old(stuck)
      ensures stuck == old(stuck) && r != Ok(true) ==> name !in info
      ensures r.Err? ==> faults > old(faults)
      ensures r == Ok(true) ==> name in info && info[name] == Complete(content)
      ensures r == Ok(false) ==> name in files
      ensures faults == old(faults) ==> stuck == old(stuck)
      ensures faults == old(faults) ==> if r == Ok(true) then name !in files else name !in info
    {
      var created := Try();
      if !created {
        return Err("create");
      }
      info := info[name := Partial];
      var written := Try();
      if !written {
        Unlink(name);
        return Err("could not record the trash entry");
      }
      info := info[name := Complete(content)];
      var seen := Try();
      if name in files && seen {
        Unlink(name);
        return Ok(false);
      }
      return Ok(true);
    }

    /** Reserves the first candidate free in both folders by creating its info file. */
    method ReserveName(base: string, content: Info) returns (r: Outcome<string>)
      modifies this`info, this`faults, this`stuck
      ensures faults >= old(faults) && stuck >= old(stuck)
      ensures forall k :: k in old(info) ==> k in info && info[k] == old(info)[k]
      ensures faults == old(faults) ==> (r.Ok? <==> NameFree(base, old(info), files)) && stuck == old(stuck)
      ensures faults == old(faults) && r.Ok? ==> r.value !in files
      ensures stuck == old(stuck) ==> info == if r.Ok? then old(info)[r.value := Complete(content)] else old(info)
      ensures r.Ok? ==>
        && r.value !in old(info) && r.value in info && info[r.value] == Complete(content)
        && FirstFree(base, r.value, old(info), files) && (EntryName(base) ==> ValidName(r.value))
        && (forall k :: k in info ==> k == r.value || k in old(info) || k in files)
      ensures r.Err? ==> forall k :: k in info ==> k in old(info) || exists n: nat :: k == Candidate(base, n)
    {
      hide NameFree, PassedBy, Candidate, INFO_EXT, NAME_MAX, EntryName, ValidName;
      var n: nat := 1;
      PassedFacts(base, n, info, files);
      while n < MAX_NAMES
        invariant 1 <= n <= MAX_NAMES
        invariant forall k :: k in old(info) ==> k in info && info[k] == old(info)[k]
        invariant forall k :: k in info ==> k in old(info) || (k in files && exists m: nat :: k == Candidate(base, m))
        invariant forall m: nat :: 1 <= m < n ==> Candidate(base, m) in old(info) || Candidate(base, m) in files
        invariant faults >= old(faults) && stuck >= old(stuck)
        invariant faults == old(faults) ==> stuck == old(stuck) && PassedBy(base, n, old(info), files)
        invariant stuck == old(stuck) ==> info == old(info)
      {
        PassedFacts(base, n, old(info), files);
        var candidate := Candidate(base, n);
        if candidate in info {
          n := n + 1;
          continue;
        }
        if |candidate| + |INFO_EXT| > NAME_MAX {
          return Err("ENAMETOOLONG");
        }
        var reserved := ReserveAs(candidate, content);
        if reserved.Err? { return Err(reserved.code); }
        if !reserved.value {
          n := n + 1;
          continue;
        }
        if EntryName(base) { CandidateIsName(base, n); }
        return Ok(candidate);
      }
      PassedFacts(base, n, old(info), files);
      return Err("too many items with this name in the trash");
    }

    /** doTrash: on success the item is in files/ under a new name, recorded with the
        path it had, and nothing else moved; on failure nothing moved. */
    method DoTrash(path: Path, deletedAt: int, deletedBy: string) returns (r: Outcome<string>)
      modifies this
      ensures next == old(next) && faults >= old(faults)
      ensures faults == old(faults) ==>
        (r.Ok? <==> Movable(path) && path in old(place) && NameFree(Base(path), old(info), old(files)))
      ensures stuck >= old(stuck) && (stuck == old(stuck) && r.Err? ==> info == old(info))
      ensures forall k :: k in old(info) ==> k in info && info[k] == old(info)[k]
      ensures r.Ok? ==>
        && Movable(path) && path in old(place)
        && r.value !in old(files) && r.value !in old(info)
        && place == Without(old(place), path)
        && files == old(files)[r.value := Subtree(old(place), path)]
        && r.value in info && info[r.value] == Complete(Info(path, deletedAt, deletedBy))
      ensures r.Ok? ==> FirstFree(Base(path), r.value, old(info), old(files))
      ensures r.Ok? && EntryName(Base(path)) ==> ValidName(r.value)
      ensures r.Err? ==> place == old(place) && files == old(files)
      ensures !Movable(path) || path !in old(place) ==> r.Err? && info == old(info)
      ensures old(AllRecorded()) ==> AllRecorded()
    {
      if path == [] {
        return Err("EACCES");
      }
      if path[0] == TRASH_DIR {
        return Err("items already in the trash are deleted permanently");
      }
      if path !in place {
        return Err("ENOENT");
      }
      var ready := Try();
      if !ready {
        return Err("the trash of this place is not ready");
      }
      var reserved := ReserveName(Base(path), Info(path, deletedAt, deletedBy));
      if reserved.Err? {
        return reserved;
      }
      var name := reserved.value;
      var moved := Try();
      if !moved || name in files {
        Unlink(name);
        return Err("rename");
      }
      files := files[name := Subtree(place, path)];
      place := Without(place, path);
      return Ok(name);
    }

    /** os.MkdirAll of dst's parent: may stop after some of the folders. */
    method MakeParents(dst: Path) returns (ok: bool)
      requires dst != []
      modifies this`place, this`next, this`faults
      ensures faults >= old(faults) && (!ok ==> faults > old(faults))
      ensures forall p :: p in old(place) ==> p in place && place[p] == old(place)[p]
      ensures forall p :: p in place && p !in old(place) ==> exists k :: 0 < k < |dst| && p == dst[..k]
      ensures NewNumbers(old(place), place, old(next), next)
      ensures ok ==> forall k :: 0 < k < |dst| ==> dst[..k] in place
    {
      var k := 1;
      while k < |dst|
        invariant 1 <= k <= |dst| && faults >= old(faults)
        invariant NewNumbers(old(place), place, old(next), next)
        invariant forall p :: p in old(place) ==> p in place && place[p] == old(place)[p]
        invariant forall p :: p in place && p !in old(place) ==> exists j :: 0 < j < |dst| && p == dst[..j]
        invariant forall j :: 0 < j < k ==> dst[..j] in place
      {
        if dst[..k] !in place {
          var made := Try();
          if !made { return false; }
          place := place[dst[..k] := next];
          next := next + 1;
        }
        k := k + 1;
      }
      return true;
    }

    /** doTrashRestore: on success the item is at dst, whole, and no entry of the
        place was replaced; on failure it is still in files/ with its record. */
    method DoTrashRestore(name: string, target: Option<Path>) returns (r: Outcome<Path>)
      modifies this
      ensures r.Ok? ==>
        && name in old(files) && name in old(info) && old(info)[name].Complete?
        && r.value == (if target.Some? then target.value else old(info)[name].info.path)
        && Movable(r.value) && r.value !in old(place)
        && files == old(files) - {name}
        && (info == old(info) || info == old(info) - {name})
        && (forall p :: p in old(place) && !(r.value <= p) ==> p in place && place[p] == old(place)[p])
        && (forall q :: q in old(files)[name] ==> r.value + q in place && place[r.value + q] == old(files)[name][q])
      ensures faults >= old(faults) && (faults == old(faults) ==>
        (r.Ok? <==> name in old(files) && CanRestore(old(place), old(info), name, target)))
      ensures stuck >= old(stuck) && (stuck == old(stuck) && r.Ok? ==> info == old(info) - {name})
      ensures old(Closed(place)) ==> forall p :: p in old(place) ==> p in place && place[p] == old(place)[p]
      ensures r.Err? ==> files == old(files) && info == old(info)
      ensures old(AllRecorded()) ==> AllRecorded()
    {
      if name !in info || !info[name].Complete? {
        return Err("ENOENT");
      }
      var dst := if target.Some? then target.value else info[name].info.path;
      if !Movable(dst) {
        return Err("an item is restored inside its place");
      }
      if dst in place {
        return Err("EEXIST");
      }
      var parents := MakeParents(dst);
      if !parents {
        return Err("mkdir");
      }
      var moved := Try();
      if !moved || name !in files || dst in place {
        return Err("rename");
      }
      ghost var before := place;
      forall q | q in files[name] ensures dst <= dst + q && (dst + q)[|dst|..] == q {
        Cut(dst, q);
      }
      place := With(place, dst, files[name]);
      assert forall p :: p in before && !(dst <= p) ==> p in place && place[p] == before[p];
      if old(Closed(place)) {
        forall p | p in old(place) ensures p in place && place[p] == old(place)[p] {
          NothingBelow(old(place), dst, p);
        }
      }
      files := files - {name};
      Unlink(name);
      return Ok(dst);
    }

    /** removeAllAt: an item and all below it, from the leaves; one that fails leaves a part
        of it. */
    method RemoveAllAt(name: string) returns (ok: bool)
      modifies this`files, this`faults
      ensures faults >= old(faults) && (!ok ==> faults > old(faults))
      ensures ok ==> files == old(files) - {name}
      ensures !ok ==> name in old(files) && name in files && Part(files[name], old(files)[name])
      ensures !ok ==> files == old(files)[name := files[name]]
    {
      if name !in files {
        return true;
      }
      ok := Try();
      if ok {
        files := files - {name};
        return;
      }
      var rest, again: bool := files[name], *;
      while again && exists p :: p in rest && Leaf(rest, p)
        invariant Part(rest, files[name])
        decreases |rest|
      {
        var p :| p in rest && Leaf(rest, p);
        rest := rest - {p};
        again := *;
      }
      files := files[name := rest];
    }

    /** One item, then its record. */
    method RemoveOne(name: string) returns (r: Outcome<()>)
      modifies this`files, this`info, this`faults
      ensures faults >= old(faults) && (r.Err? ==> faults > old(faults))
      ensures r.Ok? ==> files == old(files) - {name} && info == old(info) - {name}
      ensures r.Err? ==> info == old(info)
      ensures r.Err? && name !in files ==> files == old(files) - {name}
      ensures r.Err? && name in files ==>
        name in old(files) && Part(files[name], old(files)[name]) && files == old(files)[name := files[name]]
    {
      hide Part;
      var removed := RemoveAllAt(name);
      if !removed {
        return Err("remove");
      }
      if name in info {
        var unlinked := Try();
        if !unlinked { return Err("unlink"); }
      }
      info := info - {name};
      return Ok(());
    }

    /** Removes names one by one, the item then its record, up to the first failure. */
    method RemoveEach(names: seq<string>) returns (r: Outcome<()>)
      modifies this`files, this`info, this`faults
      ensures faults >= old(faults) && (r.Err? ==> faults > old(faults) || exists n :: n in names && !ValidName(n))
      ensures r.Ok? ==> forall n :: n in names ==> ValidName(n)
      ensures r.Ok? ==> files == old(files) - SeqSet(names) && info == old(info) - SeqSet(names)
      ensures Reduced(old(files), files)
      ensures forall k :: k in files && k !in SeqSet(names) ==> files[k] == old(files)[k]
      ensures forall k :: k in info ==> k in old(info) && info[k] == old(info)[k]
      ensures files.Keys >= old(files).Keys - SeqSet(names) && info.Keys >= old(info).Keys - SeqSet(names)
      ensures forall k :: k in files && k in old(info) ==> k in info
    {
      for k := 0 to |names|
        invariant faults >= old(faults) && forall j :: 0 <= j < k ==> ValidName(names[j])
        invariant files == old(files) - SeqSet(names[..k]) && info == old(info) - SeqSet(names[..k])
      {
        var name := names[k];
        if !ValidName(name) {
          return Err("invalid trash item");
        }
        assert names[..k + 1] == names[..k] + [name];
        ghost var before := files;
        r := RemoveOne(name);
        if r.Err? {
          if name in files { OnePart(old(files), before, name, files[name]); }
          return;
        }
      }
      assert names[..|names|] == names;
      return Ok(());
    }

    /** removeTrashItems: the given names, or every record and item; other items
        stay with their records, and nothing is left recorded by half. A failed removal
        leaves a part of one item. */
    method RemoveTrashItems(given: Option<seq<string>>) returns (r: Outcome<()>)
      modifies this`files, this`info, this`faults
      ensures faults >= old(faults)
      ensures faults == old(faults) ==>
        (r.Ok? <==> forall n ::
          n in (if given.Some? then SeqSet(given.value) else old(info).Keys + old(files).Keys) ==> ValidName(n))
      ensures faults == old(faults) && r.Ok? && given == None ==> files == map[]
      ensures Reduced(old(files), files)
      ensures given.Some? ==> forall k :: k in files && k !in SeqSet(given.value) ==> files[k] == old(files)[k]
      ensures forall k :: k in info ==> k in old(info) && info[k] == old(info)[k]
      ensures given.Some? ==>
        files.Keys >= old(files).Keys - SeqSet(given.value) && info.Keys >= old(info).Keys - SeqSet(given.value)
      ensures r.Ok? && given.Some? ==>
        files == old(files) - SeqSet(given.value) && info == old(info) - SeqSet(given.value)
      ensures r.Ok? && given == None ==> info == map[] && forall k :: k in files ==> k !in old(info)
      ensures old(AllRecorded()) ==> AllRecorded()
      ensures old(AllRecorded()) && r.Ok? && given == None ==> files == map[]
    {
      if given.Some? {
        r := RemoveEach(given.value);
        return;
      }
      var infosRead := Try();
      if !infosRead {
        return Err("info");
      }
      var names := ListNames(info.Keys);
      assert info - SeqSet(names) == map[];
      var itemsRead := Try();
      if itemsRead {
        var items := ListNames(files.Keys);
        assert SeqSet(names + items) == SeqSet(names) + SeqSet(items);
        names := names + items;
      }
      r := RemoveEach(names);
    }

    /** One record of a purge: gone with its item when it is due, else left alone. */
    method PurgeRecord(name: string, cutoff: int) returns (counted: bool, r: Outcome<()>)
      requires name in info
      modifies this`files, this`info, this`faults
      ensures faults >= old(faults) && (r.Err? ==> faults > old(faults) && !counted)
      ensures r.Ok? && Due(old(files), old(info), cutoff, name) ==>
        files == old(files) - {name} && info == old(info) - {name}
      ensures r.Ok? && !Due(old(files), old(info), cutoff, name) ==> files == old(files) && info == old(info)
      ensures r.Ok? ==> counted == (Due(old(files), old(info), cutoff, name) && name in old(files))
      ensures r.Err? ==> Due(old(files), old(info), cutoff, name) && info == old(info)
      ensures r.Err? && name !in files ==> files == old(files) - {name}
      ensures r.Err? && name in files ==>
        name in old(files) && Part(files[name], old(files)[name]) && files == old(files)[name := files[name]]
    {
      var readable := info[name].Complete?;
      var orphan := name !in files;
      if !ValidName(name) || (readable && !orphan && !(info[name].info.deletedAt < cutoff)) || (!readable && !orphan) {
        return false, Ok(());
      }
      var itemGone := RemoveAllAt(name);
      if !itemGone {
        return false, Err("remove");
      }
      var infoGone := Try();
      if !infoGone {
        return false, Err("unlink");
      }
      info := info - {name};
      return !orphan, Ok(());
    }

    /** purgeUser: on success exactly the due records and their items are gone, and
        removed counts the items; at any failure nothing that was not due is. */
    method Purge(cutoff: int) returns (removed: nat, r: Outcome<()>)
      modifies this`files, this`info, this`faults
      ensures faults >= old(faults) && (r.Err? ==> faults > old(faults))
      ensures r.Ok? ==> PurgedExcept(old(files), old(info), files, info, cutoff, {})
      ensures r.Ok? ==> removed == |old(files).Keys - files.Keys|
      ensures removed <= |old(files).Keys - files.Keys|
      ensures NothingElsePurged(old(files), old(info), files, info, cutoff)
      ensures old(AllRecorded()) ==> AllRecorded()
    {
      hide PurgedExcept, NothingElsePurged, Due;
      removed := 0;
      ghost var f0, i0 := files, info;
      PurgeStart(files, info, cutoff);
      var listed := Try();
      if !listed {
        return 0, Err("info");
      }
      var rest := info.Keys;
      assert f0.Keys - files.Keys == {};
      while rest != {}
        invariant rest <= info.Keys && faults >= old(faults)
        invariant PurgedExcept(f0, i0, files, info, cutoff, rest)
        invariant removed == |f0.Keys - files.Keys|
        decreases |rest|
      {
        var name :| name in rest;
        ghost var f, i := files, info;
        PurgeNext(f0, i0, f, i, cutoff, rest, name);
        var counted;
        counted, r := PurgeRecord(name, cutoff);
        if r.Err? {
          KeptRecords(f0, i0, cutoff);
          CountLost(f0.Keys, f.Keys, files.Keys);
          return;
        }
        if counted { CountRemoved(f0.Keys, f.Keys, name); removed := removed + 1; }
        rest := rest - {name};
      }
      PurgedIsConfined(f0, i0, files, info, cutoff, rest);
      KeptRecords(f0, i0, cutoff);
      return removed, Ok(());
    }

    lemma {:induction false} KeptRecords(f0: map<string, Tree>, i0: map<string, Record>, cutoff: int)
      requires NothingElsePurged(f0, i0, files, info, cutoff)
      ensures (forall k :: k in f0 ==> k in i0 && i0[k].Complete?) ==> AllRecorded()
    {
      if forall k :: k in f0 ==> k in i0 && i0[k].Complete? {
        PurgeKeepsRecords(f0, i0, files, info, cutoff);
      }
    }

    /** doTrashList, before sorting: the recorded items and no others, once each. */
    method List() returns (entries: seq<(string, Info)>)
      ensures forall e :: e in entries ==> ValidName(e.0) && e.0 in files && e.0 in info && info[e.0] == Complete(e.1)
      ensures forall n :: ValidName(n) && n in files && n in info && info[n].Complete? ==> (n, info[n].info) in entries
      ensures forall i, j :: 0 <= i < j < |entries| ==> entries[i].0 != entries[j].0
    {
      entries := [];
      var rest := info.Keys;
      while rest != {}
        invariant rest <= info.Keys
        invariant forall e :: e in entries ==>
          e.0 !in rest && ValidName(e.0) && e.0 in files && e.0 in info && info[e.0] == Complete(e.1)
        invariant forall n :: n in info && n !in rest && ValidName(n) && n in files && info[n].Complete? ==>
          (n, info[n].info) in entries
        invariant forall i, j :: 0 <= i < j < |entries| ==> entries[i].0 != entries[j].0
        decreases |rest|
      {
        var name :| name in rest;
        rest := rest - {name};
        if ValidName(name) && info[name].Complete? && name in files {
          forall i | 0 <= i < |entries| ensures entries[i].0 != name { assert entries[i] in entries; }
          entries := entries + [(name, info[name].info)];
        }
      }
    }
  }

  /** A folder's names, in some order. */
  method ListNames(keys: set<string>) returns (names: seq<string>)
    ensures SeqSet(names) == keys
  {
    names := [];
    var rest := keys;
    while rest != {}
      invariant SeqSet(names) + rest == keys
      decreases |rest|
    {
      var k :| k in rest;
      assert SeqSet(names + [k]) == SeqSet(names) + {k};
      names := names + [k];
      rest := rest - {k};
    }
  }
}
