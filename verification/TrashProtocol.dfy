/** The trash of one user in one place (apps/root-worker/trash.go), as processes
    that change files/, info/ and the place one system call at a time. Each may
    fail or die after any of its steps, and others run in between. */
module TrashProtocol {
  import opened Text

  type Path = seq<string>
  type Pid = nat

  /** An entry of the disk: what must be neither lost nor duplicated. */
  type Inode = nat

  /** A subtree by relative path; [] is its root. */
  type Tree = map<Path, Inode>

  const TRASH_DIR := ".hsi-trash"
  const MAX_NAMES := 10000

  datatype Info = Info(path: Path, deletedAt: int, deletedBy: string)

  /** An info file: created empty, then written. */
  datatype Record = Partial | Complete(info: Info)

  datatype MoverStep =
    | Reserve(n: nat)           // openat(O_CREAT|O_EXCL) of candidate n's info file
    | Record(n: nat)            // write and close it
    | LookForLeftover(n: nat)   // lstat of candidate n in files/
    | GiveUpName(n: nat)        // unlink candidate n's info file, then try n + 1
    | MoveIn(n: nat)            // renameat2(RENAME_NOREPLACE) into files/
    | Withdraw(n: nat)          // unlink candidate n's info file and fail

  datatype RestorerStep =
    | ReadInfo(target: Option<Path>)
    | CheckTarget(dst: Path)    // lstat of the destination
    | MakeParents(dst: Path)    // mkdir of its missing ancestors, one at a time
    | MoveOut(dst: Path)        // renameat2(RENAME_NOREPLACE) out of files/
    | DropInfo                  // unlink of the info file

  datatype Proc =
    | Mover(info: Info, move: MoverStep)
    | Restorer(name: string, restore: RestorerStep)

  /** from is history: where the item now in files/name was moved from. */
  datatype State = State(
    place: Tree, files: map<string, Tree>, info: map<string, Record>,
    procs: map<Pid, Proc>, next: Inode, from: map<string, Path>)

  // ── Names and paths ─────────────────────────────────────────────────────────

  function Candidate(base: string, n: nat): string {
    if n <= 1 then base else base + "." + Decimal(n)
  }

  /** doTrash's own checks: an item inside the place, and not in the trash. */
  predicate Movable(path: Path) { path != [] && path[0] != TRASH_DIR }

  function NameOf(m: Proc): string
    requires m.Mover? && m.info.path != []
  {
    Candidate(m.info.path[|m.info.path| - 1], m.move.n)
  }

  ghost predicate HasParent(t: Tree, p: Path) {
    |p| == 1 || (|p| > 1 && p[..|p| - 1] in t)
  }

  // ── Trees ───────────────────────────────────────────────────────────────────

  ghost predicate Closed(t: Tree) {
    forall p: Path, k :: p in t && 0 < k < |p| ==> p[..k] in t
  }

  ghost predicate Rooted(sub: Tree) {
    forall r: Path, k :: r in sub && 0 <= k <= |r| ==> r[..k] in sub
  }

  lemma {:induction false} Rejoin(path: Path, q: Path)
    requires path <= q
    ensures path + q[|path|..] == q
  {}

  lemma {:induction false} Cut(path: Path, r: Path)
    ensures path <= path + r && (path + r)[|path|..] == r
  {}

  /** What moves with path: its own entry at [] and everything below it. */
  function Subtree(t: Tree, path: Path): (sub: Tree)
    ensures forall r {:trigger r in sub} :: r in sub <==> path + r in t
    ensures forall r {:trigger sub[r]} :: r in sub ==> sub[r] == t[path + r]
  {
    var keys: set<Path> := set q | q in t && path <= q :: q[|path|..];
    assert forall r {:trigger r in keys} :: r in keys <==> path + r in t by {
      forall r: Path ensures r in keys <==> path + r in t {
        Cut(path, r);
        if r in keys { var q :| q in t && path <= q && q[|path|..] == r; Rejoin(path, q); }
      }
    }
    map r | r in keys :: t[path + r]
  }

  function Without(t: Tree, path: Path): Tree {
    map p | p in t && !(path <= p) :: t[p]
  }

  function With(t: Tree, path: Path, sub: Tree): (all: Tree)
    ensures forall p {:trigger p in all} :: p in all <==> p in t || (path <= p && p[|path|..] in sub)
    ensures forall p {:trigger all[p]} :: p in all ==>
      all[p] == if path <= p && p[|path|..] in sub then sub[p[|path|..]] else t[p]
  {
    var keys: set<Path> := set r | r in sub :: path + r;
    assert forall p {:trigger p in keys} :: p in keys <==> path <= p && p[|path|..] in sub by {
      forall p: Path ensures p in keys <==> path <= p && p[|path|..] in sub {
        if p in keys { var r :| r in sub && path + r == p; Cut(path, r); }
        if path <= p && p[|path|..] in sub { Rejoin(path, p); }
      }
    }
    t + map p | p in keys :: sub[p[|path|..]]
  }

  /** Moving a subtree out and back to where it was changes nothing. */
  lemma {:induction false} OutAndBack(t: Tree, path: Path)
    ensures With(Without(t, path), path, Subtree(t, path)) == t
  {
    var back := With(Without(t, path), path, Subtree(t, path));
    forall p ensures p in back <==> p in t
             ensures p in t ==> back[p] == t[p]
    {
      if path <= p { Rejoin(path, p); }
    }
  }

  // ── One step ────────────────────────────────────────────────────────────────

  /** name's info file is unlinked; the caller ignores whether that worked. */
  ghost predicate MayUnlink(info: map<string, Record>, info': map<string, Record>, name: string) {
    info' == info || info' == info - {name}
  }

  /** What a system call of process pid does. The process goes on as next, or
      ends (None), for good or with an error. */
  ghost predicate MoverActs(s: State, s': State, m: Proc, next: Option<Proc>)
    requires m.Mover? && Movable(m.info.path)
  {
    var name, n, path := NameOf(m), m.move.n, m.info.path;
    match m.move
    case Reserve(_) =>
      || (next == None && s' == s)                                            // error, or no name left
      || (n < MAX_NAMES && name in s.info && next == Some(m.(move := Reserve(n + 1))) && s' == s)
      || (n < MAX_NAMES && name !in s.info && next == Some(m.(move := Record(n))) &&
          s' == s.(info := s.info[name := Partial]))
    case Record(_) =>
      || (next == Some(m.(move := LookForLeftover(n))) && s' == s.(info := s.info[name := Complete(m.info)]))
      || (next == Some(m.(move := Withdraw(n))) && s' == s)                   // the write failed
    case LookForLeftover(_) =>
      && s' == s
      && (next == Some(m.(move := MoveIn(n))) || (name in s.files && next == Some(m.(move := GiveUpName(n)))))
    case GiveUpName(_) =>
      next == Some(m.(move := Reserve(n + 1))) && s' == s.(info := s'.info) && MayUnlink(s.info, s'.info, name)
    case MoveIn(_) =>
      || (next == Some(m.(move := Withdraw(n))) && s' == s)
      || (path in s.place && name !in s.files && next == None &&
          s' == s.(place := Without(s.place, path), files := s.files[name := Subtree(s.place, path)],
                   from := s.from[name := path]))
    case Withdraw(_) =>
      next == None && s' == s.(info := s'.info) && MayUnlink(s.info, s'.info, name)
  }

  ghost predicate RestorerActs(s: State, s': State, r: Proc, next: Option<Proc>)
    requires r.Restorer?
  {
    var name := r.name;
    || (next == None && s' == s && !r.restore.DropInfo?)                      // any call may fail
    || match r.restore
       case ReadInfo(target) =>
         && name in s.info && s.info[name].Complete? && s' == s
         && var dst := if target.Some? then target.value else s.info[name].info.path;
            Movable(dst) && next == Some(r.(restore := CheckTarget(dst)))
       case CheckTarget(dst) =>
         dst !in s.place && s' == s && next == Some(r.(restore := MakeParents(dst)))
       case MakeParents(dst) =>
         || (s' == s && next == Some(r.(restore := MoveOut(dst))))
         || (next == Some(r) && exists k :: 0 < k < |dst| && MadeDir(s, s', dst[..k]))
       case MoveOut(dst) =>
         && name in s.files && dst !in s.place && HasParent(s.place, dst)
         && s' == s.(place := With(s.place, dst, s.files[name]), files := s.files - {name})
         && next == Some(r.(restore := DropInfo))
       case DropInfo =>
         next == None && s' == s.(info := s'.info) && MayUnlink(s.info, s'.info, name)
  }

  /** A new entry appears in an existing folder. */
  ghost predicate MadeDir(s: State, s': State, p: Path) {
    && Movable(p) && p !in s.place && HasParent(s.place, p)
    && s' == s.(place := s.place[p := s.next], next := s.next + 1)
  }

  ghost function Goes(procs: map<Pid, Proc>, pid: Pid, next: Option<Proc>): map<Pid, Proc> {
    if next.Some? then procs[pid := next.value] else procs - {pid}
  }

  datatype Step =
    | Start(pid: Pid, proc: Proc)
    | Act(pid: Pid, next: Option<Proc>)
    | Die(pid: Pid)
    | Appear(path: Path)   // someone else makes something in the place

  ghost predicate Fresh(p: Proc) {
    match p
    case Mover(info, move) => Movable(info.path) && move == Reserve(1)
    case Restorer(_, restore) => restore.ReadInfo?
  }

  ghost predicate Takes(s: State, step: Step, s': State) {
    match step
    case Start(pid, p) => pid !in s.procs && Fresh(p) && s' == s.(procs := s.procs[pid := p])
    case Act(pid, next) =>
      && pid in s.procs
      && var p, mid := s.procs[pid], s'.(procs := s.procs);
         && (if p.Mover? then Movable(p.info.path) && MoverActs(s, mid, p, next) else RestorerActs(s, mid, p, next))
         && s'.procs == Goes(s.procs, pid, next)
    case Die(pid) => pid in s.procs && s' == s.(procs := s.procs - {pid})
    case Appear(p) => MadeDir(s, s', p)
  }

  // ── What every step keeps ───────────────────────────────────────────────────

  /** The name a process has reserved, from creating its info file to its last call. */
  ghost function Owned(p: Proc): Option<string> {
    match p
    case Mover(info, move) =>
      if !Movable(info.path) || move.Reserve? then None else Some(NameOf(p))
    case Restorer(name, restore) => if restore.DropInfo? then Some(name) else None
  }

  /** What a process may rely on about the name it owns, unless it is one of the leftovers. */
  ghost predicate Holds(s: State, p: Proc, leftovers: set<string>) {
    && (p.Mover? ==> Movable(p.info.path))
    && (Owned(p).Some? && Owned(p).value !in leftovers ==> Owned(p).value in s.info && Owned(p).value !in s.files)
    && (p.Mover? && (p.move.LookForLeftover? || p.move.MoveIn?) && NameOf(p) !in leftovers ==>
      s.info[NameOf(p)] == Complete(p.info))
  }

  ghost predicate OwnedOnlyBy(s: State, pid: Pid, name: string) {
    forall other :: other in s.procs && other != pid ==> Owned(s.procs[other]) != Some(name)
  }

  /** An item in files/ has its complete record, naming where it came from. */
  ghost predicate Recorded(s: State, name: string) {
    name in s.info && name in s.from && s.info[name].Complete? && s.info[name].info.path == s.from[name]
  }

  /** An item that a mover brought has its complete record; one of the start is there as it
      was, with the record it had. */
  ghost predicate Kept(s: State, start: State, name: string) {
    && name in s.info
    && if name in s.from then Recorded(s, name)
       else
         && name in s.files && name in start.files && s.files[name] == start.files[name]
         && name in start.info && s.info[name] == start.info[name]
  }

  /** The items that have no info file, not even one that was never written. */
  function Leftovers(start: State): set<string> { start.files.Keys - start.info.Keys }

  ghost predicate Consistent(s: State, start: State) {
    var leftovers := Leftovers(start);
    && (forall name :: name in s.files && name !in leftovers ==> Kept(s, start, name))
    && (forall pid :: pid in s.procs ==> Holds(s, s.procs[pid], leftovers))
    && (forall pid :: pid in s.procs ==> OwnsAlone(s, pid, s.procs[pid], leftovers))
  }

  ghost predicate OwnsAlone(s: State, pid: Pid, p: Proc, leftovers: set<string>) {
    Owned(p).Some? && Owned(p).value !in leftovers ==> OwnedOnlyBy(s, pid, Owned(p).value)
  }

  datatype Loc = InPlace(path: Path) | InTrash(name: string, path: Path)

  ghost predicate At(s: State, l: Loc, i: Inode) {
    match l
    case InPlace(p) => p in s.place && s.place[p] == i
    case InTrash(name, p) => name in s.files && p in s.files[name] && s.files[name][p] == i
  }

  ghost predicate Located(s: State, i: Inode) { exists l :: At(s, l, i) }

  /** Every entry ever made is at exactly one location, and the place is a tree. */
  ghost predicate Conserved(s: State) {
    && (forall l, i: Inode :: At(s, l, i) ==> i < s.next)
    && (forall i: Inode :: i < s.next ==> Located(s, i))
    && (forall l1, l2, i: Inode :: At(s, l1, i) && At(s, l2, i) ==> l1 == l2)
    && Closed(s.place) && [] !in s.place
    && (forall name :: name in s.files ==> Rooted(s.files[name]))
  }

  ghost predicate TouchesOnly(s: State, s': State, name: string) {
    forall n :: n != name ==>
      && (n in s'.files <==> n in s.files) && (n in s.files ==> s'.files[n] == s.files[n])
      && (n in s'.info <==> n in s.info) && (n in s.info ==> s'.info[n] == s.info[n])
      && (n in s'.from <==> n in s.from) && (n in s.from ==> s'.from[n] == s.from[n])
  }

  /** A step that touches one name keeps the invariant when no other process owns
      that name, or nothing changes but the process itself. */
  lemma {:induction false} FrameKeepsConsistent(s: State, s': State, pid: Pid, next: Option<Proc>, name: string,
      start: State)
    requires Consistent(s, start) && pid in s.procs && s'.procs == Goes(s.procs, pid, next)
    requires TouchesOnly(s, s', name) && (name in s'.files && name !in Leftovers(start) ==> Kept(s', start, name))
    requires name in Leftovers(start) || OwnedOnlyBy(s, pid, name)
      || (s'.info == s.info && s'.files == s.files && s'.from == s.from)
    requires next.Some? ==> Holds(s', next.value, Leftovers(start))
    requires next.Some? && Owned(next.value).Some? ==>
      Owned(next.value).value == name && (name in Leftovers(start) || OwnedOnlyBy(s, pid, name))
    ensures Consistent(s', start)
  {
    forall n | n in s'.files && n !in Leftovers(start) ensures Kept(s', start, n) {
      if n in s.files { assert Kept(s, start, n); }
    }
    forall other | other in s'.procs ensures Holds(s', s'.procs[other], Leftovers(start)) {
      if other != pid { assert Holds(s, s.procs[other], Leftovers(start)); }
    }
    forall x | x in s'.procs ensures OwnsAlone(s', x, s'.procs[x], Leftovers(start)) {
      if x != pid { assert OwnsAlone(s, x, s.procs[x], Leftovers(start)); }
    }
  }

  lemma {:induction false} FreeName(s: State, pid: Pid, name: string, start: State)
    requires Consistent(s, start) && name !in s.info && name !in Leftovers(start)
    ensures OwnedOnlyBy(s, pid, name) && name !in s.files
  {
    forall other | other in s.procs && other != pid ensures Owned(s.procs[other]) != Some(name) {
      assert Holds(s, s.procs[other], Leftovers(start));
    }
    assert name in s.files ==> Kept(s, start, name);
  }

  lemma {:induction false} MoverTouches(s: State, s': State, m: Proc, next: Option<Proc>, start: State)
    requires m.Mover? && Holds(s, m, Leftovers(start)) && MoverActs(s, s', m, next)
    requires NameOf(m) in s.files && NameOf(m) !in Leftovers(start) ==> Kept(s, start, NameOf(m))
    ensures TouchesOnly(s, s', NameOf(m))
    ensures NameOf(m) in s'.files && NameOf(m) !in Leftovers(start) ==> Kept(s', start, NameOf(m))
    ensures m.move.Reserve? ==> NameOf(m) !in s.info || (s'.info == s.info && s'.files == s.files && s'.from == s.from)
  {
    hide Subtree, Without, Candidate, Leftovers;
  }

  lemma {:induction false} MoverGoesOn(s: State, s': State, m: Proc, next: Option<Proc>, start: State)
    requires m.Mover? && Holds(s, m, Leftovers(start)) && MoverActs(s, s', m, next) && next.Some?
    requires NameOf(m) in s.files && NameOf(m) !in Leftovers(start) ==> Kept(s, start, NameOf(m))
    ensures Holds(s', next.value, Leftovers(start))
    ensures Owned(next.value).Some? ==>
      Owned(next.value).value == NameOf(m) && (m.move.Reserve? ==> NameOf(m) !in s.info)
  {
    hide Subtree, Without, Candidate, Leftovers;
  }

  lemma {:induction false} MoverKeepsConsistent(s: State, s': State, pid: Pid, next: Option<Proc>,
      start: State)
    requires Consistent(s, start) && Takes(s, Act(pid, next), s') && s.procs[pid].Mover?
    ensures Consistent(s', start)
  {
    var m, mid := s.procs[pid], s'.(procs := s.procs);
    assert Holds(s, m, Leftovers(start));
    var name := NameOf(m);
    MoverTouches(s, mid, m, next, start);
    if next.Some? { MoverGoesOn(s, mid, m, next, start); }
    if name in Leftovers(start) {
    } else if name !in s.info {
      FreeName(s, pid, name, start);
    } else if !m.move.Reserve? {
      assert OwnsAlone(s, pid, m, Leftovers(start));
    }
    hide MoverActs, NameOf;
    FrameKeepsConsistent(s, s', pid, next, name, start);
  }

  lemma {:induction false} RestorerTouches(s: State, s': State, r: Proc, next: Option<Proc>, start: State)
    requires r.Restorer? && RestorerActs(s, s', r, next)
    requires r.restore.DropInfo? ==> r.name in Leftovers(start) || r.name !in s.files
    requires r.name in s.files && r.name !in Leftovers(start) ==> Kept(s, start, r.name)
    ensures TouchesOnly(s, s', r.name)
    ensures r.name in s'.files && r.name !in Leftovers(start) ==> Kept(s', start, r.name)
    ensures r.restore.DropInfo? || r.name in s.files || (s'.info == s.info && s'.files == s.files && s'.from == s.from)
    ensures next.Some? ==> Owned(next.value) == None || (Owned(next.value).value == r.name && r.name in s.files)
    ensures next.Some? && Owned(next.value).Some? ==> s'.info == s.info && r.name !in s'.files
    ensures next.Some? ==> next.value.Restorer?
  {
    hide With, Leftovers;
  }

  lemma {:induction false} RestorerKeepsConsistent(s: State, s': State, pid: Pid, next: Option<Proc>, start: State)
    requires Consistent(s, start) && Takes(s, Act(pid, next), s') && s.procs[pid].Restorer?
    ensures Consistent(s', start)
  {
    var r, mid := s.procs[pid], s'.(procs := s.procs);
    var name := r.name;
    assert Holds(s, r, Leftovers(start)) && OwnsAlone(s, pid, r, Leftovers(start));
    RestorerTouches(s, mid, r, next, start);
    if name in s.files && name !in Leftovers(start) {
      assert Kept(s, start, name);
      forall other | other in s.procs && other != pid ensures Owned(s.procs[other]) != Some(name) {
        assert Holds(s, s.procs[other], Leftovers(start));
      }
    }
    hide RestorerActs, Leftovers, Kept, NameOf;
    FrameKeepsConsistent(s, s', pid, next, name, start);
  }

  /** What a start, a death or another's new entry changes is no name. */
  lemma {:induction false} OthersKeepConsistent(s: State, step: Step, s': State, start: State)
    requires Consistent(s, start) && Takes(s, step, s') && !step.Act?
    ensures Consistent(s', start)
  {
    forall name | name in s'.files && name !in Leftovers(start) ensures Kept(s', start, name) {
      assert Kept(s, start, name);
    }
    forall x | x in s'.procs ensures Holds(s', s'.procs[x], Leftovers(start)) {
      if x in s.procs { assert Holds(s, s.procs[x], Leftovers(start)); }
    }
    forall x | x in s'.procs ensures OwnsAlone(s', x, s'.procs[x], Leftovers(start)) {
      if x in s.procs { assert OwnsAlone(s, x, s.procs[x], Leftovers(start)); }
    }
  }

  /** Whatever step runs next, each item stays recorded and each name owned once, but for
      the names of the leftovers. */
  lemma {:induction false} StepKeepsConsistent(s: State, step: Step, s': State, start: State)
    requires Consistent(s, start) && Takes(s, step, s')
    ensures Consistent(s', start)
  {
    if !step.Act? {
      OthersKeepConsistent(s, step, s', start);
    } else if s.procs[step.pid].Mover? {
      MoverKeepsConsistent(s, s', step.pid, step.next, start);
    } else {
      RestorerKeepsConsistent(s, s', step.pid, step.next, start);
    }
  }

  // ── Nothing lost, nothing duplicated, nothing overwritten ───────────────────

  lemma {:induction false} SameEntries(s: State, s': State)
    requires Conserved(s) && s'.place == s.place && s'.files == s.files && s'.next == s.next
    ensures Conserved(s')
  {
    forall l, i: Inode ensures At(s', l, i) <==> At(s, l, i) {}
    forall i: Inode | i < s.next ensures Located(s', i) {
      assert Located(s, i);
      var l :| At(s, l, i);
      assert At(s', l, i);
    }
  }

  lemma {:induction false} NewEntryConserves(s: State, s': State, p: Path)
    requires Conserved(s) && MadeDir(s, s', p)
    ensures Conserved(s')
  {
    forall i: Inode | i < s'.next ensures Located(s', i) {
      if i == s.next {
        assert At(s', InPlace(p), i);
      } else {
        assert Located(s, i);
        var l :| At(s, l, i);
        assert At(s', l, i);
      }
    }
    forall l, i: Inode | At(s', l, i) ensures At(s, l, i) || (l == InPlace(p) && i == s.next) {}
    forall q: Path, k | q in s'.place && 0 < k < |q| ensures q[..k] in s'.place {
      if q == p && k < |p| - 1 { assert p[..|p| - 1][..k] == p[..k]; }
    }
  }

  ghost predicate MovedIn(s: State, s': State, path: Path, name: string) {
    && path in s.place && name !in s.files && s'.next == s.next
    && s'.place == Without(s.place, path) && s'.files == s.files[name := Subtree(s.place, path)]
  }

  ghost predicate MovedOut(s: State, s': State, name: string, dst: Path) {
    && name in s.files && dst !in s.place && HasParent(s.place, dst) && s'.next == s.next
    && s'.place == With(s.place, dst, s.files[name]) && s'.files == s.files - {name}
  }

  /** Where an entry of the state after a move into the trash was before it. */
  ghost function BeforeMoveIn(l: Loc, path: Path, name: string): Loc {
    match l
    case InPlace(_) => l
    case InTrash(n, r) => if n == name then InPlace(path + r) else l
  }

  lemma {:induction false} MoveInKeepsEntry(s: State, s': State, path: Path, name: string, l: Loc, i: Inode)
    requires MovedIn(s, s', path, name) && At(s', l, i)
    ensures At(s, BeforeMoveIn(l, path, name), i)
    ensures l.InPlace? ==> !(path <= l.path)
  {}

  lemma {:induction false} MoveInConserves(s: State, s': State, path: Path, name: string)
    requires Conserved(s) && MovedIn(s, s', path, name)
    ensures Conserved(s')
  {
    forall l, i: Inode | At(s', l, i) ensures i < s'.next {
      MoveInKeepsEntry(s, s', path, name, l, i);
    }
    forall i: Inode | i < s'.next ensures Located(s', i) {
      assert Located(s, i);
      var l :| At(s, l, i);
      if l.InPlace? && path <= l.path {
        Rejoin(path, l.path);
        assert At(s', InTrash(name, l.path[|path|..]), i);
      } else {
        assert At(s', l, i);
      }
    }
    forall l1, l2, i: Inode | At(s', l1, i) && At(s', l2, i) ensures l1 == l2 {
      MoveInKeepsEntry(s, s', path, name, l1, i);
      MoveInKeepsEntry(s, s', path, name, l2, i);
      assert BeforeMoveIn(l1, path, name) == BeforeMoveIn(l2, path, name);
      if l1.InTrash? { Cut(path, l1.path); }
      if l2.InTrash? { Cut(path, l2.path); }
    }
    MoveInKeepsTrees(s, s', path, name);
  }

  lemma {:induction false} MoveInKeepsTrees(s: State, s': State, path: Path, name: string)
    requires Conserved(s) && MovedIn(s, s', path, name)
    ensures Closed(s'.place) && [] !in s'.place
    ensures forall n :: n in s'.files ==> Rooted(s'.files[n])
  {
    forall p: Path, k | p in s'.place && 0 < k < |p| ensures p[..k] in s'.place {
      assert path <= p[..k] ==> path <= p;
    }
    forall r: Path, k | r in Subtree(s.place, path) && 0 <= k <= |r| ensures r[..k] in Subtree(s.place, path) {
      assert (path + r)[..|path| + k] == path + r[..k];
      if |path| + k == |path + r| { assert r[..k] == r; }
    }
  }

  /** Where an entry of the state after a move out of the trash was before it. */
  ghost function BeforeMoveOut(l: Loc, sub: Tree, name: string, dst: Path): Loc {
    match l
    case InPlace(p) => if dst <= p && p[|dst|..] in sub then InTrash(name, p[|dst|..]) else l
    case InTrash(_, _) => l
  }

  lemma {:induction false} NothingBelow(t: Tree, dst: Path, p: Path)
    requires Closed(t) && dst !in t && dst != [] && p in t
    ensures !(dst <= p)
  {
    if |dst| < |p| {
      assert p[..|dst|] in t;
      assert dst <= p <==> p[..|dst|] == dst;
    } else {
      assert dst <= p ==> dst == p;
    }
  }

  /** A restore overwrites nothing: every entry of the place stays as it was. */
  lemma {:induction false} MoveOutOverwritesNothing(s: State, s': State, name: string, dst: Path)
    requires Closed(s.place) && MovedOut(s, s', name, dst)
    ensures forall p :: p in s.place ==> p in s'.place && s'.place[p] == s.place[p]
  {
    forall p | p in s.place ensures p in s'.place && s'.place[p] == s.place[p] {
      NothingBelow(s.place, dst, p);
    }
  }

  lemma {:induction false} MoveOutConserves(s: State, s': State, name: string, dst: Path)
    requires Conserved(s) && MovedOut(s, s', name, dst)
    ensures Conserved(s')
  {
    var sub := s.files[name];
    MoveOutOverwritesNothing(s, s', name, dst);
    forall l, i: Inode | At(s', l, i) ensures i < s'.next && At(s, BeforeMoveOut(l, sub, name, dst), i) {
      assert At(s, BeforeMoveOut(l, sub, name, dst), i);
    }
    forall i: Inode | i < s'.next ensures Located(s', i) {
      assert Located(s, i);
      var l :| At(s, l, i);
      if l.InTrash? && l.name == name {
        Cut(dst, l.path);
        assert At(s', InPlace(dst + l.path), i);
      } else {
        assert At(s', l, i);
      }
    }
    forall l1, l2, i: Inode | At(s', l1, i) && At(s', l2, i) ensures l1 == l2 {
      assert BeforeMoveOut(l1, sub, name, dst) == BeforeMoveOut(l2, sub, name, dst);
      if l1.InPlace? && dst <= l1.path { Rejoin(dst, l1.path); }
      if l2.InPlace? && dst <= l2.path { Rejoin(dst, l2.path); }
    }
    MoveOutKeepsTrees(s, s', name, dst);
  }

  lemma {:induction false} MoveOutKeepsTrees(s: State, s': State, name: string, dst: Path)
    requires Conserved(s) && MovedOut(s, s', name, dst)
    ensures Closed(s'.place) && [] !in s'.place
    ensures forall n :: n in s'.files ==> Rooted(s'.files[n])
  {
    forall p: Path, k | p in s'.place && 0 < k < |p| ensures p[..k] in s'.place {
      if !(p in s.place) {
        var r := p[|dst|..];
        if k >= |dst| {
          assert p[..k][|dst|..] == r[..k - |dst|];
          assert dst <= p[..k];
        } else {
          assert dst[..k] == p[..k];
          if k < |dst| - 1 { assert dst[..|dst| - 1][..k] == dst[..k]; }
        }
      }
    }
  }

  /** What one step can do to the entries. */
  lemma {:induction false} StepEffect(s: State, step: Step, s': State)
    requires Takes(s, step, s')
    ensures || (s'.place == s.place && s'.files == s.files && s'.next == s.next)
            || (step.Act? && s.procs[step.pid].Mover?
              && MovedIn(s, s', s.procs[step.pid].info.path, NameOf(s.procs[step.pid])))
            || (step.Act? && s.procs[step.pid].Restorer? && s.procs[step.pid].restore.MoveOut?
                && MovedOut(s, s', s.procs[step.pid].name, s.procs[step.pid].restore.dst))
            || exists p :: MadeDir(s, s'.(procs := s.procs), p)
  {
    if step.Appear? { assert MadeDir(s, s'.(procs := s.procs), step.path); }
    hide Subtree, Without, With, NameOf, MadeDir, Fresh, HasParent;
  }

  /** Every entry ever made stays at exactly one location, whatever runs next. */
  lemma {:induction false} StepConserves(s: State, step: Step, s': State)
    requires Conserved(s) && Takes(s, step, s')
    ensures Conserved(s')
  {
    hide Conserved, MadeDir, MovedIn, MovedOut;
    StepEffect(s, step, s');
    hide Takes;
    if s'.place == s.place && s'.files == s.files && s'.next == s.next {
      SameEntries(s, s');
    } else if exists p :: MadeDir(s, s'.(procs := s.procs), p) {
      var p :| MadeDir(s, s'.(procs := s.procs), p);
      NewEntryConserves(s, s'.(procs := s.procs), p);
      SameEntries(s'.(procs := s.procs), s');
    } else if s.procs[step.pid].Mover? {
      MoveInConserves(s, s', s.procs[step.pid].info.path, NameOf(s.procs[step.pid]));
    } else {
      MoveOutConserves(s, s', s.procs[step.pid].name, s.procs[step.pid].restore.dst);
    }
  }

  /** Only a mover takes entries away, and only the item it was asked to move: no
      other step removes or changes an entry of the place. */
  lemma {:induction false} OnlyMoversTake(s: State, step: Step, s': State, p: Path)
    requires Conserved(s) && Takes(s, step, s') && p in s.place
    requires !(p in s'.place && s'.place[p] == s.place[p])
    ensures step.Act? && s.procs[step.pid].Mover? && s.procs[step.pid].info.path <= p
    ensures var m := s.procs[step.pid];
            && NameOf(m) in s'.files && p[|m.info.path|..] in s'.files[NameOf(m)]
            && s'.files[NameOf(m)][p[|m.info.path|..]] == s.place[p]
  {
    if step.Act? && s.procs[step.pid].Restorer? && s.procs[step.pid].restore.MoveOut? && s'.place != s.place {
      MoveOutOverwritesNothing(s, s', s.procs[step.pid].name, s.procs[step.pid].restore.dst);
    }
    if step.Act? && s.procs[step.pid].Mover? && s.procs[step.pid].info.path <= p {
      Rejoin(s.procs[step.pid].info.path, p);
    }
  }

  // ── Every run ───────────────────────────────────────────────────────────────

  ghost predicate IsRun(states: seq<State>, steps: seq<Step>) {
    && |states| == |steps| + 1
    && forall k :: 0 <= k < |steps| ==> Takes(states[k], steps[k], states[k + 1])
  }

  /** Nobody is at work, and no mover has brought anything yet. */
  predicate Begins(s: State) { s.procs == map[] && s.from == map[] }

  /** Any trash is such a start, whatever was left of it. */
  lemma {:induction false} AnyTrashBegins(s: State)
    requires Begins(s)
    ensures Consistent(s, s)
  {}

  /** Over every interleaving of any number of movers and restorers, failing or dying
      anywhere: but for the names of the leftovers of the start, each item that a mover
      brought has its complete info record, each other item is as it was at the start, with
      its record, and each name is owned by one process at most; and every entry is at one
      location. */
  lemma {:induction false} EveryRunIsSafe(states: seq<State>, steps: seq<Step>)
    requires IsRun(states, steps) && Begins(states[0]) && Conserved(states[0])
    ensures forall k :: 0 <= k < |states| ==> Consistent(states[k], states[0]) && Conserved(states[k])
    decreases |steps|
  {
    hide Takes, Consistent, Conserved, Begins;
    if steps == [] {
      AnyTrashBegins(states[0]);
    } else {
      var n := |steps| - 1;
      EveryRunIsSafe(states[..n + 1], steps[..n]);
      assert states[..n + 1][n] == states[n] && Takes(states[n], steps[n], states[n + 1]);
      StepKeepsConsistent(states[n], steps[n], states[n + 1], states[0]);
      StepConserves(states[n], steps[n], states[n + 1]);
      forall k | 0 <= k < |states| ensures Consistent(states[k], states[0]) && Conserved(states[k]) {
        if k <= n { assert states[k] == states[..n + 1][k]; }
      }
    }
  }
}
