/** What the runs of movers and restorers (apps/root-worker/trash.go) can and cannot do with
    a user's trash: when every item brought keeps its record, and when a restore brings back
    the item whose record it read. */
module TrashRuns {
  import opened Text
  import opened TrashProtocol

  // ── Building runs ───────────────────────────────────────────────────────────

  /** Since then only pid has done anything, a mover or a restorer. */
  ghost predicate OthersWait(states: seq<State>, since: nat, pid: Pid, mover: bool) {
    && since < |states|
    && (forall k, q :: since <= k < |states| && q != pid ==> SameProc(states[since].procs, states[k].procs, q))
    && (forall k :: since <= k < |states| && pid in states[k].procs ==> states[k].procs[pid].Mover? == mover)
  }

  predicate SameProc(procs: map<Pid, Proc>, procs': map<Pid, Proc>, q: Pid) {
    (q in procs <==> q in procs') && (q in procs ==> procs[q] == procs'[q])
  }

  /** One more step of a run, by pid. */
  lemma {:induction false} Then(states: seq<State>, steps: seq<Step>, since: nat, pid: Pid, mover: bool, step: Step,
      s': State)
    returns (states': seq<State>, steps': seq<Step>)
    requires IsRun(states, steps) && OthersWait(states, since, pid, mover)
    requires Takes(states[|steps|], step, s') && (step.Appear? || step.pid == pid)
    requires pid in s'.procs ==> s'.procs[pid].Mover? == mover
    ensures states <= states' && |states'| == |states| + 1 == |steps'| + 1 && states'[|steps'|] == s'
    ensures steps <= steps' && steps'[|steps|] == step
    ensures IsRun(states', steps') && OthersWait(states', since, pid, mover)
  {
    states', steps' := states + [s'], steps + [step];
    var s := states[|steps|];
    forall q | q != pid ensures SameProc(s.procs, s'.procs, q) {
      StepOfOne(s, step, s', q);
    }
    hide Takes, SameProc;
    forall k, q | since <= k < |states'| && q != pid ensures SameProc(states'[since].procs, states'[k].procs, q) {
      if k == |steps| + 1 {
        assert SameProc(states[since].procs, s.procs, q);
        SameProcs(states[since].procs, s.procs, s'.procs, q);
      }
    }
  }

  lemma {:induction false} SameProcs(a: map<Pid, Proc>, b: map<Pid, Proc>, c: map<Pid, Proc>, q: Pid)
    requires SameProc(a, b, q) && SameProc(b, c, q)
    ensures SameProc(a, c, q)
  {}

  lemma {:induction false} StepOfOne(s: State, step: Step, s': State, q: Pid)
    requires Takes(s, step, s') && (step.Appear? || step.pid != q)
    ensures SameProc(s.procs, s'.procs, q)
  {
    hide MoverActs, RestorerActs;
  }

  lemma {:induction false} NobodyYet(states: seq<State>, pid: Pid, mover: bool)
    requires states != []
    requires var procs := states[|states| - 1].procs; pid in procs ==> procs[pid].Mover? == mover
    ensures OthersWait(states, |states| - 1, pid, mover)
  {}

  /** Who waits is there all the time. */
  lemma {:induction false} Waits(states: seq<State>, since: nat, pid: Pid, mover: bool, q: Pid)
    requires OthersWait(states, since, pid, mover) && q != pid && q in states[since].procs
    ensures forall k :: since <= k < |states| ==> q in states[k].procs
  {
    forall k | since <= k < |states| ensures q in states[k].procs {
      assert SameProc(states[since].procs, states[k].procs, q);
    }
  }

  function BaseOf(info: Info): string
    requires Movable(info.path)
  {
    info.path[|info.path| - 1]
  }

  function Reserved(s: State, pid: Pid, info: Info): State
    requires Movable(info.path)
  {
    s.(info := s.info[BaseOf(info) := Complete(info)], procs := s.procs[pid := Mover(info, LookForLeftover(1))])
  }

  /** A mover starts and reserves its item's own name. */
  lemma {:induction false} MoverReserves(states: seq<State>, steps: seq<Step>, pid: Pid, info: Info)
    returns (states': seq<State>, steps': seq<Step>)
    requires IsRun(states, steps) && Movable(info.path)
    requires pid !in states[|steps|].procs && BaseOf(info) !in states[|steps|].info
    ensures IsRun(states', steps') && states <= states' && steps <= steps' && OthersWait(states', |steps|, pid, true)
    ensures states'[|steps'|] == Reserved(states[|steps|], pid, info)
  {
    assert |states| == |steps| + 1;
    hide IsRun, OthersWait;
    var s, n := states[|steps|], |steps|;
    NobodyYet(states, pid, true);
    var m1, m2, m3 := Mover(info, Reserve(1)), Mover(info, Record(1)), Mover(info, LookForLeftover(1));
    var s1 := s.(procs := s.procs[pid := m1]);
    states', steps' := Then(states, steps, n, pid, true, Start(pid, m1), s1);
    var s2 := s1.(info := s.info[BaseOf(info) := Partial], procs := s.procs[pid := m2]);
    assert s2.procs == Goes(s1.procs, pid, Some(m2)) && NameOf(m1) == NameOf(m2) == BaseOf(info);
    hide Candidate;
    states', steps' := Then(states', steps', n, pid, true, Act(pid, Some(m2)), s2);
    var s3 := Reserved(s, pid, info);
    assert s3.procs == Goes(s2.procs, pid, Some(m3)) && s3.info == s2.info[BaseOf(info) := Complete(info)];
    states', steps' := Then(states', steps', n, pid, true, Act(pid, Some(m3)), s3);
  }

  function Brought(s: State, pid: Pid, info: Info): State
    requires Movable(info.path)
  {
    s.(place := Without(s.place, info.path), files := s.files[BaseOf(info) := Subtree(s.place, info.path)],
       from := s.from[BaseOf(info) := info.path], procs := s.procs - {pid})
  }

  /** It finds the name free and moves its item in. */
  lemma {:induction false} MoverMoves(states: seq<State>, steps: seq<Step>, pid: Pid, info: Info)
    returns (states': seq<State>, steps': seq<Step>)
    requires IsRun(states, steps) && Movable(info.path)
    requires var s := states[|steps|];
      && pid in s.procs && s.procs[pid] == Mover(info, LookForLeftover(1))
      && BaseOf(info) !in s.files && info.path in s.place
    ensures IsRun(states', steps') && states <= states' && steps <= steps' && OthersWait(states', |steps|, pid, true)
    ensures states'[|steps'|] == Brought(states[|steps|], pid, info)
  {
    assert |states| == |steps| + 1;
    hide IsRun, OthersWait, Without, Subtree;
    var s, m, n := states[|steps|], Mover(info, MoveIn(1)), |steps|;
    NobodyYet(states, pid, true);
    var s1 := s.(procs := s.procs[pid := m]);
    states', steps' := Then(states, steps, n, pid, true, Act(pid, Some(m)), s1);
    var s2 := Brought(s, pid, info);
    assert s2.procs == Goes(s1.procs, pid, None);
    states', steps' := Then(states', steps', n, pid, true, Act(pid, None), s2);
  }

  /** It finds a leftover of that name and gives the name up. */
  lemma {:induction false} MoverGivesUp(states: seq<State>, steps: seq<Step>, pid: Pid, info: Info)
    returns (states': seq<State>, steps': seq<Step>)
    requires IsRun(states, steps) && Movable(info.path)
    requires var s := states[|steps|];
      pid in s.procs && s.procs[pid] == Mover(info, LookForLeftover(1)) && BaseOf(info) in s.files
    ensures IsRun(states', steps') && states <= states' && steps <= steps' && OthersWait(states', |steps|, pid, true)
    ensures var s := states[|steps|];
      states'[|steps'|] == s.(info := s.info - {BaseOf(info)}, procs := s.procs[pid := Mover(info, Reserve(2))])
  {
    assert |states| == |steps| + 1;
    hide IsRun, OthersWait;
    var s, m1, m2, n := states[|steps|], Mover(info, GiveUpName(1)), Mover(info, Reserve(2)), |steps|;
    NobodyYet(states, pid, true);
    var s1 := s.(procs := s.procs[pid := m1]);
    states', steps' := Then(states, steps, n, pid, true, Act(pid, Some(m1)), s1);
    var s2 := s1.(info := s.info - {BaseOf(info)}, procs := s1.procs[pid := m2]);
    states', steps' := Then(states', steps', n, pid, true, Act(pid, Some(m2)), s2);
    assert s2.procs == s.procs[pid := m2];
  }

  /** It fails to move its item in and takes its record back. */
  lemma {:induction false} MoverWithdraws(states: seq<State>, steps: seq<Step>, pid: Pid, info: Info)
    returns (states': seq<State>, steps': seq<Step>)
    requires IsRun(states, steps) && Movable(info.path)
    requires pid in states[|steps|].procs && states[|steps|].procs[pid] == Mover(info, LookForLeftover(1))
    ensures IsRun(states', steps') && states <= states' && steps <= steps' && OthersWait(states', |steps|, pid, true)
    ensures var s := states[|steps|];
      states'[|steps'|] == s.(info := s.info - {BaseOf(info)}, procs := s.procs - {pid})
  {
    assert |states| == |steps| + 1;
    hide IsRun, OthersWait;
    var s, m1, m2, n := states[|steps|], Mover(info, MoveIn(1)), Mover(info, Withdraw(1)), |steps|;
    NobodyYet(states, pid, true);
    var s1, s2 := s.(procs := s.procs[pid := m1]), s.(procs := s.procs[pid := m2]);
    states', steps' := Then(states, steps, n, pid, true, Act(pid, Some(m1)), s1);
    assert s2.procs == Goes(s1.procs, pid, Some(m2));
    states', steps' := Then(states', steps', n, pid, true, Act(pid, Some(m2)), s2);
    var s3 := s.(info := s.info - {BaseOf(info)}, procs := s.procs - {pid});
    assert s3.procs == Goes(s2.procs, pid, None);
    states', steps' := Then(states', steps', n, pid, true, Act(pid, None), s3);
  }

  /** Where a restorer of name goes when it is told target. */
  function Goal(s: State, name: string, target: Option<Path>): Path
    requires name in s.info && s.info[name].Complete?
  {
    if target.Some? then target.value else s.info[name].info.path
  }

  /** A restorer starts, reads the record of name, and gets as far as its move. */
  lemma {:induction false} RestorerReads(states: seq<State>, steps: seq<Step>, pid: Pid, name: string,
      target: Option<Path>)
    returns (states': seq<State>, steps': seq<Step>)
    requires IsRun(states, steps)
    requires var s := states[|steps|];
      && pid !in s.procs && name in s.info && s.info[name].Complete?
      && var dst := Goal(s, name, target); Movable(dst) && dst !in s.place
    ensures IsRun(states', steps') && states <= states' && steps <= steps' && OthersWait(states', |steps|, pid, false)
    ensures |steps'| == |steps| + 4
    ensures var s := states[|steps|]; var dst := Goal(s, name, target);
      && states'[|steps| + 1] == s.(procs := s.procs[pid := Restorer(name, ReadInfo(target))])
      && steps'[|steps| + 1] == Act(pid, Some(Restorer(name, CheckTarget(dst))))
      && (forall k :: |steps| < k <= |steps'| ==> pid in states'[k].procs)
      && states'[|steps'|] == s.(procs := s.procs[pid := Restorer(name, MoveOut(dst))])
  {
    assert |states| == |steps| + 1;
    hide IsRun, OthersWait;
    var s, n := states[|steps|], |steps|;
    var dst := Goal(s, name, target);
    NobodyYet(states, pid, false);
    var r1, r2 := Restorer(name, ReadInfo(target)), Restorer(name, CheckTarget(dst));
    var r3, r4 := Restorer(name, MakeParents(dst)), Restorer(name, MoveOut(dst));
    var s1, s2 := s.(procs := s.procs[pid := r1]), s.(procs := s.procs[pid := r2]);
    var s3, s4 := s.(procs := s.procs[pid := r3]), s.(procs := s.procs[pid := r4]);
    states', steps' := Then(states, steps, n, pid, false, Start(pid, r1), s1);
    assert s2.procs == Goes(s1.procs, pid, Some(r2)) && s3.procs == Goes(s2.procs, pid, Some(r3))
      && s4.procs == Goes(s3.procs, pid, Some(r4));
    states', steps' := Then(states', steps', n, pid, false, Act(pid, Some(r2)), s2);
    states', steps' := Then(states', steps', n, pid, false, Act(pid, Some(r3)), s3);
    states', steps' := Then(states', steps', n, pid, false, Act(pid, Some(r4)), s4);
    hide Takes;
  }

  function Out(s: State, pid: Pid, name: string, dst: Path): State
    requires name in s.files
  {
    s.(place := With(s.place, dst, s.files[name]), files := s.files - {name},
       procs := s.procs[pid := Restorer(name, DropInfo)])
  }

  /** It moves out what is there under the name. */
  lemma {:induction false} RestorerTakes(states: seq<State>, steps: seq<Step>, pid: Pid, name: string, dst: Path)
    returns (states': seq<State>, steps': seq<Step>)
    requires IsRun(states, steps)
    requires var s := states[|steps|];
      && pid in s.procs && s.procs[pid] == Restorer(name, MoveOut(dst))
      && name in s.files && dst !in s.place && HasParent(s.place, dst)
    ensures IsRun(states', steps') && states <= states' && OthersWait(states', |steps|, pid, false)
    ensures steps <= steps' && |steps'| == |steps| + 1 && steps'[|steps|] == Act(pid, Some(Restorer(name, DropInfo)))
    ensures states'[|steps'|] == Out(states[|steps|], pid, name, dst)
  {
    assert |states| == |steps| + 1;
    hide IsRun, OthersWait, With;
    NobodyYet(states, pid, false);
    var next, s := Some(Restorer(name, DropInfo)), states[|steps|];
    states', steps' := Then(states, steps, |steps|, pid, false, Act(pid, next), Out(s, pid, name, dst));
  }

  /** It drops the record that is there under the name. */
  lemma {:induction false} RestorerDrops(states: seq<State>, steps: seq<Step>, pid: Pid, name: string)
    returns (states': seq<State>, steps': seq<Step>)
    requires IsRun(states, steps)
    requires pid in states[|steps|].procs && states[|steps|].procs[pid] == Restorer(name, DropInfo)
    ensures IsRun(states', steps') && states <= states' && steps <= steps' && OthersWait(states', |steps|, pid, false)
    ensures var s := states[|steps|];
      states'[|steps'|] == s.(info := s.info - {name}, procs := s.procs - {pid})
  {
    assert |states| == |steps| + 1;
    hide IsRun, OthersWait;
    NobodyYet(states, pid, false);
    var s := states[|steps|];
    states', steps' := Then(states, steps, |steps|, pid, false, Act(pid, None),
      s.(info := s.info - {name}, procs := s.procs - {pid}));
  }

  // ── Names that are free ─────────────────────────────────────────────────────

  function Tops(place: Tree): set<string> { set p | p in place && p != [] :: p[0] }

  /** Some name is not among finitely many: a longer one. */
  lemma {:induction false} LongerName(names: set<string>) returns (n: nat)
    ensures forall x :: x in names ==> |x| <= n
  {
    n := 0;
    var rest := names;
    while rest != {}
      invariant rest <= names && forall x :: x in names && x !in rest ==> |x| <= n
      decreases |rest|
    {
      var x :| x in rest;
      if n < |x| { n := |x|; }
      rest := rest - {x};
    }
  }

  lemma {:induction false} NewName(names: set<string>) returns (x: string)
    ensures x !in names
  {
    var n := LongerName(names);
    x := seq(n + 1, _ => 'a');
  }

  /** s with a new folder d at the top and an entry d/name in it. */
  function Grown(s: State, d: string, name: string): State {
    s.(place := s.place[[d] := s.next][[d, name] := s.next + 1], next := s.next + 2)
  }

  /** A folder and an entry in it appear; nobody else does anything, pid 0 least of all. */
  lemma {:induction false} SomethingAppears(states: seq<State>, steps: seq<Step>, d: string, name: string)
    returns (states': seq<State>, steps': seq<Step>)
    requires IsRun(states, steps) && 0 !in states[|steps|].procs
    requires d !in Tops(states[|steps|].place) + {TRASH_DIR}
    ensures IsRun(states', steps') && states <= states' && steps <= steps' && OthersWait(states', |steps|, 0, true)
    ensures states'[|steps'|] == Grown(states[|steps|], d, name)
  {
    assert |states| == |steps| + 1;
    hide OthersWait, IsRun;
    var s, n := states[|steps|], |steps|;
    NobodyYet(states, 0, true);
    assert [d][0] == d && [d, name][0] == d && [d, name][..1] == [d];
    var s1 := s.(place := s.place[[d] := s.next], next := s.next + 1);
    assert MadeDir(s, s1, [d]);
    var s2 := Grown(s, d, name);
    assert MadeDir(s1, s2, [d, name]);
    states', steps' := Then(states, steps, n, 0, true, Appear([d]), s1);
    states', steps' := Then(states', steps', n, 0, true, Appear([d, name]), s2);
  }

  // ── When an item brought keeps its record ───────────────────────────────────

  /** Every item that a mover brought has its complete record. */
  ghost predicate RecordsKept(s: State) { forall name :: name in s.files && name in s.from ==> Recorded(s, name) }

  /** In no run from start does an item brought lose its record. */
  ghost predicate NeverLosesARecord(start: State) {
    forall states, steps :: IsRun(states, steps) && states[0] == start ==> RecordsKept(states[|steps|])
  }

  /** A mover reserves the name of a leftover, and a restorer takes that record for its. */
  lemma {:induction false} LeftoverIsRead(start: State, name: string, d: string, x: string)
    returns (states: seq<State>, steps: seq<Step>)
    requires Begins(start) && name in Leftovers(start)
    requires d !in Tops(start.place) + {TRASH_DIR} && x !in Tops(start.place) + {TRASH_DIR, d}
    ensures IsRun(states, steps) && states[0] == start
    ensures var s := states[|steps|];
      && name in s.files && [d, name] in s.place && [x] !in s.place && 3 !in s.procs
      && 1 in s.procs && s.procs[1] == Mover(Info([d, name], 0, ""), LookForLeftover(1))
      && 2 in s.procs && s.procs[2] == Restorer(name, MoveOut([x]))
  {
    var info := Info([d, name], 0, "");
    assert [d, name][0] == d && BaseOf(info) == name && [x][0] == x;
    states, steps := [start], [];
    states, steps := SomethingAppears(states, steps, d, name);
    RunLength(states, steps);
    hide IsRun, OthersWait, Takes;
    states, steps := MoverReserves(states, steps, 1, info);
    states, steps := RestorerReads(states, steps, 2, name, Some([x]));
  }

  /** The mover gives the name up, and the restorer moves the leftover out. */
  lemma {:induction false} LeftoverGoes(start: State, name: string, d: string, x: string)
    returns (states: seq<State>, steps: seq<Step>)
    requires Begins(start) && name in Leftovers(start)
    requires d !in Tops(start.place) + {TRASH_DIR} && x !in Tops(start.place) + {TRASH_DIR, d}
    ensures IsRun(states, steps) && states[0] == start
    ensures var s := states[|steps|];
      && name !in s.files && name !in s.info && [d, name] in s.place && 3 !in s.procs
      && 2 in s.procs && s.procs[2] == Restorer(name, DropInfo)
  {
    var info := Info([d, name], 0, "");
    assert [d, name][0] == d && BaseOf(info) == name;
    states, steps := LeftoverIsRead(start, name, d, x);
    RunLength(states, steps);
    hide IsRun, OthersWait, Takes, Begins, Leftovers;
    states, steps := MoverGivesUp(states, steps, 1, info);
    states, steps := RestorerTakes(states, steps, 2, name, [x]);
  }

  /** From any trash with a leftover: when a mover uses its name again, the restorer drops
      the new record for the one it had read. */
  lemma {:induction false} LeftoverCostsARecord(start: State, name: string)
      returns (states: seq<State>, steps: seq<Step>)
    requires Begins(start) && name in Leftovers(start)
    ensures IsRun(states, steps) && states[0] == start
    ensures var s := states[|steps|]; name in s.files && name in s.from && name !in s.info
  {
    var d := NewName(Tops(start.place) + {TRASH_DIR});
    var x := NewName(Tops(start.place) + {TRASH_DIR, d});
    var info := Info([d, name], 0, "");
    assert [d, name][0] == d && BaseOf(info) == name;
    states, steps := LeftoverGoes(start, name, d, x);
    assert |states| == |steps| + 1;
    hide IsRun, OthersWait, Takes, Without, Subtree;
    states, steps := MoverReserves(states, steps, 3, info);
    states, steps := MoverMoves(states, steps, 3, info);
    states, steps := RestorerDrops(states, steps, 2, name);
  }

  /** No item brought ever loses its record exactly when every item of the start has an info
      file, complete or not. */
  lemma {:induction false} NoRecordIsLostExactly(start: State)
    requires Begins(start) && Conserved(start)
    ensures NeverLosesARecord(start) <==> Leftovers(start) == {}
  {
    if Leftovers(start) == {} {
      hide Conserved, Begins, IsRun;
      forall states, steps | IsRun(states, steps) && states[0] == start ensures RecordsKept(states[|steps|]) {
        RunLength(states, steps);
        EveryRunIsSafe(states, steps);
        ConsistentKeeps(states[|steps|], start);
      }
    } else {
      var name :| name in Leftovers(start);
      var states, steps := LeftoverCostsARecord(start, name);
      assert !RecordsKept(states[|steps|]);
    }
  }

  lemma {:induction false} RunLength(states: seq<State>, steps: seq<Step>)
    requires IsRun(states, steps)
    ensures |states| == |steps| + 1
  {}

  lemma {:induction false} ConsistentKeeps(s: State, start: State)
    requires Consistent(s, start) && Leftovers(start) == {}
    ensures RecordsKept(s)
  {
    forall name | name in s.files && name in s.from ensures Recorded(s, name) { assert Kept(s, start, name); }
  }

  // ── When a restore brings back what it read ─────────────────────────────────

  /** In this run restorer pid reads the record of name at step i and moves what is there
      under the name out at step j; it goes where target says, or else the record. */
  ghost predicate Restores(states: seq<State>, steps: seq<Step>, pid: Pid, name: string, target: Option<Path>,
      i: nat, j: nat)
  {
    && IsRun(states, steps) && i < j < |steps|
    && (forall k :: i <= k <= j ==> pid in states[k].procs)
    && states[i].procs[pid] == Restorer(name, ReadInfo(target))
    && steps[i].Act? && steps[i].pid == pid
    && steps[j].Act? && steps[j].pid == pid && steps[j].next == Some(Restorer(name, DropInfo))
    && states[j].procs[pid].Restorer? && states[j].procs[pid].restore.MoveOut?
  }

  /** Another restorer of the name takes what is there under it. */
  ghost predicate TakenByAnother(s: State, step: Step, s': State, pid: Pid, name: string) {
    && step.Act? && step.pid != pid && step.pid in s.procs && s.procs[step.pid].Restorer?
    && s.procs[step.pid].name == name && name in s.files && name !in s'.files
  }

  /** Only a restorer of the name takes what is there under it. */
  lemma {:induction false} ItemStays(s: State, step: Step, s': State, pid: Pid, name: string)
    requires Takes(s, step, s') && name in s.files && !TakenByAnother(s, step, s', pid, name)
    requires step.Act? && step.pid == pid && s.procs[pid].Restorer? && s.procs[pid].restore.MoveOut? ==>
      s'.files == s.files
    ensures name in s'.files && s'.files[name] == s.files[name]
  {
    StepEffect(s, step, s');
    hide Takes, Without, With, Subtree, NameOf;
  }

  /** After the read the restorer is on its way to dst, or done with its move. */
  predicate OnItsWay(p: Proc, name: string, dst: Path) {
    && p.Restorer? && p.name == name
    && p.restore in {CheckTarget(dst), MakeParents(dst), MoveOut(dst), DropInfo}
  }

  lemma {:induction false} WayStep(s: State, step: Step, s': State, pid: Pid, name: string, dst: Path)
    requires Takes(s, step, s') && pid in s.procs && pid in s'.procs && OnItsWay(s.procs[pid], name, dst)
    ensures OnItsWay(s'.procs[pid], name, dst)
    ensures s.procs[pid].restore.DropInfo? ==> s'.procs[pid].restore.DropInfo?
    ensures step.Act? && step.pid == pid && s.procs[pid].restore.MoveOut? && s'.files != s.files ==>
      s'.procs[pid].restore.DropInfo?
  {
    hide MoverActs, With;
  }

  lemma {:induction false} ReadStep(s: State, step: Step, s': State, pid: Pid, name: string, target: Option<Path>)
    requires Takes(s, step, s') && step.Act? && step.pid == pid && pid in s'.procs
    requires s.procs[pid] == Restorer(name, ReadInfo(target))
    ensures name in s.info && s.info[name].Complete? && OnItsWay(s'.procs[pid], name, Goal(s, name, target))
    ensures s'.files == s.files && !s'.procs[pid].restore.DropInfo?
  {
    hide MoverActs, With;
  }

  /** Until the restorer moves: it is on its way, and the item is there. */
  ghost predicate StillThere(s: State, pid: Pid, name: string, dst: Path, item: Option<Tree>) {
    && pid in s.procs && OnItsWay(s.procs[pid], name, dst)
    && (item.Some? ==> s.procs[pid].restore.DropInfo? || (name in s.files && s.files[name] == item.value))
  }

  lemma {:induction false} StaysThere(states: seq<State>, steps: seq<Step>, pid: Pid, name: string, dst: Path,
      item: Option<Tree>, i: nat, k: nat)
    requires IsRun(states, steps) && i <= k <= |steps| && StillThere(states[i], pid, name, dst, item)
    requires forall l :: i <= l <= k ==> pid in states[l].procs
    requires item.Some? ==>
      forall l :: i <= l < k ==> !TakenByAnother(states[l], steps[l], states[l + 1], pid, name)
    ensures StillThere(states[k], pid, name, dst, item)
    ensures states[i].procs[pid].restore.DropInfo? ==> states[k].procs[pid].restore.DropInfo?
    decreases k - i
  {
    if i < k {
      StaysThere(states, steps, pid, name, dst, item, i, k - 1);
      var s, step, s' := states[k - 1], steps[k - 1], states[k];
      WayStep(s, step, s', pid, name, dst);
      hide Takes, OnItsWay;
      if item.Some? && !s'.procs[pid].restore.DropInfo? { ItemStays(s, step, s', pid, name); }
    }
  }

  /** Under the name there is one item from the read to the move. */
  ghost predicate ThereThroughout(states: seq<State>, name: string, i: nat, j: nat)
    requires i <= j < |states|
  {
    name in states[j].files
    && forall k :: i <= k <= j ==> name in states[k].files && states[k].files[name] == states[j].files[name]
  }

  /** On the way from the read to the move, at any step. */
  lemma {:induction false} WayOfRestore(states: seq<State>, steps: seq<Step>, pid: Pid, name: string,
      target: Option<Path>, i: nat, j: nat, k: nat)
    requires Restores(states, steps, pid, name, target, i, j) && i < k <= j
    ensures name in states[i].info && states[i].info[name].Complete?
    ensures OnItsWay(states[k].procs[pid], name, Goal(states[i], name, target))
    ensures !states[k].procs[pid].restore.DropInfo?
  {
    hide Takes;
    ReadStep(states[i], steps[i], states[i + 1], pid, name, target);
    var dst := Goal(states[i], name, target);
    StaysThere(states, steps, pid, name, dst, None, i + 1, k);
    StaysThere(states, steps, pid, name, dst, None, k, j);
  }

  ghost predicate NotTaken(states: seq<State>, steps: seq<Step>, pid: Pid, name: string, i: nat, j: nat)
    requires |states| == |steps| + 1 && i <= j <= |steps|
  {
    forall l :: i <= l < j ==> !TakenByAnother(states[l], steps[l], states[l + 1], pid, name)
  }

  /** At any step to the move, when no other restorer takes the item. */
  lemma {:induction false} ThereAt(states: seq<State>, steps: seq<Step>, pid: Pid, name: string, target: Option<Path>,
      i: nat, j: nat, k: nat)
    requires Restores(states, steps, pid, name, target, i, j) && i < k <= j
    requires name in states[i].files && NotTaken(states, steps, pid, name, i, j)
    ensures name in states[k].files && states[k].files[name] == states[i].files[name]
  {
    hide Takes, OnItsWay, TakenByAnother;
    WayOfRestore(states, steps, pid, name, target, i, j, k);
    ReadStep(states[i], steps[i], states[i + 1], pid, name, target);
    var dst, item := Goal(states[i], name, target), Some(states[i].files[name]);
    StaysThere(states, steps, pid, name, dst, item, i + 1, k);
  }

  /** What is moved is the item that was there when its record was read, all the time,
      exactly when one was there and no other restorer took it in between. */
  lemma {:induction false} RestoresExactly(states: seq<State>, steps: seq<Step>, pid: Pid, name: string,
      target: Option<Path>, i: nat, j: nat)
    requires Restores(states, steps, pid, name, target, i, j)
    ensures ThereThroughout(states, name, i, j) <==> name in states[i].files && NotTaken(states, steps, pid, name, i, j)
  {
    hide Takes, OnItsWay, IsRun;
    RunLength(states, steps);
    MovesAtEnd(states, steps, pid, name, target, i, j);
    if name in states[i].files && NotTaken(states, steps, pid, name, i, j) {
      forall k | i < k <= j ensures name in states[k].files && states[k].files[name] == states[i].files[name] {
        ThereAt(states, steps, pid, name, target, i, j, k);
      }
    }
  }

  lemma {:induction false} MoveStep(s: State, step: Step, s': State, pid: Pid, name: string, dst: Path)
    requires Takes(s, step, s') && step.Act? && step.pid == pid && step.next == Some(Restorer(name, DropInfo))
    requires s.procs[pid] == Restorer(name, MoveOut(dst))
    ensures name in s.files && dst !in s.place
    ensures s'.place == With(s.place, dst, s.files[name]) && s'.files == s.files - {name}
  {
    hide MoverActs, With;
  }

  /** Its last step moves what is there under the name to where target or the record said. */
  lemma {:induction false} MovesAtEnd(states: seq<State>, steps: seq<Step>, pid: Pid, name: string,
      target: Option<Path>, i: nat, j: nat)
    requires Restores(states, steps, pid, name, target, i, j)
    ensures name in states[i].info && states[i].info[name].Complete? && name in states[j].files
    ensures var s, s', dst := states[j], states[j + 1], Goal(states[i], name, target);
      dst !in s.place && s'.place == With(s.place, dst, s.files[name]) && s'.files == s.files - {name}
  {
    hide Takes, With;
    WayOfRestore(states, steps, pid, name, target, i, j, j);
    MoveStep(states[j], steps[j], states[j + 1], pid, name, Goal(states[i], name, target));
  }

  /** No other restorer of the name is at work. */
  ghost predicate Alone(s: State, pid: Pid, name: string) {
    forall q :: q in s.procs && q != pid ==> !(s.procs[q].Restorer? && s.procs[q].name == name)
  }

  /** Over every run: when the item is there at the read and no other restorer of the name is
      at work from then to the move, that item goes to its target, or back to where a mover
      took it from. */
  lemma {:induction false} RestoresWhatItRead(states: seq<State>, steps: seq<Step>, pid: Pid, name: string,
      target: Option<Path>, i: nat, j: nat)
    requires Restores(states, steps, pid, name, target, i, j) && Begins(states[0]) && Conserved(states[0])
    requires name in states[i].files && forall l :: i <= l < j ==> Alone(states[l], pid, name)
    ensures var item := states[i].files[name];
      && name in states[i].info && states[i].info[name].Complete?
      && states[j + 1].place == With(states[j].place, Goal(states[i], name, target), item)
      && states[j + 1].files == states[j].files - {name}
    ensures name in states[i].from && name !in Leftovers(states[0]) && target == None ==>
      Goal(states[i], name, target) == states[i].from[name]
  {
    hide Takes, With, Conserved, Begins;
    RestoresExactly(states, steps, pid, name, target, i, j);
    MovesAtEnd(states, steps, pid, name, target, i, j);
    EveryRunIsSafe(states, steps);
    assert Consistent(states[i], states[0]);
    if name !in Leftovers(states[0]) { assert Kept(states[i], states[0], name); }
  }

  // ── How a restore can bring back another item ───────────────────────────────

  /** Names new to the trash and the place. */
  ghost predicate New(start: State, name: string, d: string, e: string, x: string) {
    var tops := Tops(start.place) + {TRASH_DIR};
    && name !in start.files && name !in start.info
    && d !in tops && e !in tops + {d} && x !in tops + {d, e}
  }

  lemma {:induction false} NewNames(start: State) returns (name: string, d: string, e: string, x: string)
    ensures New(start, name, d, e, x)
  {
    var tops := Tops(start.place) + {TRASH_DIR};
    name := NewName(start.files.Keys + start.info.Keys);
    d := NewName(tops);
    e := NewName(tops + {d});
    x := NewName(tops + {d, e});
  }

  /** Two entries of that name are in the place, in folders of their own. */
  ghost predicate Both(place: Tree, name: string, d: string, e: string, x: string) {
    && [d] in place && [d, name] in place && [e, name] in place && [x] !in place
    && place[[d, name]] != place[[e, name]]
  }

  lemma {:induction false} BothAppear(start: State, name: string, d: string, e: string, x: string)
    returns (states: seq<State>, steps: seq<Step>)
    requires Begins(start) && New(start, name, d, e, x)
    ensures IsRun(states, steps) && states[0] == start
    ensures var s := states[|steps|];
      s.procs == map[] && s.files == start.files && s.info == start.info && Both(s.place, name, d, e, x)
  {
    assert [d, name][0] == d && [d][0] == d && [e, name][0] == e && [e][0] == e && [x][0] == x;
    states, steps := [start], [];
    states, steps := SomethingAppears(states, steps, d, name);
    RunLength(states, steps);
    assert e !in Tops(states[|steps|].place) + {TRASH_DIR};
    hide OthersWait, IsRun;
    states, steps := SomethingAppears(states, steps, e, name);
  }

  /** One is in the trash with its record, and the other still in the place. */
  ghost predicate OneIn(s: State, name: string, d: string, e: string, x: string) {
    && name in s.files && name in s.info && s.info[name] == Complete(Info([d, name], 0, ""))
    && [d] in s.place && [d, name] !in s.place && [e, name] in s.place && [x] !in s.place
    && [] in s.files[name] && s.files[name][[]] != s.place[[e, name]]
  }

  lemma {:induction false} BringFirst(start: State, name: string, d: string, e: string, x: string)
    returns (states: seq<State>, steps: seq<Step>)
    requires Begins(start) && New(start, name, d, e, x)
    ensures IsRun(states, steps) && states[0] == start
    ensures states[|steps|].procs == map[] && OneIn(states[|steps|], name, d, e, x)
  {
    var info := Info([d, name], 0, "");
    var path, none: Path := [d, name], [];
    assert d != TRASH_DIR && path[0] == d && [e, name][0] == e && [x][0] == x && BaseOf(info) == name
      && path + none == path;
    states, steps := BothAppear(start, name, d, e, x);
    RunLength(states, steps);
    hide IsRun, OthersWait, Takes, Tops;
    states, steps := MoverReserves(states, steps, 1, info);
    states, steps := MoverMoves(states, steps, 1, info);
  }

  /** Restorer pid has read the record at step i and is about to move. */
  ghost predicate HasRead(states: seq<State>, steps: seq<Step>, pid: Pid, name: string, target: Option<Path>, i: nat,
      dst: Path)
  {
    && |states| == |steps| + 1 && i < |steps|
    && (forall k :: i <= k < |states| ==> pid in states[k].procs)
    && states[i].procs[pid] == Restorer(name, ReadInfo(target))
    && steps[i].Act? && steps[i].pid == pid
    && states[|steps|].procs[pid] == Restorer(name, MoveOut(dst))
  }

  /** It goes on waiting while another process is at work. */
  lemma {:induction false} ReadMore(states: seq<State>, steps: seq<Step>, pid: Pid, name: string, target: Option<Path>,
      i: nat, dst: Path, states': seq<State>, steps': seq<Step>, q: Pid, mover: bool)
    requires HasRead(states, steps, pid, name, target, i, dst)
    requires states <= states' && steps <= steps' && |states'| == |steps'| + 1
    requires OthersWait(states', |steps|, q, mover) && q != pid
    ensures HasRead(states', steps', pid, name, target, i, dst)
  {
    Waits(states', |steps|, q, mover, pid);
    assert states'[|steps|] == states[|steps|];
    assert SameProc(states'[|steps|].procs, states'[|steps'|].procs, pid);
    forall k | i <= k < |states'| ensures pid in states'[k].procs {
      if k < |states| { assert states'[k] == states[k]; }
    }
  }

  lemma {:induction false} ReadThenMoved(states: seq<State>, steps: seq<Step>, pid: Pid, name: string,
      target: Option<Path>, i: nat, dst: Path, states': seq<State>, steps': seq<Step>)
    requires HasRead(states, steps, pid, name, target, i, dst) && IsRun(states', steps')
    requires states <= states' && steps <= steps' && |steps'| == |steps| + 1
    requires steps'[|steps|] == Act(pid, Some(Restorer(name, DropInfo)))
    ensures Restores(states', steps', pid, name, target, i, |steps|)
  {
    RunLength(states', steps');
    hide Takes;
    forall k | i <= k <= |steps| ensures pid in states'[k].procs { assert states'[k] == states[k]; }
    assert states'[|steps|] == states[|steps|];
  }

  /** A restorer has read the record of the first item. */
  lemma {:induction false} FirstIsRead(start: State, name: string, d: string, e: string, x: string)
    returns (states: seq<State>, steps: seq<Step>, i: nat)
    requires Begins(start) && New(start, name, d, e, x)
    ensures IsRun(states, steps) && states[0] == start
    ensures HasRead(states, steps, 2, name, None, i, [d, name])
    ensures var s := states[|steps|];
      s.procs.Keys == {2} && OneIn(s, name, d, e, x) && name in states[i].files && states[i].files == s.files
  {
    states, steps := BringFirst(start, name, d, e, x);
    RunLength(states, steps);
    var since := |steps|;
    i := since + 1;
    assert d != TRASH_DIR && [d, name][0] == d;
    hide IsRun, OthersWait, Takes, Tops, HasRead, New, Begins;
    states, steps := RestorerReads(states, steps, 2, name, None);
    RunLength(states, steps);
    FirstRead(states, steps, since, name, None, [d, name]);
  }

  /** The first item is taken out under two restorers that have read its record. */
  lemma {:induction false} TakenMeanwhile(start: State, name: string, d: string, e: string, x: string)
    returns (states: seq<State>, steps: seq<Step>, i: nat)
    requires Begins(start) && New(start, name, d, e, x)
    ensures IsRun(states, steps) && states[0] == start
    ensures HasRead(states, steps, 2, name, None, i, [d, name])
    ensures name in states[i].files && [] in states[i].files[name]
    ensures var s := states[|steps|];
      && 3 !in s.procs && name !in s.files && name !in s.info
      && [d] in s.place && [d, name] !in s.place && [e, name] in s.place
      && states[i].files[name][[]] != s.place[[e, name]]
  {
    states, steps, i := FirstIsRead(start, name, d, e, x);
    RunLength(states, steps);
    assert x != TRASH_DIR && [d, name][0] == d && [x][0] == x && [e, name][0] == e;
    hide IsRun, OthersWait, Takes, Tops, HasRead, Begins;
    ReadAtLast(states, steps, 2, name, None, i, [d, name]);
    var states1, steps1 := RestorerReads(states, steps, 4, name, Some([x]));
    ReadMore(states, steps, 2, name, None, i, [d, name], states1, steps1, 4, false);
    var states2, steps2 := RestorerTakes(states1, steps1, 4, name, [x]);
    ReadMore(states1, steps1, 2, name, None, i, [d, name], states2, steps2, 4, false);
    states, steps := RestorerDrops(states2, steps2, 4, name);
    ReadMore(states2, steps2, 2, name, None, i, [d, name], states, steps, 4, false);
  }

  lemma {:induction false} FirstRead(states: seq<State>, steps: seq<Step>, since: nat, name: string,
      target: Option<Path>, dst: Path)
    requires |states| == |steps| + 1 && |steps| == since + 4
    requires forall k :: since < k <= |steps| ==> 2 in states[k].procs
    requires states[since + 1].procs[2] == Restorer(name, ReadInfo(target))
    requires steps[since + 1] == Act(2, Some(Restorer(name, CheckTarget(dst))))
    requires states[|steps|].procs[2] == Restorer(name, MoveOut(dst))
    ensures HasRead(states, steps, 2, name, target, since + 1, dst)
  {}

  /** From any trash: two restorers read the record of an item, one of them takes it, and
      another item comes under the name; then the other restores that one, to where the
      first was. */
  lemma {:induction false} AnotherRestorerMisleads(start: State)
    returns (states: seq<State>, steps: seq<Step>, name: string, i: nat, j: nat)
    requires Begins(start)
    ensures IsRun(states, steps) && states[0] == start && Restores(states, steps, 2, name, None, i, j)
    ensures name in states[i].files && name in states[j].files && states[j].files[name] != states[i].files[name]
  {
    var d, e, x;
    name, d, e, x := NewNames(start);
    var info := Info([e, name], 0, "");
    var path, none: Path := [e, name], [];
    assert path[0] == e && BaseOf(info) == name && path + none == path && [d, name][..1] == [d] && e != TRASH_DIR
      && e != d;
    states, steps, i := TakenMeanwhile(start, name, d, e, x);
    RunLength(states, steps);
    hide IsRun, OthersWait, Takes, Tops, HasRead, Begins, New;
    ReadAtLast(states, steps, 2, name, None, i, [d, name]);
    var states1, steps1 := MoverReserves(states, steps, 3, info);
    ReadMore(states, steps, 2, name, None, i, [d, name], states1, steps1, 3, true);
    var states2, steps2 := MoverMoves(states1, steps1, 3, info);
    ReadMore(states1, steps1, 2, name, None, i, [d, name], states2, steps2, 3, true);
    ReadAtLast(states2, steps2, 2, name, None, i, [d, name]);
    assert states2[i] == states[i] && states2[|steps2|].files[name][none] == states[|steps|].place[path];
    j := |steps2|;
    states, steps := RestorerTakes(states2, steps2, 2, name, [d, name]);
    ReadThenMoved(states2, steps2, 2, name, None, i, [d, name], states, steps);
    assert states[i] == states2[i] && states[j] == states2[j];
  }

  lemma {:induction false} ReadAtLast(states: seq<State>, steps: seq<Step>, pid: Pid, name: string,
      target: Option<Path>, i: nat, dst: Path)
    requires HasRead(states, steps, pid, name, target, i, dst)
    ensures i < |steps| && |states| == |steps| + 1
    ensures var procs := states[|steps|].procs; pid in procs && procs[pid] == Restorer(name, MoveOut(dst))
  {}

  // ── The same with one restorer ──────────────────────────────────────────────

  ghost predicate AloneSince(states: seq<State>, i: nat, pid: Pid, name: string) {
    forall k :: i <= k < |states| ==> Alone(states[k], pid, name)
  }

  /** It stays alone while movers are at work. */
  lemma {:induction false} AloneMore(states: seq<State>, i: nat, pid: Pid, name: string, states': seq<State>,
      since: nat,
      q: Pid)
    requires AloneSince(states, i, pid, name) && states <= states' && i <= since && |states| == since + 1
    requires OthersWait(states', since, q, true)
    ensures AloneSince(states', i, pid, name)
  {
    hide Alone;
    assert states'[since] == states[since];
    forall k | i <= k < |states'| ensures Alone(states'[k], pid, name) {
      if k < |states| {
        assert states'[k] == states[k];
      } else {
        AloneAt(states', since, pid, name, q, k);
      }
    }
  }

  lemma {:induction false} AloneAt(states: seq<State>, since: nat, pid: Pid, name: string, q: Pid, k: nat)
    requires OthersWait(states, since, q, true) && since <= k < |states| && Alone(states[since], pid, name)
    ensures Alone(states[k], pid, name)
  {
    forall o | o in states[k].procs && o != pid
      ensures !(states[k].procs[o].Restorer? && states[k].procs[o].name == name)
    {
      if o != q { assert SameProc(states[since].procs, states[k].procs, o); }
    }
  }

  /** A mover has reserved its name. */
  ghost predicate OneReserved(s: State, name: string, d: string, e: string, x: string) {
    && s.procs == map[1 := Mover(Info([d, name], 0, ""), LookForLeftover(1))]
    && name !in s.files && name in s.info && s.info[name] == Complete(Info([d, name], 0, ""))
    && [e, name] in s.place && [x] !in s.place
  }

  lemma {:induction false} NameIsReserved(start: State, name: string, d: string, e: string, x: string)
    returns (states: seq<State>, steps: seq<Step>)
    requires Begins(start) && New(start, name, d, e, x)
    ensures IsRun(states, steps) && states[0] == start && OneReserved(states[|steps|], name, d, e, x)
  {
    var info := Info([d, name], 0, "");
    assert d != TRASH_DIR && [d, name][0] == d && BaseOf(info) == name;
    states, steps := BothAppear(start, name, d, e, x);
    RunLength(states, steps);
    hide IsRun, Takes, Tops, OthersWait;
    states, steps := MoverReserves(states, steps, 1, info);
  }

  /** A restorer reads the record of a mover that has reserved its name. */
  lemma {:induction false} ReadWhileReserved(start: State, name: string, d: string, e: string, x: string)
    returns (states: seq<State>, steps: seq<Step>, i: nat)
    requires Begins(start) && New(start, name, d, e, x)
    ensures IsRun(states, steps) && states[0] == start
    ensures HasRead(states, steps, 2, name, Some([x]), i, [x]) && AloneSince(states, i, 2, name)
    ensures name !in states[i].files
    ensures name in states[i].info && states[i].info[name] == Complete(Info([d, name], 0, ""))
    ensures var s := states[|steps|];
      && 3 !in s.procs && name !in s.files && [e, name] in s.place && [x] !in s.place
      && 1 in s.procs && s.procs[1] == Mover(Info([d, name], 0, ""), LookForLeftover(1))
  {
    assert x != TRASH_DIR && [x][0] == x;
    var states0, steps0 := NameIsReserved(start, name, d, e, x);
    RunLength(states0, steps0);
    hide IsRun, Takes, Tops, HasRead, OthersWait, AloneSince, Begins, New;
    var since := |steps0|;
    i := since + 1;
    states, steps := RestorerReads(states0, steps0, 2, name, Some([x]));
    RunLength(states, steps);
    FirstRead(states, steps, since, name, Some([x]), [x]);
    OnlyOneReads(states, since, name);
  }

  /** Then the mover takes its record back. */
  lemma {:induction false} ReadTooEarly(start: State, name: string, d: string, e: string, x: string)
    returns (states: seq<State>, steps: seq<Step>, i: nat)
    requires Begins(start) && New(start, name, d, e, x)
    ensures IsRun(states, steps) && states[0] == start
    ensures HasRead(states, steps, 2, name, Some([x]), i, [x]) && AloneSince(states, i, 2, name)
    ensures name !in states[i].files
    ensures name in states[i].info && states[i].info[name] == Complete(Info([d, name], 0, ""))
    ensures var s := states[|steps|];
      3 !in s.procs && name !in s.files && name !in s.info && [e, name] in s.place && [x] !in s.place
  {
    var info := Info([d, name], 0, "");
    assert d != TRASH_DIR && [d, name][0] == d && BaseOf(info) == name;
    var states1, steps1;
    states1, steps1, i := ReadWhileReserved(start, name, d, e, x);
    RunLength(states1, steps1);
    ReadAtLast(states1, steps1, 2, name, Some([x]), i, [x]);
    hide IsRun, Takes, Tops, HasRead, OthersWait, AloneSince, Begins, New;
    states, steps := MoverWithdraws(states1, steps1, 1, info);
    ReadMore(states1, steps1, 2, name, Some([x]), i, [x], states, steps, 1, true);
    AloneMore(states1, i, 2, name, states, |steps1|, 1);
  }

  lemma {:induction false} OnlyOneReads(states: seq<State>, since: nat, name: string)
    requires OthersWait(states, since, 2, false) && states[since].procs.Keys == {1} && states[since].procs[1].Mover?
    ensures AloneSince(states, since + 1, 2, name)
  {
    forall k, o | since + 1 <= k < |states| && o in states[k].procs && o != 2 ensures states[k].procs[o].Mover? {
      assert SameProc(states[since].procs, states[k].procs, o);
    }
  }

  /** From any trash: a restorer alone reads the record of a mover that then withdraws, and
      restores the item of another mover, which came from elsewhere. */
  lemma {:induction false} MoverMisleads(start: State)
    returns (states: seq<State>, steps: seq<Step>, name: string, x: string, i: nat, j: nat)
    requires Begins(start)
    ensures IsRun(states, steps) && states[0] == start && Restores(states, steps, 2, name, Some([x]), i, j)
    ensures forall l :: i <= l <= j ==> Alone(states[l], 2, name)
    ensures name !in states[i].files && name in states[i].info && states[i].info[name].Complete?
    ensures name in states[j].from && states[j].from[name] != states[i].info[name].info.path
  {
    var d, e;
    name, d, e, x := NewNames(start);
    var info := Info([e, name], 0, "");
    assert e != TRASH_DIR && [e, name][0] == e && BaseOf(info) == name && [d, name][0] == d != e && [x][0] == x;
    states, steps, i := ReadTooEarly(start, name, d, e, x);
    RunLength(states, steps);
    hide IsRun, OthersWait, Takes, Tops, HasRead, Begins, AloneSince;
    ReadAtLast(states, steps, 2, name, Some([x]), i, [x]);
    var states1, steps1 := MoverReserves(states, steps, 3, info);
    ReadMore(states, steps, 2, name, Some([x]), i, [x], states1, steps1, 3, true);
    AloneMore(states, i, 2, name, states1, |steps|, 3);
    var states2, steps2 := MoverMoves(states1, steps1, 3, info);
    ReadMore(states1, steps1, 2, name, Some([x]), i, [x], states2, steps2, 3, true);
    AloneMore(states1, i, 2, name, states2, |steps1|, 3);
    ReadAtLast(states2, steps2, 2, name, Some([x]), i, [x]);
    j := |steps2|;
    AloneUntil(states2, i, j, 2, name);
    states, steps := RestorerTakes(states2, steps2, 2, name, [x]);
    ReadThenMoved(states2, steps2, 2, name, Some([x]), i, [x], states, steps);
    assert forall l :: i <= l <= j ==> states[l] == states2[l];
  }

  lemma {:induction false} AloneUntil(states: seq<State>, i: nat, j: nat, pid: Pid, name: string)
    requires AloneSince(states, i, pid, name) && j < |states|
    ensures forall l :: i <= l <= j ==> Alone(states[l], pid, name)
  {}
}
