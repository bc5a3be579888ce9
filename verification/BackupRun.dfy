/** A backup run that stops apps, takes a snapshot and starts them again, whatever fails
    and whenever it is interrupted (apps/root-worker/backup_run.go). */
module BackupRun {
  import opened Text

  /** What a run does, in order. */
  datatype Event =
    | Interrupt
    | Looked(app: string, seen: Seen)
    | StopTried(app: string, took: Outcome)
    | StartTried(app: string, took: Outcome)
    | SnapshotTried(consistent: bool, took: Outcome)
    | PruneTried(took: Outcome)

  /** Any call can panic. */
  datatype Outcome = Fine | Fault | Panic

  /** What looking at an app finds. */
  datatype Seen = Running | NotRunning | Unclear | Blown

  datatype RunError =
    | LockHeld | Paused | Unknown | Interrupted | Refused | SnapshotFailed
    | NotStarted(apps: seq<string>)
    | Both(first: RunError, second: RunError)

  datatype Result = Ok | Err(error: RunError) | Panicked

  datatype Record = Record(consistent: Option<bool>, snapshot: bool, success: bool, error: Option<RunError>)

  // ── Traces ──────────────────────────────────────────────────────────────────

  function Stops(es: seq<Event>): seq<string> {
    if es == [] then [] else (if es[0].StopTried? then [es[0].app] else []) + Stops(es[1..])
  }

  function Starts(es: seq<Event>): seq<string> {
    if es == [] then [] else (if es[0].StartTried? then [es[0].app] else []) + Starts(es[1..])
  }

  /** The apps that did not start. */
  function NotStartedIn(es: seq<Event>): seq<string> {
    if es == [] then []
    else
      (if es[0].StartTried? && !es[0].took.Fine? then [es[0].app] else []) + NotStartedIn(es[1..])
  }

  lemma {:induction false} StopsConcat(a: seq<Event>, b: seq<Event>)
    ensures Stops(a + b) == Stops(a) + Stops(b)
  {
    if a == [] {
      assert a + b == b;
    } else {
      assert (a + b)[1..] == a[1..] + b;
      StopsConcat(a[1..], b);
    }
  }

  lemma {:induction false} StartsConcat(a: seq<Event>, b: seq<Event>)
    ensures Starts(a + b) == Starts(a) + Starts(b)
  {
    if a == [] {
      assert a + b == b;
    } else {
      assert (a + b)[1..] == a[1..] + b;
      StartsConcat(a[1..], b);
    }
  }

  lemma {:induction false} NotStartedConcat(a: seq<Event>, b: seq<Event>)
    ensures NotStartedIn(a + b) == NotStartedIn(a) + NotStartedIn(b)
  {
    if a == [] {
      assert a + b == b;
    } else {
      assert (a + b)[1..] == a[1..] + b;
      NotStartedConcat(a[1..], b);
    }
  }

  lemma {:induction false} TraceConcat(a: seq<Event>, b: seq<Event>)
    ensures Stops(a + b) == Stops(a) + Stops(b)
    ensures Starts(a + b) == Starts(a) + Starts(b)
    ensures NotStartedIn(a + b) == NotStartedIn(a) + NotStartedIn(b)
  {
    hide *;
    StopsConcat(a, b);
    StartsConcat(a, b);
    NotStartedConcat(a, b);
  }

  ghost predicate OnlyInterrupts(es: seq<Event>) { forall e :: e in es ==> e.Interrupt? }

  ghost predicate OnlyStops(es: seq<Event>) { forall e :: e in es ==> e.Interrupt? || e.Looked? || e.StopTried? }

  ghost predicate OnlySnapshot(es: seq<Event>) { forall e :: e in es ==> e.Interrupt? || e.SnapshotTried? }

  ghost predicate OnlyStarts(es: seq<Event>) { forall e :: e in es ==> e.Interrupt? || e.StartTried? }

  ghost predicate OnlyPrune(es: seq<Event>) { forall e :: e in es ==> e.Interrupt? || e.PruneTried? }

  lemma {:induction false} NoStops(es: seq<Event>)
    requires forall e :: e in es ==> !e.StopTried?
    ensures Stops(es) == []
  {
    if es != [] {
      assert es[0] in es;
      NoStops(es[1..]);
    }
  }

  lemma {:induction false} NoStarts(es: seq<Event>)
    requires forall e :: e in es ==> !e.StartTried?
    ensures Starts(es) == [] && NotStartedIn(es) == []
  {
    if es != [] {
      assert es[0] in es;
      NoStarts(es[1..]);
    }
  }

  ghost predicate NoRepeat(xs: seq<string>) { forall i, j :: 0 <= i < j < |xs| ==> xs[i] != xs[j] }

  /** The app was seen not running, or its stop succeeded. */
  ghost predicate AtRest(app: string, es: seq<Event>) {
    Looked(app, NotRunning) in es || StopTried(app, Fine) in es
  }

  /** Something was not known or did not work. */
  ghost predicate Doubt(es: seq<Event>) {
    exists e :: e in es && Doubtful(e)
  }

  predicate Doubtful(e: Event) { (e.Looked? && (e.seen.Unclear? || e.seen.Blown?)) || (e.StopTried? && !e.took.Fine?) }

  predicate Panics(e: Event) {
    match e
    case Interrupt => false
    case Looked(_, seen) => seen.Blown?
    case _ => e.took.Panic?
  }

  ghost predicate Calm(es: seq<Event>) { forall e :: e in es ==> !Panics(e) }

  /** A panic is the last thing that happened. */
  predicate EndsInPanic(es: seq<Event>) { es != [] && Panics(es[|es| - 1]) }

  /** Nothing goes on after a panic. */
  ghost predicate PanicsLast(es: seq<Event>) { es != [] ==> Calm(es[..|es| - 1]) }

  /** Where the loop over the plan's apps is. */
  ghost predicate Stopping(apps: seq<string>, i: nat, es: seq<Event>, stopped: seq<string>, consistent: bool) {
    && i <= |apps| && OnlyStops(es) && Calm(es) && Stops(es) == stopped && NoRepeat(stopped)
    && (forall x :: x in stopped ==> x in apps[..i])
    && (consistent ==> forall k :: 0 <= k < i ==> AtRest(apps[k], es))
    && (consistent <==> !Doubt(es))
  }

  /** The loop was left by a panic, at an app looked at or one whose stop was tried. */
  ghost predicate StoppingBlown(apps: seq<string>, es: seq<Event>) {
    && OnlyStops(es) && PanicsLast(es) && EndsInPanic(es) && NoRepeat(Stops(es))
    && forall x :: x in Stops(es) ==> x in apps
  }

  lemma {:induction false} Grows(es: seq<Event>, more: seq<Event>)
    ensures forall app :: AtRest(app, es) ==> AtRest(app, es + more)
    ensures Doubt(es + more) <==> Doubt(es) || Doubt(more)
    ensures OnlyStops(es + more) <==> OnlyStops(es) && OnlyStops(more)
    ensures Calm(es + more) <==> Calm(es) && Calm(more)
  {
    forall e ensures e in es + more <==> e in es || e in more {}
  }

  /** What happens meanwhile changes nothing: a signal, or an app seen running. */
  lemma {:induction false} StoppingMore(apps: seq<string>, i: nat, es: seq<Event>, more: seq<Event>,
      stopped: seq<string>, consistent: bool)
    requires Stopping(apps, i, es, stopped, consistent)
    requires forall e :: e in more ==> e.Interrupt? || (e.Looked? && e.seen.Running?)
    ensures Stopping(apps, i, es + more, stopped, consistent)
  {
    Grows(es, more);
    TraceConcat(es, more);
    NoStops(more);
    hide AtRest, Doubt, Stops;
  }

  lemma {:induction false} OneMore(apps: seq<string>, i: nat)
    requires i < |apps|
    ensures forall x :: x in apps[..i + 1] <==> x in apps[..i] || x == apps[i]
  {
    assert apps[..i + 1] == apps[..i] + [apps[i]];
  }

  lemma {:induction false} StoppingSkips(apps: seq<string>, i: nat, es: seq<Event>, stopped: seq<string>,
      consistent: bool, seen: Seen)
    requires Stopping(apps, i, es, stopped, consistent) && i < |apps| && (seen.NotRunning? || seen.Unclear?)
    ensures Stopping(apps, i + 1, es + [Looked(apps[i], seen)], stopped, consistent && seen.NotRunning?)
  {
    var e := Looked(apps[i], seen);
    var all := es + [e];
    assert all[|es|] == e;
    Grows(es, [e]);
    TraceConcat(es, [e]);
    NoStops([e]);
    OneMore(apps, i);
    assert seen.Unclear? ==> e in all && Doubtful(e);
    assert seen.NotRunning? ==> AtRest(apps[i], all);
    assert Stops(all) == stopped + [] == stopped;
    hide AtRest, Stops;
  }

  lemma {:induction false} StoppingStops(apps: seq<string>, i: nat, es: seq<Event>, stopped: seq<string>,
      consistent: bool, took: Outcome)
    requires NoRepeat(apps) && Stopping(apps, i, es, stopped, consistent) && i < |apps| && !took.Panic?
    ensures Stopping(apps, i + 1, es + [StopTried(apps[i], took)], stopped + [apps[i]], consistent && took.Fine?)
  {
    var e := StopTried(apps[i], took);
    var all := es + [e];
    assert all[|es|] == e;
    Grows(es, [e]);
    TraceConcat(es, [e]);
    assert [e][1..] == [] && Stops([e]) == [apps[i]];
    OneMore(apps, i);
    NewApp(apps, i, stopped);
    assert !took.Fine? ==> e in all && Doubtful(e);
    assert took.Fine? ==> AtRest(apps[i], all);
    hide AtRest, Stops;
  }

  lemma {:induction false} StoppingBlows(apps: seq<string>, i: nat, es: seq<Event>, stopped: seq<string>,
      consistent: bool)
    requires NoRepeat(apps) && Stopping(apps, i, es, stopped, consistent) && i < |apps|
    ensures StoppingBlown(apps, es + [StopTried(apps[i], Panic)])
  {
    var e := StopTried(apps[i], Panic);
    var all := es + [e];
    assert all[|es|] == e && all[..|es|] == es;
    Grows(es, [e]);
    TraceConcat(es, [e]);
    assert [e][1..] == [] && Stops([e]) == [apps[i]];
    NewApp(apps, i, stopped);
    hide AtRest, Stops, Doubt;
  }

  lemma {:induction false} LookingBlows(apps: seq<string>, i: nat, es: seq<Event>, stopped: seq<string>,
      consistent: bool)
    requires Stopping(apps, i, es, stopped, consistent) && i < |apps|
    ensures StoppingBlown(apps, es + [Looked(apps[i], Blown)])
  {
    var e := Looked(apps[i], Blown);
    var all := es + [e];
    assert all[|es|] == e && all[..|es|] == es;
    Grows(es, [e]);
    TraceConcat(es, [e]);
    NoStops([e]);
    assert Stops(all) == stopped + [] == stopped;
    hide AtRest, Stops;
  }

  lemma {:induction false} NewApp(apps: seq<string>, i: nat, stopped: seq<string>)
    requires NoRepeat(apps) && i < |apps| && NoRepeat(stopped) && forall x :: x in stopped ==> x in apps[..i]
    ensures NoRepeat(stopped + [apps[i]])
  {
    forall k | 0 <= k < |stopped| ensures stopped[k] != apps[i] {
      assert stopped[k] in apps[..i];
      var j :| 0 <= j < i && apps[j] == stopped[k];
    }
  }

  /** A whole run that was not refused: stops, the snapshot, starts, the prune, in this
      order. Apps are started in the order they were stopped, all of them unless a panic
      came while looking, stopping or starting; a snapshot called consistent was taken with
      every app at rest; only a snapshot that succeeded leads to a prune. */
  ghost predicate Orderly(apps: seq<string>, es: seq<Event>) {
    exists stops, snapshot, starts, prune ::
      && es == stops + snapshot + starts + prune
      && Phases(apps, stops, snapshot, starts, prune)
  }

  ghost predicate Phases(apps: seq<string>, stops: seq<Event>, snapshot: seq<Event>, starts: seq<Event>,
      prune: seq<Event>) {
    && OnlyStops(stops) && OnlySnapshot(snapshot) && OnlyStarts(starts) && OnlyPrune(prune)
    && PanicsLast(stops) && PanicsLast(snapshot) && PanicsLast(starts) && PanicsLast(prune)
    && (EndsInPanic(stops) ==> snapshot == starts == prune == [])
    && (EndsInPanic(snapshot) || EndsInPanic(starts) ==> prune == [])
    && NoRepeat(Stops(stops)) && (forall x :: x in Stops(stops) ==> x in apps)
    && Starts(starts) <= Stops(stops)
    && (EndsInPanic(stops) || EndsInPanic(starts) || Starts(starts) == Stops(stops))
    && (forall e :: e in snapshot && e.SnapshotTried? ==>
          if e.consistent then forall a :: a in apps ==> AtRest(a, stops) else Doubt(stops))
    && ((exists e :: e in prune && e.PruneTried?) ==> exists e :: e in snapshot && e.SnapshotTried? && e.took.Fine?)
  }

  // ── When an app stays stopped ───────────────────────────────────────────────

  /** A panic that leaves an app stopped: while looking at an app after one was stopped,
      while stopping one, or while starting one that is not the last. */
  ghost predicate LeavesStopped(e: Event, stops: seq<string>) {
    match e
    case Looked(_, seen) => seen.Blown? && stops != []
    case StopTried(_, took) => took.Panic?
    case StartTried(app, took) => took.Panic? && stops != [] && app != stops[|stops| - 1]
    case _ => false
  }

  ghost predicate Cut(es: seq<Event>) { exists e :: e in es && LeavesStopped(e, Stops(es)) }

  lemma {:induction false} PhaseTraces(stops: seq<Event>, snapshot: seq<Event>, starts: seq<Event>, prune: seq<Event>)
    requires OnlyStops(stops) && OnlySnapshot(snapshot) && OnlyStarts(starts) && OnlyPrune(prune)
    ensures var es := stops + snapshot + starts + prune;
      && Stops(es) == Stops(stops) && Starts(es) == Starts(starts) && NotStartedIn(es) == NotStartedIn(starts)
  {
    TraceConcat(stops + snapshot + starts, prune);
    TraceConcat(stops + snapshot, starts);
    TraceConcat(stops, snapshot);
    NoStarts(stops);
    NoStarts(snapshot);
    NoStarts(prune);
    NoStops(snapshot);
    NoStops(starts);
    NoStops(prune);
    var s, t, n := Stops(stops), Starts(starts), NotStartedIn(starts);
    assert s + [] + [] + [] == s && [] + [] + t + [] == t && [] + [] + n + [] == n;
  }

  lemma {:induction false} LastTried(es: seq<Event>)
    requires es != []
    ensures es[|es| - 1].StartTried? ==> Starts(es) != [] && Starts(es)[|Starts(es)| - 1] == es[|es| - 1].app
    ensures es[|es| - 1].StopTried? ==> Stops(es) != []
  {
    var init, e := es[..|es| - 1], es[|es| - 1];
    assert es == init + [e];
    TraceConcat(init, [e]);
    assert [e][1..] == [];
  }

  lemma {:induction false} PanicIsLast(es: seq<Event>, e: Event)
    requires PanicsLast(es) && e in es && Panics(e)
    ensures es != [] && e == es[|es| - 1]
  {
    assert es == es[..|es| - 1] + [es[|es| - 1]];
  }

  lemma {:induction false} InPhases(stops: seq<Event>, snapshot: seq<Event>, starts: seq<Event>, prune: seq<Event>,
      e: Event)
    requires OnlyStops(stops) && OnlySnapshot(snapshot) && OnlyStarts(starts) && OnlyPrune(prune)
    ensures var es := stops + snapshot + starts + prune;
      && (e.Looked? || e.StopTried? ==> (e in es <==> e in stops))
      && (e.StartTried? ==> (e in es <==> e in starts))
  {}

  lemma {:induction false} SamePrefix(a: seq<string>, b: seq<string>)
    requires a <= b && NoRepeat(b) && a != [] && a[|a| - 1] == b[|b| - 1]
    ensures a == b
  {
    assert b[|a| - 1] == a[|a| - 1];
  }

  lemma {:induction false} PhasesCut(apps: seq<string>, stops: seq<Event>, snapshot: seq<Event>, starts: seq<Event>,
      prune: seq<Event>, e: Event)
    requires Phases(apps, stops, snapshot, starts, prune) && e in stops + starts && LeavesStopped(e, Stops(stops))
    ensures Starts(starts) != Stops(stops)
  {
    hide Starts, Stops, AtRest, Doubt;
    if e in stops {
      PanicIsLast(stops, e);
      LastTried(stops);
      NoStarts([]);
    } else {
      PanicIsLast(starts, e);
      LastTried(starts);
    }
  }

  lemma {:induction false} PhasesUncut(apps: seq<string>, stops: seq<Event>, snapshot: seq<Event>, starts: seq<Event>,
      prune: seq<Event>)
    requires Phases(apps, stops, snapshot, starts, prune) && Starts(starts) != Stops(stops)
    ensures exists e :: e in stops + starts && LeavesStopped(e, Stops(stops))
  {
    hide Starts, Stops, AtRest, Doubt;
    if EndsInPanic(stops) {
      var e := stops[|stops| - 1];
      NoStarts([]);
      assert e in stops + starts && LeavesStopped(e, Stops(stops));
    } else {
      var e := starts[|starts| - 1];
      LastTried(starts);
      if Stops(stops) != [] && e.app == Stops(stops)[|Stops(stops)| - 1] { SamePrefix(Starts(starts), Stops(stops)); }
      assert e in stops + starts && LeavesStopped(e, Stops(stops));
    }
  }

  /** Apps are tried to start in the order they were tried to stop, and all of them exactly
      when no panic left one stopped. */
  lemma {:induction false} StartedExactly(apps: seq<string>, es: seq<Event>)
    requires Orderly(apps, es)
    ensures Starts(es) <= Stops(es)
    ensures Starts(es) == Stops(es) <==> !Cut(es)
  {
    var stops, snapshot, starts, prune :| es == stops + snapshot + starts + prune
      && Phases(apps, stops, snapshot, starts, prune);
    PhaseTraces(stops, snapshot, starts, prune);
    hide Starts, Stops;
    forall e ensures LeavesStopped(e, Stops(es)) ==> (e in es <==> e in stops + starts) {
      InPhases(stops, snapshot, starts, prune, e);
    }
    if Cut(es) {
      var e :| e in es && LeavesStopped(e, Stops(es));
      PhasesCut(apps, stops, snapshot, starts, prune, e);
    } else if Starts(starts) != Stops(stops) {
      PhasesUncut(apps, stops, snapshot, starts, prune);
    }
  }

  /** A panic while the second app is looked at leaves the first one stopped: the deferred
      restart is not set up yet. */
  lemma {:induction false} PanicLeavesStopped()
    ensures var es := [Looked("a", Running), StopTried("a", Fine), Looked("b", Blown)];
      Orderly(["a", "b"], es) && Stops(es) == ["a"] && Starts(es) == [] && Cut(es)
  {
    var es := [Looked("a", Running), StopTried("a", Fine), Looked("b", Blown)];
    assert es[1..] == [StopTried("a", Fine), Looked("b", Blown)] && es[1..][1..] == [Looked("b", Blown)]
      && es[1..][1..][1..] == [];
    assert Stops(es) == ["a"] && Starts(es) == [];
    assert es == es + [] + [] + [] && Phases(["a", "b"], es, [], [], []);
    assert es[2] in es && LeavesStopped(es[2], Stops(es));
  }

  class Run {
    /** Set by a signal at any time, and never cleared. */
    var interrupted: bool
    var log: seq<Event>
    /** The records written. */
    var records: seq<Record>

    constructor ()
      ensures !interrupted && log == [] && records == []
    {
      interrupted, log, records := false, [], [];
    }

    /** Time passes: a signal can come. */
    method Wait()
      modifies this`interrupted, this`log
      ensures old(interrupted) ==> interrupted
      ensures old(log) <= log && OnlyInterrupts(log[|old(log)|..])
    {
      var signal: bool := *;
      if signal { interrupted, log := true, log + [Interrupt]; }
    }

    /** Stops the plan's apps that run. */
    method StopApps(apps: seq<string>) returns (stopped: seq<string>, consistent: bool, panicked: bool, ghost done: nat)
      requires NoRepeat(apps)
      modifies this`interrupted, this`log
      ensures old(log) <= log && (old(interrupted) ==> interrupted && log == old(log) && stopped == [] && !panicked)
      ensures panicked ==> StoppingBlown(apps, log[|old(log)|..])
      ensures !panicked ==> Stopping(apps, done, log[|old(log)|..], stopped, consistent)
      ensures !panicked ==> done <= |apps| && (done < |apps| ==> interrupted)
    {
      hide Stopping, StoppingBlown;
      stopped, consistent, panicked, done := [], true, false, 0;
      StoppingNone(apps);
      assert log[|old(log)|..] == [];
      for i := 0 to |apps|
        invariant done == i && old(log) <= log && !panicked
        invariant old(interrupted) ==> interrupted && log == old(log) && stopped == []
        invariant Stopping(apps, i, log[|old(log)|..], stopped, consistent)
      {
        if interrupted { break; }
        stopped, consistent, panicked := StopOne(apps, i, old(log), stopped, consistent);
        if panicked { break; }
        done := i + 1;
      }
    }

    /** composeRunning. */
    method LookAt() returns (seen: Seen) {
      seen := *;
    }

    /** One app: looked at, and stopped if it runs. */
    method StopOne(apps: seq<string>, i: nat, ghost start: seq<Event>, stopped: seq<string>, consistent: bool)
      returns (stopped': seq<string>, consistent': bool, panicked: bool)
      requires NoRepeat(apps) && i < |apps| && start <= log && Stopping(apps, i, log[|start|..], stopped, consistent)
      modifies this`interrupted, this`log
      ensures start <= log && (old(interrupted) ==> interrupted)
      ensures if panicked then StoppingBlown(apps, log[|start|..])
              else Stopping(apps, i + 1, log[|start|..], stopped', consistent')
    {
      hide Stopping, StoppingBlown;
      stopped', consistent' := stopped, consistent;
      Pause(apps, i, start, stopped, consistent);
      var seen := LookAt();
      ghost var es := log[|start|..];
      log := log + [Looked(apps[i], seen)];
      assert log[|start|..] == es + [Looked(apps[i], seen)];
      if seen.Blown? {
        LookingBlows(apps, i, es, stopped, consistent);
        return stopped, consistent, true;
      }
      if !seen.Running? {
        StoppingSkips(apps, i, es, stopped, consistent, seen);
        return stopped, consistent && seen.NotRunning?, false;
      }
      StoppingMore(apps, i, es, [Looked(apps[i], seen)], stopped, consistent);
      Pause(apps, i, start, stopped, consistent);
      var took: Outcome := *;
      es := log[|start|..];
      if took.Panic? {
        StoppingBlows(apps, i, es, stopped, consistent);
      } else {
        StoppingStops(apps, i, es, stopped, consistent, took);
      }
      log := log + [StopTried(apps[i], took)];
      assert log[|start|..] == es + [StopTried(apps[i], took)];
      return stopped + [apps[i]], consistent && took.Fine?, took.Panic?;
    }

    method Pause(ghost apps: seq<string>, ghost i: nat, ghost start: seq<Event>, ghost stopped: seq<string>,
        ghost consistent: bool)
      requires start <= log && Stopping(apps, i, log[|start|..], stopped, consistent)
      modifies this`interrupted, this`log
      ensures start <= log && Stopping(apps, i, log[|start|..], stopped, consistent)
      ensures old(interrupted) ==> interrupted
    {
      hide Stopping;
      Wait();
      StoppingMore(apps, i, old(log)[|start|..], log[|old(log)|..], stopped, consistent);
      assert log[|start|..] == old(log)[|start|..] + log[|old(log)|..];
    }

    /** Starts the stopped apps again, up to a panic; the ones that did not start. */
    method Restart(stopped: seq<string>) returns (failed: seq<string>, panicked: bool)
      modifies this`interrupted, this`log
      ensures old(log) <= log && (old(interrupted) ==> interrupted)
      ensures Restarting(stopped, log[|old(log)|..], failed, panicked)
      ensures panicked <==> EndsInPanic(log[|old(log)|..])
      ensures !panicked ==> Starts(log[|old(log)|..]) == stopped
    {
      hide Starts, Restarting, EndsInPanic, OnlyInterrupts;
      failed, panicked := [], false;
      assert log[|old(log)|..] == [] && stopped[..0] == [];
      NothingStarted(stopped);
      for i := 0 to |stopped|
        invariant old(log) <= log && (old(interrupted) ==> interrupted) && !panicked
        invariant Restarting(stopped, log[|old(log)|..], failed, false) && !EndsInPanic(log[|old(log)|..])
        invariant Starts(log[|old(log)|..]) == stopped[..i]
      {
        ghost var before := log;
        Wait();
        var took: Outcome := *;
        StartedMore(stopped, i, before[|old(log)|..], log[|before|..], failed, took);
        log := log + [StartTried(stopped[i], took)];
        assert log[|old(log)|..] == before[|old(log)|..] + log[|before|..|log| - 1] + [StartTried(stopped[i], took)];
        panicked := took.Panic?;
        if !took.Fine? { failed := failed + [stopped[i]]; }
        if panicked { break; }
      }
      assert stopped[..|stopped|] == stopped;
    }

    /** The snapshot, unless the run was interrupted. */
    method Snapshot(consistent: bool) returns (took: Option<Outcome>)
      modifies this`interrupted, this`log
      ensures old(log) <= log && (old(interrupted) ==> interrupted && took == None && log == old(log))
      ensures took == None ==> interrupted && log == old(log)
      ensures Snapshotting(log[|old(log)|..], consistent, took)
    {
      if interrupted { return None; }
      Wait();
      var t: Outcome := *;
      ghost var before := log;
      log := log + [SnapshotTried(consistent, t)];
      ghost var es := log[|old(log)|..];
      assert es == before[|old(log)|..] + [SnapshotTried(consistent, t)] && es[..|es| - 1] == before[|old(log)|..];
      took := Some(t);
    }

    /** Prunes old snapshots, unless the run was interrupted; true when it panicked. */
    method Prune() returns (panicked: bool)
      modifies this`interrupted, this`log
      ensures old(log) <= log && (old(interrupted) ==> interrupted)
      ensures OnlyPrune(log[|old(log)|..]) && PanicsLast(log[|old(log)|..])
      ensures panicked <==> EndsInPanic(log[|old(log)|..])
      ensures Pruned(log[|old(log)|..]) <==> !interrupted
    {
      Wait();
      if interrupted { return false; }
      var t: Outcome := *;
      ghost var before := log;
      log := log + [PruneTried(t)];
      ghost var es := log[|old(log)|..];
      assert es == before[|old(log)|..] + [PruneTried(t)] && es[..|es| - 1] == before[|old(log)|..];
      assert PruneTried(t) in es;
      panicked := t.Panic?;
    }

    /** runVersions once the sources and the repository are ready. The deferred restart is
        set up after the stops: a panic before it starts nothing again. */
    method Backup(apps: seq<string>) returns (r: Result, consistent: bool, snapshot: bool)
      requires NoRepeat(apps)
      modifies this`interrupted, this`log
      ensures old(log) <= log && (old(interrupted) ==> interrupted)
      ensures r != Err(Refused) && RanFrom(apps, log[|old(log)|..], r, consistent, snapshot, interrupted)
      ensures old(interrupted) ==> OnlyInterrupts(log[|old(log)|..]) && r == Err(Interrupted)
      ensures Pruned(log[|old(log)|..]) <==> snapshot && !interrupted
    {
      hide Stopping, StoppingBlown, Orderly, Phases, RanFrom, Restarting, Snapshotting, Judged, OnlyInterrupts, Starts,
        PanicsLast, EndsInPanic, OnlyPrune, Pruned;
      snapshot := false;
      var stopped, panicked;
      ghost var done;
      stopped, consistent, panicked, done := StopApps(apps);
      if panicked {
        BlownRun(apps, log[|old(log)|..], consistent, interrupted);
        NoPruning(apps, log[|old(log)|..]);
        return Panicked, consistent, false;
      }
      ghost var l1 := log;
      var took := Snapshot(consistent);
      ghost var l2 := log;
      // The deferred restart after a panic, or the one right after the snapshot.
      var failed;
      failed, panicked := Restart(stopped);
      ghost var l3 := log;
      if took == Some(Fine) && !panicked {
        snapshot := true;
        panicked := Prune();
      } else if took == Some(Panic) {
        panicked := true;
      }
      NoPrune();
      NoPruning(apps, []);
      assert took != Some(Fine) || panicked ==> log[|l3|..] == [] || snapshot;
      ghost var e1, e2, e3, e4 := l1[|old(log)|..], l2[|l1|..], l3[|l2|..], log[|l3|..];
      Spliced(old(log), l1, l2, l3, log);
      PrunedLast(apps, done, e1, e2, e3, e4, stopped, consistent, took, failed, EndsInPanic(e3));
      r := Judge(snapshot, failed);
      if panicked { r := Panicked; }
      Whole(apps, done, e1, e2, e3, e4, stopped, consistent, took, failed, snapshot, r, interrupted);
      if old(interrupted) { Quiet(e1, e2, e3, e4, failed, panicked); }
    }

    /** runVersions. */
    method RunVersions(apps: seq<string>) returns (r: Result, consistent: Option<bool>, snapshot: bool)
      requires NoRepeat(apps)
      modifies this`interrupted, this`log
      ensures old(log) <= log && (old(interrupted) ==> interrupted)
      ensures r == Err(Refused) ==> OnlyInterrupts(log[|old(log)|..]) && consistent == None && !snapshot
      ensures FromRun(r)
      ensures r != Err(Refused) ==>
        consistent.Some? && Ran(apps, log[|old(log)|..], r, consistent.value, snapshot, interrupted)
      ensures old(interrupted) ==> r in {Err(Refused), Err(Interrupted)}
      ensures Pruned(log[|old(log)|..]) <==> snapshot && !interrupted
      ensures !r.Panicked? ==> (snapshot <==> Taken(log[|old(log)|..]))
    {
      hide Orderly, NotStartedIn, Judged, OnlyInterrupts, Calm, Doubt, Pruned, Taken;
      Wait();
      var refused: bool := *;
      NoPruning(apps, log[|old(log)|..]);
      if refused { return Err(Refused), None, false; }
      ghost var begun := log;
      var c;
      r, c, snapshot := Backup(apps);
      consistent := Some(c);
      assert log[|old(log)|..][..|begun| - |old(log)|] == begun[|old(log)|..];
      assert log[|old(log)|..][|begun| - |old(log)|..] == log[|begun|..];
      assert log[|old(log)|..] == begun[|old(log)|..] + log[|begun|..];
      PrunedMore(begun[|old(log)|..], log[|begun|..]);
      TakenMore(begun[|old(log)|..], log[|begun|..]);
    }

    /** finishRun: one record, a success exactly when the run was; a signal can still come
        before it. */
    method FinishRun(consistent: Option<bool>, snapshot: bool, r: Result) returns (q: Result)
      requires !r.Panicked?
      modifies this
      ensures old(log) <= log && OnlyInterrupts(log[|old(log)|..]) && (old(interrupted) ==> interrupted)
      ensures q == if r.Err? then Err(AsInterrupted(r.error, interrupted)) else Ok
      ensures records == old(records) + [RecordOf(consistent, snapshot, q)]
    {
      Wait();
      q := if r.Err? then Err(AsInterrupted(r.error, interrupted)) else Ok;
      records := records + [RecordOf(consistent, snapshot, q)];
    }

    /** runPlan, for a versions plan: a run leaves one record, unless another run of the
        plan is going on, the plan is paused, or the run panicked. */
    method RunPlan(apps: seq<string>, enabled: bool, manual: bool) returns (r: Result)
      requires NoRepeat(apps)
      modifies this
      ensures old(log) <= log
      ensures r in {Err(LockHeld), Err(Paused)} || r.Panicked? ==> records == old(records)
      ensures r == Err(Paused) ==> !enabled && !manual
      ensures r in {Err(LockHeld), Err(Paused), Err(Unknown)} ==> OnlyInterrupts(log[|old(log)|..])
      ensures r !in {Err(LockHeld), Err(Paused)} && !r.Panicked? ==>
        |records| == |old(records)| + 1 && old(records) <= records
        && records[|old(records)|].snapshot == Taken(log[|old(log)|..])
        && records[|old(records)|].success == r.Ok? && (r.Err? ==> records[|old(records)|].error == Some(r.error))
      ensures r.Ok? ==> exists n, c, signal ::
        |old(log)| <= n <= |log| && OnlyInterrupts(log[n..]) && Ran(apps, log[|old(log)|..n], Ok, c, true, signal)
    {
      hide Ran, Orderly, OnlyInterrupts, Taken, Pruned;
      var held: bool, config: bool, plan: bool, repository: bool, lock: bool := *, *, *, *, *;
      NoInterrupts();
      assert log[|log|..] == [];
      if !held { return Err(LockHeld); }
      if !config || !plan {
        r := FinishRun(None, false, Err(Unknown));
        NoPruning(apps, log[|old(log)|..]);
        return;
      }
      if !enabled && !manual { return Err(Paused); }
      if !repository || !lock {
        r := FinishRun(None, false, Err(Unknown));
        NoPruning(apps, log[|old(log)|..]);
        return;
      }
      var consistent, snapshot;
      r, consistent, snapshot := RunVersions(apps);
      ghost var ended := log;
      if r.Panicked? { return; }
      if r.Ok? { RanWell(apps, log[|old(log)|..], consistent.value, snapshot, interrupted); }
      ghost var signal := interrupted;
      r := FinishRun(consistent, snapshot, r);
      assert log[|old(log)|..|ended|] == ended[|old(log)|..];
      assert log[|old(log)|..] == ended[|old(log)|..] + log[|ended|..];
      TakenMore(log[|ended|..], ended[|old(log)|..]);
      assert r.Ok? ==> Ran(apps, log[|old(log)|..|ended|], Ok, consistent.value, true, signal);
    }

    /** The error a run ends with; a failed one that was interrupted says so. */
    method Judge(snapshot: bool, failed: seq<string>) returns (r: Result)
      ensures r == Judged(snapshot, interrupted, failed)
    {
      var berr := if snapshot then None else if interrupted then Some(Interrupted) else Some(SnapshotFailed);
      if berr.Some? && failed != [] { return Err(Both(berr.value, NotStarted(failed))); }
      if berr.Some? { return Err(berr.value); }
      r := if failed != [] then Err(NotStarted(failed)) else Ok;
    }
  }

  predicate IsInterrupted(e: RunError) { e.Interrupted? || (e.Both? && IsInterrupted(e.first)) }

  /** asInterrupted: any other error of an interrupted run gives way. */
  function AsInterrupted(e: RunError, interrupted: bool): (r: RunError)
    ensures interrupted ==> IsInterrupted(r)
    ensures IsInterrupted(e) || !interrupted ==> r == e
  {
    if interrupted && !IsInterrupted(e) then Interrupted else e
  }

  function RecordOf(consistent: Option<bool>, snapshot: bool, q: Result): Record {
    Record(consistent, snapshot, q == Ok, if q.Err? then Some(q.error) else None)
  }

  predicate FromRun(r: Result) { r.Err? ==> !r.error.LockHeld? && !r.error.Paused? && !r.error.Unknown? }

  /** A run that was not refused, after some signals maybe: orderly, and what it returns
      says how it went. */
  ghost predicate Ran(apps: seq<string>, es: seq<Event>, r: Result, consistent: bool, snapshot: bool,
      interrupted: bool) {
    exists k :: 0 <= k <= |es| && OnlyInterrupts(es[..k])
      && RanFrom(apps, es[k..], r, consistent, snapshot, interrupted)
  }

  ghost predicate RanFrom(apps: seq<string>, es: seq<Event>, r: Result, consistent: bool, snapshot: bool,
      interrupted: bool) {
    && Orderly(apps, es) && FromRun(r)
    && (r.Panicked? <==> !Calm(es))
    && (!r.Panicked? ==> r == Judged(snapshot, interrupted, NotStartedIn(es)) && (consistent <==> !Doubt(es)))
    && (snapshot ==> SnapshotTried(consistent, Fine) in es)
    && (!r.Panicked? ==> (snapshot <==> Taken(es)))
  }

  /** A snapshot was taken. */
  ghost predicate Taken(es: seq<Event>) { exists c :: SnapshotTried(c, Fine) in es }

  lemma {:induction false} RanWell(apps: seq<string>, es: seq<Event>, consistent: bool, snapshot: bool,
      interrupted: bool)
    requires Ran(apps, es, Ok, consistent, snapshot, interrupted)
    ensures snapshot
  {}

  /** Success is a snapshot taken and every stopped app started. */
  function Judged(snapshot: bool, interrupted: bool, failed: seq<string>): (r: Result)
    ensures r != Err(Refused) && !r.Panicked? && FromRun(r)
    ensures r == Ok <==> snapshot && failed == []
    ensures failed != [] ==>
      r.Err? && (r.error == NotStarted(failed) || (r.error.Both? && r.error.second == NotStarted(failed)))
    ensures !snapshot && interrupted ==>
      r.Err? && (failed == [] ==> r == Err(Interrupted))
        && (r.error == Interrupted || (r.error.Both? && r.error.first == Interrupted))
  {
    if snapshot then (if failed == [] then Ok else Err(NotStarted(failed)))
    else
      var berr := if interrupted then Interrupted else SnapshotFailed;
      if failed == [] then Err(berr) else Err(Both(berr, NotStarted(failed)))
  }

  predicate Names(e: RunError, apps: seq<string>) {
    e == NotStarted(apps) || (e.Both? && (Names(e.first, apps) || Names(e.second, apps)))
  }

  /** The apps that did not start are not named in the record exactly when a signal came
      and the snapshot had succeeded, or failed before the signal. */
  lemma {:induction false} NamesLost(snapshot: bool, early: bool, late: bool, failed: seq<string>)
    requires failed != [] && (early ==> late)
    ensures var r := Judged(snapshot, early, failed);
      r.Err? && (!Names(AsInterrupted(r.error, late), failed) <==> late && (snapshot || !early))
  {
    if snapshot {
      assert !IsInterrupted(NotStarted(failed));
    } else {
      var e := if early then Interrupted else SnapshotFailed;
      var both := Both(e, NotStarted(failed));
      assert IsInterrupted(both) <==> IsInterrupted(both.first);
      assert Names(both.second, failed) && Names(both, failed);
    }
  }

  /** What is recorded as consistent says only that no look and no stop failed: it is so of
      a run interrupted before it looked at anything. */
  lemma {:induction false} ConsistentOfNothing()
    ensures RanFrom(["a"], [], Err(Interrupted), true, false, true)
  {
    var none: seq<Event> := [];
    assert none == none + none + none + none && Phases(["a"], none, none, none, none);
    assert Judged(false, true, NotStartedIn(none)) == Err(Interrupted);
  }

  /** Where the loop that starts the apps again is. */
  ghost predicate Restarting(stopped: seq<string>, es: seq<Event>, failed: seq<string>, panicked: bool) {
    && OnlyStarts(es) && PanicsLast(es) && (panicked <==> EndsInPanic(es))
    && Starts(es) <= stopped && NotStartedIn(es) == failed
  }

  lemma {:induction false} NothingStarted(stopped: seq<string>)
    ensures Restarting(stopped, [], [], false) && Starts([]) == [] && !EndsInPanic([])
  {}

  lemma {:induction false} NoPrune()
    ensures OnlyPrune([]) && PanicsLast([]) && !EndsInPanic([]) && OnlyInterrupts([])
  {}

  lemma {:induction false} NoInterrupts()
    ensures OnlyInterrupts([])
  {}

  lemma {:induction false} CalmConcat(a: seq<Event>, b: seq<Event>)
    ensures Calm(a + b) <==> Calm(a) && Calm(b)
  {
    Grows(a, b);
  }

  lemma {:induction false} CalmExactly(es: seq<Event>)
    requires PanicsLast(es)
    ensures Calm(es) <==> !EndsInPanic(es)
  {
    if es != [] {
      assert es == es[..|es| - 1] + [es[|es| - 1]];
      CalmConcat(es[..|es| - 1], [es[|es| - 1]]);
    }
  }

  lemma {:induction false} StartedMore(stopped: seq<string>, i: nat, es: seq<Event>, more: seq<Event>,
      failed: seq<string>, took: Outcome)
    requires i < |stopped| && Restarting(stopped, es, failed, false) && Starts(es) == stopped[..i]
      && OnlyInterrupts(more)
    ensures var all := es + more + [StartTried(stopped[i], took)];
      && Restarting(stopped, all, if took.Fine? then failed else failed + [stopped[i]], took.Panic?)
      && Starts(all) == stopped[..i + 1] && (took.Panic? <==> EndsInPanic(all))
  {
    var e := [StartTried(stopped[i], took)];
    var all := es + more + e;
    TraceConcat(es + more, e);
    TraceConcat(es, more);
    NoStarts(more);
    assert e[1..] == [] && Starts(e) == [stopped[i]] && NotStartedIn(e) == if took.Fine? then [] else [stopped[i]];
    assert Starts(es) + [] == Starts(es) && NotStartedIn(es) + [] == NotStartedIn(es);
    assert stopped[..i + 1] == stopped[..i] + [stopped[i]];
    CalmExactly(es);
    CalmConcat(es, more);
    assert all[..|all| - 1] == es + more;
  }

  /** The part of a run that takes the snapshot. */
  ghost predicate Snapshotting(es: seq<Event>, consistent: bool, took: Option<Outcome>) {
    && OnlySnapshot(es) && PanicsLast(es) && (took == Some(Panic) <==> EndsInPanic(es))
    && (forall e :: e in es && e.SnapshotTried? ==> e.consistent == consistent && took == Some(e.took))
    && (took.Some? ==> SnapshotTried(consistent, took.value) in es)
  }

  /** A run that a panic ended while apps were stopped. */
  lemma {:induction false} BlownRun(apps: seq<string>, es: seq<Event>, consistent: bool, interrupted: bool)
    requires StoppingBlown(apps, es)
    ensures RanFrom(apps, es, Panicked, consistent, false, interrupted)
  {
    hide AtRest, Doubt, Stops;
    CalmExactly(es);
    NoStarts([]);
    assert es == es + [] + [] + [] && Phases(apps, es, [], [], []);
  }

  /** The parts of a run make an orderly whole. */
  lemma {:induction false} Whole(apps: seq<string>, done: nat, stops: seq<Event>, snapshot: seq<Event>,
      starts: seq<Event>, prune: seq<Event>,
      stopped: seq<string>, rested: bool, took: Option<Outcome>, failed: seq<string>,
      taken: bool, r: Result, interrupted: bool)
    requires Stopping(apps, done, stops, stopped, rested) && Snapshotting(snapshot, rested, took)
    requires Restarting(stopped, starts, failed, EndsInPanic(starts))
      && (EndsInPanic(starts) || Starts(starts) == stopped)
    requires OnlyPrune(prune) && PanicsLast(prune)
    requires took.Some? ==> done == |apps|
    requires taken <==> took == Some(Fine) && !EndsInPanic(starts)
    requires prune != [] ==> taken
    requires r.Panicked? <==> EndsInPanic(snapshot) || EndsInPanic(starts) || EndsInPanic(prune)
    requires !r.Panicked? ==> r == Judged(taken, interrupted, failed)
    ensures RanFrom(apps, stops + snapshot + starts + prune, r, rested, taken, interrupted)
  {
    var all := stops + snapshot + starts + prune;
    WholePhases(apps, done, stops, snapshot, starts, prune, stopped, rested, took, failed);
    assert Orderly(apps, all);
    PhaseTraces(stops, snapshot, starts, prune);
    WholePanics(stops, snapshot, starts, prune);
    WholeDoubt(stops, snapshot, starts, prune);
    WholeTaken(stops, snapshot, starts, prune, rested, took);
    hide Taken;
    hide Stops, Starts, NotStartedIn, Orderly, Phases, Judged, AtRest, Doubt;
  }

  lemma {:induction false} WholePanics(stops: seq<Event>, snapshot: seq<Event>, starts: seq<Event>, prune: seq<Event>)
    requires Calm(stops) && PanicsLast(snapshot) && PanicsLast(starts) && PanicsLast(prune)
    ensures !Calm(stops + snapshot + starts + prune) <==>
      EndsInPanic(snapshot) || EndsInPanic(starts) || EndsInPanic(prune)
  {
    hide Calm, EndsInPanic, PanicsLast;
    CalmConcat(stops + snapshot + starts, prune);
    CalmConcat(stops + snapshot, starts);
    CalmConcat(stops, snapshot);
    CalmExactly(snapshot);
    CalmExactly(starts);
    CalmExactly(prune);
  }

  lemma {:induction false} WholeDoubt(stops: seq<Event>, snapshot: seq<Event>, starts: seq<Event>, prune: seq<Event>)
    requires OnlySnapshot(snapshot) && OnlyStarts(starts) && OnlyPrune(prune)
    ensures Doubt(stops + snapshot + starts + prune) <==> Doubt(stops)
  {
    Grows(stops + snapshot + starts, prune);
    Grows(stops + snapshot, starts);
    Grows(stops, snapshot);
  }

  lemma {:induction false} WholePhases(apps: seq<string>, done: nat, stops: seq<Event>, snapshot: seq<Event>,
      starts: seq<Event>, prune: seq<Event>,
      stopped: seq<string>, rested: bool, took: Option<Outcome>, failed: seq<string>)
    requires Stopping(apps, done, stops, stopped, rested) && Snapshotting(snapshot, rested, took)
    requires Restarting(stopped, starts, failed, EndsInPanic(starts))
      && (EndsInPanic(starts) || Starts(starts) == stopped)
    requires OnlyPrune(prune) && PanicsLast(prune)
    requires took.Some? ==> done == |apps|
    requires prune != [] ==> took == Some(Fine) && !EndsInPanic(starts)
    ensures Phases(apps, stops, snapshot, starts, prune)
  {
    hide Starts, Stops, Doubt, NotStartedIn;
    CalmExactly(stops);
    forall x | x in stopped ensures x in apps { assert x in apps[..done]; }
    forall a | a in apps && rested && took.Some? ensures AtRest(a, stops) {
      var k :| 0 <= k < |apps| && apps[k] == a;
      assert AtRest(apps[k], stops);
    }
    if took == Some(Fine) { assert SnapshotTried(rested, Fine) in snapshot; }
    hide AtRest;
  }

  lemma {:induction false} WholeTaken(stops: seq<Event>, snapshot: seq<Event>, starts: seq<Event>, prune: seq<Event>,
      rested: bool, took: Option<Outcome>)
    requires OnlyStops(stops) && OnlyStarts(starts) && OnlyPrune(prune) && Snapshotting(snapshot, rested, took)
    ensures Taken(stops + snapshot + starts + prune) <==> took == Some(Fine)
  {
    hide PanicsLast;
    if took == Some(Fine) { assert SnapshotTried(rested, Fine) in stops + snapshot + starts + prune; }
    if c :| SnapshotTried(c, Fine) in stops + snapshot + starts + prune {
      var e := SnapshotTried(c, Fine);
      assert e in stops || e in snapshot || e in starts || e in prune;
    }
  }

  lemma {:induction false} TakenMore(a: seq<Event>, b: seq<Event>)
    requires OnlyInterrupts(a)
    ensures Taken(a + b) <==> Taken(b)
    ensures Taken(b + a) <==> Taken(b)
  {
    if c :| SnapshotTried(c, Fine) in b { assert SnapshotTried(c, Fine) in a + b && SnapshotTried(c, Fine) in b + a; }
  }

  /** Old snapshots were pruned, or it was tried. */
  ghost predicate Pruned(es: seq<Event>) { exists e :: e in es && e.PruneTried? }

  lemma {:induction false} PrunedLast(apps: seq<string>, done: nat, stops: seq<Event>, snapshot: seq<Event>,
      starts: seq<Event>, prune: seq<Event>, stopped: seq<string>, rested: bool, took: Option<Outcome>,
      failed: seq<string>, panicked: bool)
    requires Stopping(apps, done, stops, stopped, rested) && Snapshotting(snapshot, rested, took)
    requires Restarting(stopped, starts, failed, panicked)
    ensures Pruned(stops + snapshot + starts + prune) <==> Pruned(prune)
  {
    hide Stops, Starts, NotStartedIn, Doubt, AtRest, Calm, NoRepeat, PanicsLast;
    forall e | e in stops + snapshot + starts ensures !e.PruneTried? {
      assert e in stops || e in snapshot || e in starts;
    }
    if Pruned(prune) {
      var e :| e in prune && e.PruneTried?;
      assert e in stops + snapshot + starts + prune;
    }
  }

  lemma {:induction false} NoPruning(apps: seq<string>, es: seq<Event>)
    ensures StoppingBlown(apps, es) || OnlyInterrupts(es) ==> !Pruned(es)
    ensures OnlyInterrupts(es) ==> !Taken(es)
  {}

  lemma {:induction false} PrunedMore(a: seq<Event>, b: seq<Event>)
    ensures OnlyInterrupts(a) ==> (Pruned(a + b) <==> Pruned(b))
  {
    if e :| e in b && e.PruneTried? { assert e in a + b; }
  }

  lemma {:induction false} Spliced(a: seq<Event>, b: seq<Event>, c: seq<Event>, d: seq<Event>, e: seq<Event>)
    requires a <= b <= c <= d <= e
    ensures e[|a|..] == b[|a|..] + c[|b|..] + d[|c|..] + e[|d|..]
  {}

  lemma {:induction false} QuietStarts(starts: seq<Event>)
    requires OnlyStarts(starts) && Starts(starts) == []
    ensures OnlyInterrupts(starts)
  {
    if starts != [] {
      assert starts[0] in starts;
      QuietStarts(starts[1..]);
    }
  }

  lemma {:induction false} Quiet(stops: seq<Event>, snapshot: seq<Event>, starts: seq<Event>, prune: seq<Event>,
      failed: seq<string>, panicked: bool)
    requires stops == [] && snapshot == [] && prune == [] && Restarting([], starts, failed, panicked)
    ensures OnlyInterrupts(stops + snapshot + starts + prune) && failed == [] && !panicked
  {
    QuietStarts(starts);
    NoStarts(starts);
    assert stops + snapshot + starts + prune == starts;
  }

  lemma {:induction false} StoppingNone(apps: seq<string>)
    ensures Stopping(apps, 0, [], [], true)
  {}
}
