/** rollback and recoverUpdate (apps/root-worker/update_rollback.go) as a machine over
    their calls. Whoever holds update.lock takes one step at a time, may see any call
    fail, and may die after any of them; whoever takes the lock next starts from what is
    on disk then. */
module UpdateRecovery {
  import opened Text

  /** in-progress.json: id tells updates apart, snapshot is what they would go back to. */
  datatype Marker = Marker(id: nat, snapshot: nat, recovering: bool)

  /** The status in last.json. */
  datatype Status = Committed | RolledBack | RollbackFailed

  datatype Services = Up | Down | Unsure

  /** Who runs a rollback: recovery for the marker of an update, the installer of one, or
      an administrator. */
  datatype Cause = Recovery(id: nat) | Installer(id: nat) | ByHand

  /** The call a rollback makes next, with the results it still needs. */
  datatype Stage =
    | ReadingManifest
    | Stopping
    | Switching
    | RestoringDatabase
    | RestoringFiles(database: bool)
    | Reloading
    | Starting(reloaded: bool)
    | AwaitingHealth
    | Recording(status: Status)
    | Clearing(ok: bool)
    | Over(ok: bool)

  /** Who holds update.lock, and where it is. */
  datatype Process =
    | Nobody
    | Installing(id: nat)
    | Looking                                              // recovery, about to read the marker
    | Rewriting(found: Marker)                             // recovery, about to write "recovering"
    | Reporting(recorded: bool)                            // recovery of an interrupted recovery
    | Rolling(cause: Cause, snapshot: nat, at: Stage)

  /** What has been done, in order. */
  datatype Event =
    | Begun(cause: Cause)
    | ManifestRead(ok: bool)
    | Stopped(ok: bool)
    | Switched(ok: bool)
    | DatabaseRestored(ok: bool)
    | FilesRestored(ok: bool)
    | Reloaded(ok: bool)
    | Started(ok: bool)
    | Healthy(ok: bool)
    | Recorded(status: Status, ok: bool)
    | Cleared(ok: bool)
    | Died

  /** current, database and files are those of a snapshot's version, or of none known;
      next is the first id no update has had, and log is history. */
  datatype State = State(
    marker: Option<Marker>, last: Option<Status>, services: Services,
    current: Option<nat>, database: Option<nat>, files: Option<nat>,
    process: Process, next: nat, log: seq<Event>)

  datatype Step =
    | Disturb(services: Services)                          // a boot, an administrator
    | Install                                              // an installer takes the lock
    | Mark(snapshot: nat)
    | Change(services: Services, current: Option<nat>, database: Option<nat>, files: Option<nat>)
    | Commit(cleared: bool)
    | Leave
    | RollBack(snapshot: nat)                              // by the installer, or by hand
    | Recover                                              // recovery takes the lock
    | ReadMarker(readable: bool)
    | Rewrite(ok: bool)
    | Report(ok: bool)
    | Call(ok: bool, left: Option<nat>)                    // of a rollback; left is what a failed one leaves
    | Return
    | Die(services: Services, whole: bool)                 // the process at work, or all of them

  // ── The steps ───────────────────────────────────────────────────────────────

  /** A step can be taken now: whose turn it is, and nothing about what was done before. */
  predicate Enabled(s: State, step: Step) {
    match step
    case Disturb(_) => s.process.Nobody?
    case Install => s.process.Nobody?
    case Mark(_) => s.process.Installing?
    case Change(_, _, _, _) => s.process.Installing?
    case Commit(_) => s.process.Installing?
    case Leave => s.process.Installing?
    case RollBack(_) => s.process.Installing? || s.process.Nobody?
    case Recover => s.process.Nobody?
    case ReadMarker(_) => s.process.Looking?
    case Rewrite(_) => s.process.Rewriting?
    case Report(_) => s.process.Reporting?
    case Call(_, _) => s.process.Rolling? && !s.process.at.Over?
    case Return => s.process.Rolling? && s.process.at.Over?
    case Die(_, _) => !s.process.Nobody?
  }

  /** Who goes on when a rollback ends or dies. */
  function After(cause: Cause): Process { if cause.Installer? then Installing(cause.id) else Nobody }

  function Next(s: State, step: Step): State
    requires Enabled(s, step)
  {
    match step
    case Disturb(services) => s.(services := services)
    case Install => s.(process := Installing(s.next), next := s.next + 1)
    case Mark(snapshot) => s.(marker := Some(Marker(s.process.id, snapshot, false)))
    case Change(services, current, database, files) =>
      s.(services := services, current := current, database := database, files := files)
    case Commit(cleared) =>
      s.(last := Some(Committed), marker := if cleared then None else s.marker,
         log := s.log + [Recorded(Committed, true), Cleared(cleared)])
    case Leave => s.(process := Nobody)
    case RollBack(snapshot) => Begin(s, if s.process.Nobody? then ByHand else Installer(s.process.id), snapshot)
    case Recover => s.(process := Looking)
    case ReadMarker(readable) =>
      if !readable || s.marker == None then s.(process := Nobody)
      else if s.marker.value.recovering then s.(process := Reporting(false))
      else s.(process := Rewriting(s.marker.value))
    case Rewrite(ok) =>
      if !ok then s.(process := Nobody)
      else Begin(s.(marker := Some(s.process.found.(recovering := true))), Recovery(s.process.found.id),
        s.process.found.snapshot)
    case Report(ok) =>
      if s.process.recorded then Clear(s, ok).(process := Nobody)
      else Record(s, RollbackFailed, ok).(process := Reporting(true))
    case Call(ok, left) => Called(s, ok, left)
    case Return => s.(process := After(s.process.cause))
    case Die(services, whole) =>
      s.(services := services, log := s.log + [Died],
         process := if s.process.Rolling? && !whole then After(s.process.cause) else Nobody)
  }

  function Begin(s: State, cause: Cause, snapshot: nat): State {
    s.(process := Rolling(cause, snapshot, ReadingManifest), log := s.log + [Begun(cause)])
  }

  /** writeLast: an atomic write that fails leaves the file as it was. */
  function Record(s: State, status: Status, ok: bool): State {
    s.(last := if ok then Some(status) else s.last, log := s.log + [Recorded(status, ok)])
  }

  /** clearInProgress. */
  function Clear(s: State, ok: bool): State {
    s.(marker := if ok then None else s.marker, log := s.log + [Cleared(ok)])
  }

  /** What one call of a rollback leaves in the history. */
  function EventOf(at: Stage, ok: bool): Event
    requires !at.Over?
  {
    match at
    case ReadingManifest => ManifestRead(ok)
    case Stopping => Stopped(ok)
    case Switching => Switched(ok)
    case RestoringDatabase => DatabaseRestored(ok)
    case RestoringFiles(_) => FilesRestored(ok)
    case Reloading => Reloaded(ok)
    case Starting(_) => Started(ok)
    case AwaitingHealth => Healthy(ok)
    case Recording(status) => Recorded(status, ok)
    case Clearing(_) => Cleared(ok)
  }

  /** Where it goes on: both restores are tried, and so are reload and start. */
  function StageAfter(at: Stage, ok: bool): Stage
    requires !at.Over?
  {
    match at
    case ReadingManifest => if ok then Stopping else Recording(RollbackFailed)
    case Stopping => if ok then Switching else Recording(RollbackFailed)
    case Switching => if ok then RestoringDatabase else Recording(RollbackFailed)
    case RestoringDatabase => RestoringFiles(ok)
    case RestoringFiles(database) => if database && ok then Reloading else Recording(RollbackFailed)
    case Reloading => Starting(ok)
    case Starting(reloaded) => if reloaded && ok then AwaitingHealth else Recording(RollbackFailed)
    case AwaitingHealth => Recording(if ok then RolledBack else RollbackFailed)
    case Recording(status) => Clearing(status.RolledBack? && ok)
    case Clearing(back) => Over(back)
  }

  /** What it does; a call that fails leaves something else, or what there was. */
  function Called(s: State, ok: bool, left: Option<nat>): State
    requires s.process.Rolling? && !s.process.at.Over?
  {
    var at := s.process.at;
    var s' := s.(process := s.process.(at := StageAfter(at, ok)), log := s.log + [EventOf(at, ok)]);
    var there := if ok then Some(s.process.snapshot) else left;
    match at
    case Stopping => s'.(services := if ok then Down else Unsure)
    case Switching => s'.(current := there)
    case RestoringDatabase => s'.(database := there)
    case RestoringFiles(_) => s'.(files := there)
    case Starting(_) => s'.(services := if ok then Up else Unsure)
    case Recording(status) => s'.(last := if ok then Some(status) else s.last)
    case Clearing(_) => s'.(marker := if ok then None else s.marker)
    case _ => s'
  }

  // ── One rollback for each marker ────────────────────────────────────────────

  predicate Recovered(s: State, id: nat) { Begun(Recovery(id)) in s.log }

  /** The update whose installer is still at work. */
  function AtWork(p: Process): Option<nat> {
    if p.Installing? then Some(p.id)
    else if p.Rolling? && p.cause.Installer? then Some(p.cause.id)
    else None
  }

  /** No update at work, and no marker short of "recovering", has been recovered. */
  ghost predicate Unused(s: State) {
    && (forall id: nat :: Recovered(s, id) ==> id < s.next)
    && (AtWork(s.process).Some? ==> AtWork(s.process).value < s.next && !Recovered(s, AtWork(s.process).value))
    && (s.marker.Some? ==>
      s.marker.value.id < s.next && (s.marker.value.recovering || !Recovered(s, s.marker.value.id)))
    && (s.process.Rewriting? ==> s.marker == Some(s.process.found) && !s.process.found.recovering)
  }

  ghost predicate Once(log: seq<Event>) {
    forall i, j :: 0 <= i < j < |log| && log[i].Begun? && log[i].cause.Recovery? ==> log[i] != log[j]
  }

  /** The history grows by at most one rollback of recovery, the one Rewrite begins. */
  lemma {:induction false} LogGrows(s: State, step: Step)
    requires Enabled(s, step)
    ensures s.log <= Next(s, step).log
    ensures forall id :: Recovered(Next(s, step), id) <==>
      Recovered(s, id) || (step == Rewrite(true) && s.process.found.id == id)
  {
    var s' := Next(s, step);
    forall e ensures e in s'.log <==> e in s.log || e in s'.log[|s.log|..] {
      assert s'.log == s.log + s'.log[|s.log|..];
    }
  }

  lemma {:induction false} StepKeepsUnused(s: State, step: Step)
    requires Unused(s) && Enabled(s, step)
    ensures Unused(Next(s, step))
  {
    LogGrows(s, step);
    hide Recovered;
  }

  lemma {:induction false} StepKeepsOnce(s: State, step: Step)
    requires Unused(s) && Once(s.log) && Enabled(s, step)
    ensures Once(Next(s, step).log)
  {
    var log, log' := s.log, Next(s, step).log;
    forall i, j | 0 <= i < j < |log'| && log'[i].Begun? && log'[i].cause.Recovery? ensures log'[i] != log'[j] {
      if j >= |log| && log'[j].Begun? && log'[j].cause.Recovery? {
        assert step == Rewrite(true) && i < |log| && log[i] == log'[i];
      } else if j < |log| {
        assert log[i] == log'[i] && log[j] == log'[j];
      }
    }
  }

  // ── What a rollback has behind it ───────────────────────────────────────────

  /** The events of a rollback that is at some stage without a failure so far. */
  function Trail(cause: Cause, at: Stage): seq<Event> {
    match at
    case ReadingManifest => [Begun(cause)]
    case Stopping => [Begun(cause), ManifestRead(true)]
    case Switching => [Begun(cause), ManifestRead(true), Stopped(true)]
    case RestoringDatabase => [Begun(cause), ManifestRead(true), Stopped(true), Switched(true)]
    case RestoringFiles(db) => [Begun(cause), ManifestRead(true), Stopped(true), Switched(true), DatabaseRestored(db)]
    case Reloading => Back(cause)
    case Starting(reloaded) => Back(cause) + [Reloaded(reloaded)]
    case AwaitingHealth => Back(cause) + [Reloaded(true), Started(true)]
    case Recording(status) => if status.RolledBack? then Back(cause) + [Reloaded(true), Started(true), Healthy(true)]
      else []
    case _ => []
  }

  /** Stop, switch and both restores, all of them done. */
  function Back(cause: Cause): seq<Event> {
    [Begun(cause), ManifestRead(true), Stopped(true), Switched(true), DatabaseRestored(true), FilesRestored(true)]
  }

  predicate EndsWith(log: seq<Event>, t: seq<Event>) { |t| <= |log| && log[|log| - |t|..] == t }

  ghost predicate OnTrail(s: State) {
    s.process.Rolling? ==> EndsWith(s.log, Trail(s.process.cause, s.process.at))
  }

  lemma {:induction false} EndsWithMore(log: seq<Event>, t: seq<Event>, e: Event)
    requires EndsWith(log, t)
    ensures EndsWith(log + [e], t + [e]) && EndsWith(log + [e], [])
  {}

  lemma {:induction false} EndsWithLast(log: seq<Event>, e: Event)
    ensures EndsWith(log + [e], [e])
  {}

  lemma {:induction false} TrailGrows(cause: Cause, at: Stage, ok: bool)
    requires !at.Over?
    ensures var t := Trail(cause, StageAfter(at, ok)); t == Trail(cause, at) + [EventOf(at, ok)] || t == []
  {}

  lemma {:induction false} StepKeepsTrail(s: State, step: Step)
    requires OnTrail(s) && Enabled(s, step)
    ensures OnTrail(Next(s, step))
  {
    hide EndsWith, EventOf, StageAfter;
    var s' := Next(s, step);
    if step.Call? {
      hide Trail;
      TrailGrows(s.process.cause, s.process.at, step.ok);
      EndsWithMore(s.log, Trail(s.process.cause, s.process.at), EventOf(s.process.at, step.ok));
    } else if s'.process.Rolling? {
      EndsWithLast(s.log, Begun(s'.process.cause));
    }
  }

  /** When services are started all of a rollback up to the reload was done; when
      "rolled-back" is recorded, all of it. */
  ghost predicate Deserved(log: seq<Event>, k: nat)
    requires k < |log|
  {
    && (log[k].Started? ==> exists cause, reloaded :: EndsWith(log[..k], Trail(cause, Starting(reloaded))))
    && (log[k].Recorded? && log[k].status.RolledBack? ==>
      exists cause :: EndsWith(log[..k], Trail(cause, Recording(RolledBack))))
  }

  ghost predicate AllDeserved(log: seq<Event>) { forall k :: 0 <= k < |log| ==> Deserved(log, k) }

  lemma {:induction false} MoreDeserved(log: seq<Event>, e: Event)
    requires AllDeserved(log) && Deserved(log + [e], |log|)
    ensures AllDeserved(log + [e])
  {
    forall k | 0 <= k < |log| ensures Deserved(log + [e], k) {
      assert Deserved(log, k) && (log + [e])[..k] == log[..k];
    }
  }

  lemma {:induction false} CallIsDeserved(s: State, ok: bool)
    requires OnTrail(s) && s.process.Rolling? && !s.process.at.Over?
    ensures Deserved(s.log + [EventOf(s.process.at, ok)], |s.log|)
  {
    hide Trail, EndsWith;
    assert (s.log + [EventOf(s.process.at, ok)])[..|s.log|] == s.log;
  }

  lemma {:induction false} StepKeepsDeserved(s: State, step: Step)
    requires OnTrail(s) && AllDeserved(s.log) && Enabled(s, step)
    ensures AllDeserved(Next(s, step).log)
  {
    hide AllDeserved, EventOf, StageAfter, Trail, EndsWith;
    if step.Call? {
      CallIsDeserved(s, step.ok);
      MoreDeserved(s.log, EventOf(s.process.at, step.ok));
    } else if step.Commit? {
      MoreDeserved(s.log, Recorded(Committed, true));
      MoreDeserved(s.log + [Recorded(Committed, true)], Cleared(step.cleared));
      assert s.log + [Recorded(Committed, true)] + [Cleared(step.cleared)] == Next(s, step).log;
    } else if Next(s, step).log != s.log {
      MoreDeserved(s.log, Next(s, step).log[|s.log|]);
    }
  }

  // ── What a rollback leaves ──────────────────────────────────────────────────

  /** Between stop and start the services are down; what was switched and restored is the
      snapshot's; a rollback that failed at the switch or a restore leaves them down. */
  ghost predicate InPlace(s: State) {
    s.process.Rolling? ==>
      var at, there := s.process.at, Some(s.process.snapshot);
      && (at.Switching? || at.RestoringDatabase? || at.RestoringFiles? || at.Reloading? || at.Starting? ==>
        s.services == Down)
      && (at.AwaitingHealth? || at == Recording(RolledBack) ==> s.services == Up)
      && (PastSwitch(at) ==> s.current == there)
      && (at == RestoringFiles(true) || PastRestore(at) ==> s.database == there)
      && (PastRestore(at) ==> s.files == there)
      && (at == Recording(RollbackFailed) && s.log != [] && GaveUpStopped(s.log[|s.log| - 1]) ==> s.services == Down)
  }

  predicate PastSwitch(at: Stage) { at.RestoringDatabase? || at.RestoringFiles? || PastRestore(at) }

  predicate PastRestore(at: Stage) {
    at.Reloading? || at.Starting? || at.AwaitingHealth? || at == Recording(RolledBack)
  }

  predicate GaveUpStopped(e: Event) { e.Switched? || e.FilesRestored? }

  lemma {:induction false} StepKeepsInPlace(s: State, step: Step)
    requires InPlace(s) && Enabled(s, step)
    ensures InPlace(Next(s, step))
  {
    if step.Call? {
      CallKeepsInPlace(s, step.ok, step.left);
    }
  }

  lemma {:induction false} CallKeepsInPlace(s: State, ok: bool, left: Option<nat>)
    requires InPlace(s) && s.process.Rolling? && !s.process.at.Over?
    ensures InPlace(Called(s, ok, left))
  {
    assert Called(s, ok, left).log[|s.log|] == EventOf(s.process.at, ok);
  }

  /** A rollback that is over has just removed the marker, or tried to. */
  ghost predicate MarkerGone(s: State) {
    s.process.Rolling? && s.process.at.Over? ==> Removed(s)
  }

  ghost predicate Removed(s: State) {
    s.log != [] && s.log[|s.log| - 1].Cleared? && (s.marker == None || s.log[|s.log| - 1] == Cleared(false))
  }

  lemma {:induction false} StepKeepsMarkerGone(s: State, step: Step)
    requires MarkerGone(s) && Enabled(s, step)
    ensures MarkerGone(Next(s, step))
  {
    if step.Call? && s.process.at.Clearing? {
      assert Next(s, step).log[|s.log|] == Cleared(step.ok);
    }
  }

  // ── Every run ───────────────────────────────────────────────────────────────

  ghost predicate Safe(s: State) {
    Unused(s) && Once(s.log) && OnTrail(s) && AllDeserved(s.log) && InPlace(s) && MarkerGone(s)
  }

  lemma {:induction false} StepKeepsSafe(s: State, step: Step)
    requires Safe(s) && Enabled(s, step)
    ensures Safe(Next(s, step))
  {
    hide Unused, Once, OnTrail, AllDeserved, InPlace, MarkerGone, Next, Enabled;
    StepKeepsUnused(s, step);
    StepKeepsOnce(s, step);
    StepKeepsTrail(s, step);
    StepKeepsDeserved(s, step);
    StepKeepsInPlace(s, step);
    StepKeepsMarkerGone(s, step);
  }

  /** Nobody is at work, and the marker, if there is one, is of an earlier update. */
  predicate Initial(s: State) {
    s.process.Nobody? && s.log == [] && (s.marker.Some? ==> s.marker.value.id < s.next)
  }

  /** The states of a run, steps and crashes in any order. */
  ghost predicate Run(states: seq<State>, steps: seq<Step>) {
    && |states| == |steps| + 1 && Initial(states[0])
    && forall i :: 0 <= i < |steps| ==> Enabled(states[i], steps[i]) && states[i + 1] == Next(states[i], steps[i])
  }

  lemma {:induction false} EveryRunIsSafe(states: seq<State>, steps: seq<Step>, k: nat)
    requires Run(states, steps) && k <= |steps|
    ensures Safe(states[k])
  {
    hide Next, Enabled;
    if k > 0 {
      EveryRunIsSafe(states, steps, k - 1);
      StepKeepsSafe(states[k - 1], steps[k - 1]);
    }
  }

  /** Over every run with crashes the marker of an update leads recovery into one rollback
      at most. */
  lemma {:induction false} OneRollbackPerMarker(states: seq<State>, steps: seq<Step>, id: nat, i: nat, j: nat)
    requires Run(states, steps)
    requires var log := states[|steps|].log; i < |log| && j < |log| && log[i] == log[j] == Begun(Recovery(id))
    ensures i == j
  {
    EveryRunIsSafe(states, steps, |steps|);
  }

  /** Services are started only when, in this rollback, they were stopped, the release was
      switched and both restores were done; and at that time they are down, and release,
      database and files are all the snapshot's. */
  lemma {:induction false} StartsOnlyWhatIsBack(states: seq<State>, steps: seq<Step>, k: nat)
    requires Run(states, steps) && k < |steps|
    requires steps[k].Call? && states[k].process.at.Starting?
    ensures var s := states[k];
      && s.services == Down && s.current == s.database == s.files == Some(s.process.snapshot)
      && exists reloaded :: EndsWith(s.log, BackAndReloaded(s.process.cause, reloaded))
  {
    EveryRunIsSafe(states, steps, k);
    var reloaded := states[k].process.at.reloaded;
    assert Trail(states[k].process.cause, Starting(reloaded)) == BackAndReloaded(states[k].process.cause, reloaded);
  }

  function BackAndReloaded(cause: Cause, ok: bool): seq<Event> {
    [Begun(cause), ManifestRead(true), Stopped(true), Switched(true), DatabaseRestored(true), FilesRestored(true),
     Reloaded(ok)]
  }

  /** "rolled-back" is recorded, or tried to be, only after all nine calls of the rollback
      succeeded, one after the other. */
  lemma {:induction false} RolledBackIsDeserved(states: seq<State>, steps: seq<Step>, k: nat)
    requires Run(states, steps) && k < |states[|steps|].log|
    requires var e := states[|steps|].log[k]; e.Recorded? && e.status.RolledBack?
    ensures exists cause :: EndsWith(states[|steps|].log[..k], AllDone(cause))
  {
    hide Once, Unused, OnTrail, InPlace, MarkerGone, EndsWith, Trail, AllDone;
    EveryRunIsSafe(states, steps, |steps|);
    var log := states[|steps|].log;
    assert Deserved(log, k);
    var cause :| EndsWith(log[..k], Trail(cause, Recording(RolledBack)));
    TrailOfAll(cause);
  }

  lemma {:induction false} TrailOfAll(cause: Cause)
    ensures Trail(cause, Recording(RolledBack)) == AllDone(cause)
  {}

  function AllDone(cause: Cause): seq<Event> {
    [Begun(cause), ManifestRead(true), Stopped(true), Switched(true), DatabaseRestored(true), FilesRestored(true),
     Reloaded(true), Started(true), Healthy(true)]
  }

  /** When last.json comes to say "rolled-back", the services are up on the snapshot's
      release, database and files. */
  lemma {:induction false} RolledBackIsTrue(states: seq<State>, steps: seq<Step>, k: nat)
    requires Run(states, steps) && k < |steps|
    requires states[k].last != Some(RolledBack) && states[k + 1].last == Some(RolledBack)
    ensures var s := states[k];
      && s.process.Rolling? && s.services == Up && s.current == s.database == s.files == Some(s.process.snapshot)
      && EndsWith(s.log, AllDone(s.process.cause))
  {
    EveryRunIsSafe(states, steps, k);
    var s := states[k];
    TrailOfAll(s.process.cause);
  }

  /** A recovery that comes to its end, of whatever marker: none is left, unless its removal
      failed just now. */
  lemma {:induction false} FinishedRecoveryLeavesNoMarker(states: seq<State>, steps: seq<Step>, k: nat)
    requires Run(states, steps) && k < |steps|
    requires var p, step := states[k].process, steps[k];
      (p.Rolling? && p.cause.Recovery? && step.Return?) || (p == Reporting(true) && step.Report?)
    ensures states[k + 1].process == Nobody
    ensures Removed(states[k + 1])
  {
    EveryRunIsSafe(states, steps, k);
    if steps[k].Report? {
      assert states[k + 1].log[|states[k].log|] == Cleared(steps[k].ok);
    }
  }

  /** A rollback that gives up at the switch or at a restore leaves the services stopped. */
  lemma {:induction false} GivesUpStopped(states: seq<State>, steps: seq<Step>, k: nat)
    requires Run(states, steps) && k <= |steps|
    requires var s := states[k];
      s.process.Rolling? && s.process.at == Recording(RollbackFailed) && s.log != []
        && (s.log[|s.log| - 1].Switched? || s.log[|s.log| - 1].FilesRestored?)
    ensures states[k].services == Down
  {
    EveryRunIsSafe(states, steps, k);
  }

  /** s' is what one more call of the rollback at hand makes of s. */
  ghost predicate Follows(s: State, ok: bool, s': State)
    requires s.process.Rolling? && !s.process.at.Over?
  {
    exists left: Option<nat> :: s' == Called(s, ok, left)
  }

  lemma {:induction false} CallFollows(s: State, ok: bool, left: Option<nat>)
    requires s.process.Rolling? && !s.process.at.Over?
    ensures Follows(s, ok, Called(s, ok, left))
  {}

  // ── What a recovery can reach ───────────────────────────────────────────────

  /** The steps can be taken one after the other from s, and lead to t. */
  ghost predicate Leads(s: State, steps: seq<Step>, t: State)
    decreases |steps|
  {
    if steps == [] then s == t else Enabled(s, steps[0]) && Leads(Next(s, steps[0]), steps[1..], t)
  }

  lemma {:induction false} LeadsOn(s: State, step: Step, steps: seq<Step>, t: State)
    requires Enabled(s, step) && Leads(Next(s, step), steps, t)
    ensures Leads(s, [step] + steps, t)
  {
    assert ([step] + steps)[1..] == steps;
  }

  /** The ten calls of a rollback, none of which fails. */
  ghost function Works(n: nat): seq<Step> { seq(n, _ => Call(true, None)) }

  lemma {:induction false} CallWorks(s: State, n: nat, t: State)
    requires s.process.Rolling? && !s.process.at.Over? && Leads(Called(s, true, None), Works(n) + [Return], t)
    ensures Leads(s, Works(n + 1) + [Return], t)
  {
    assert Works(n + 1) + [Return] == [Call(true, None)] + (Works(n) + [Return]);
    assert Next(s, Call(true, None)) == Called(s, true, None);
    hide Leads, Called;
    LeadsOn(s, Call(true, None), Works(n) + [Return], t);
  }

  /** All is as in the snapshot, the services are up, it is recorded, and no marker is left. */
  ghost predicate AllBack(t: State, snapshot: nat) {
    && t.services == Up && t.current == t.database == t.files == Some(snapshot)
    && t.last == Some(RolledBack) && t.marker == None
  }

  /** After reading, stopping, switching and both restores. */
  ghost function Restored(s: State): State
    requires s.process.Rolling?
  {
    var back := Some(s.process.snapshot);
    s.(process := s.process.(at := Reloading), services := Down, current := back, database := back, files := back,
       log := s.log + Back(s.process.cause)[1..])
  }

  lemma {:induction false} RestoresWork(s: State, t: State)
    requires s.process.Rolling? && s.process.at == ReadingManifest
    requires Leads(Restored(s), Works(5) + [Return], t)
    ensures Leads(s, Works(10) + [Return], t)
  {
    var s1 := Called(s, true, None);
    var s2 := Called(s1, true, None);
    var s3 := Called(s2, true, None);
    var s4 := Called(s3, true, None);
    assert Called(s4, true, None).log == s.log + Back(s.process.cause)[1..];
    assert Called(s4, true, None) == Restored(s);
    hide Leads, Restored;
    CallWorks(s4, 5, t);
    CallWorks(s3, 6, t);
    CallWorks(s2, 7, t);
    CallWorks(s1, 8, t);
    CallWorks(s, 9, t);
  }

  /** After the calls that follow, and the return to whoever asked for the rollback. */
  ghost function Ended(s: State): State
    requires s.process.Rolling?
  {
    s.(process := After(s.process.cause), services := Up, last := Some(RolledBack), marker := None,
       log := s.log + [Reloaded(true), Started(true), Healthy(true), Recorded(RolledBack, true), Cleared(true)])
  }

  lemma {:induction false} LastCalls(s: State) returns (s3: State)
    requires s.process.Rolling? && s.process.at == Reloading
    ensures s3 == s.(process := s.process.(at := Recording(RolledBack)), services := Up,
      log := s.log + [Reloaded(true), Started(true), Healthy(true)])
    ensures forall t :: Leads(s3, Works(2) + [Return], t) ==> Leads(s, Works(5) + [Return], t)
  {
    var s1 := Called(s, true, None);
    var s2 := Called(s1, true, None);
    s3 := Called(s2, true, None);
    assert s3.log == s.log + [Reloaded(true), Started(true), Healthy(true)];
    hide Leads;
    forall t | Leads(s3, Works(2) + [Return], t) ensures Leads(s, Works(5) + [Return], t) {
      CallWorks(s2, 2, t);
      CallWorks(s1, 3, t);
      CallWorks(s, 4, t);
    }
  }

  lemma {:induction false} StartsWork(s: State)
    requires s.process.Rolling? && s.process.at == Reloading
    ensures Leads(s, Works(5) + [Return], Ended(s))
  {
    var s3 := LastCalls(s);
    var s4 := Called(s3, true, None);
    var s5 := Called(s4, true, None);
    assert s5.log == s.log + [Reloaded(true), Started(true), Healthy(true), Recorded(RolledBack, true), Cleared(true)];
    var t := Next(s5, Return);
    assert Ended(s) == t;
    assert Works(0) + [Return] == [Return] && [Return][1..] == [];
    assert Leads(s5, Works(0) + [Return], t);
    hide Leads, Ended;
    CallWorks(s4, 0, t);
    CallWorks(s3, 1, t);
  }

  lemma {:induction false} CallsWork(s: State) returns (t: State)
    requires s.process.Rolling? && s.process.at == ReadingManifest
    ensures Leads(s, Works(10) + [Return], t) && AllBack(t, s.process.snapshot)
    ensures t.process == if s.process.cause.Installer? then Installing(s.process.cause.id) else Nobody
  {
    t := Ended(Restored(s));
    hide Leads;
    StartsWork(Restored(s));
    RestoresWork(s, t);
  }

  /** A rollback by hand, or by the installer that goes on after it, can bring all back. */
  lemma {:induction false} RollbackWorks(s: State, snapshot: nat) returns (t: State)
    requires s.process.Nobody? || s.process.Installing?
    ensures Leads(s, [RollBack(snapshot)] + (Works(10) + [Return]), t)
    ensures AllBack(t, snapshot) && t.process == s.process
  {
    t := CallsWork(Next(s, RollBack(snapshot)));
    hide Leads;
    LeadsOn(s, RollBack(snapshot), Works(10) + [Return], t);
  }

  /** Whoever dies with a marker short of "recovering", all of it: a recovery that reads and
      rewrites the marker, and whose calls work, brings all of the snapshot back. */
  lemma {:induction false} DeadIsRecovered(s: State, services: Services) returns (t: State)
    requires !s.process.Nobody? && s.marker.Some? && !s.marker.value.recovering
    ensures Leads(s, [Die(services, true), Recover, ReadMarker(true), Rewrite(true)] + (Works(10) + [Return]), t)
    ensures AllBack(t, s.marker.value.snapshot) && t.process == Nobody
  {
    var s1 := Next(s, Die(services, true));
    var s2 := Next(s1, Recover);
    var s3 := Next(s2, ReadMarker(true));
    var s4 := Next(s3, Rewrite(true));
    t := CallsWork(s4);
    hide Leads;
    var calls := Works(10) + [Return];
    LeadsOn(s3, Rewrite(true), calls, t);
    LeadsOn(s2, ReadMarker(true), [Rewrite(true)] + calls, t);
    LeadsOn(s1, Recover, [ReadMarker(true)] + ([Rewrite(true)] + calls), t);
    LeadsOn(s, Die(services, true), [Recover] + ([ReadMarker(true)] + ([Rewrite(true)] + calls)), t);
    assert [Die(services, true)] + ([Recover] + ([ReadMarker(true)] + ([Rewrite(true)] + calls)))
        == [Die(services, true), Recover, ReadMarker(true), Rewrite(true)] + calls;
  }

  /** An installer that marked its update, changed anything and died. */
  lemma {:induction false} CrashIsRecovered(s: State, snapshot: nat, change: Step, services: Services)
      returns (t: State)
    requires s.process.Installing? && change.Change?
    ensures Leads(s, [Mark(snapshot), change, Die(services, true), Recover, ReadMarker(true), Rewrite(true)]
      + (Works(10) + [Return]), t)
    ensures AllBack(t, snapshot) && t.process == Nobody
  {
    var s1 := Next(s, Mark(snapshot));
    var s2 := Next(s1, change);
    t := DeadIsRecovered(s2, services);
    hide Leads;
    var rest := [Die(services, true), Recover, ReadMarker(true), Rewrite(true)] + (Works(10) + [Return]);
    LeadsOn(s1, change, rest, t);
    LeadsOn(s, Mark(snapshot), [change] + rest, t);
    assert [Mark(snapshot)] + ([change] + rest) == [Mark(snapshot), change, Die(services, true), Recover,
        ReadMarker(true), Rewrite(true)] + (Works(10) + [Return]);
  }

  /** A recovery that died is not tried again: the next one says that it failed, and clears
      the marker. */
  lemma {:induction false} InterruptedIsReported(s: State) returns (t: State)
    requires s.process.Nobody? && s.marker.Some? && s.marker.value.recovering
    ensures Leads(s, [Recover, ReadMarker(true), Report(true), Report(true)], t)
    ensures t == s.(last := Some(RollbackFailed), marker := None,
      log := s.log + [Recorded(RollbackFailed, true), Cleared(true)])
  {
    var s1 := Next(s, Recover);
    var s2 := Next(s1, ReadMarker(true));
    var s3 := Next(s2, Report(true));
    t := Next(s3, Report(true));
    assert Leads(t, [], t);
    LeadsOn(s3, Report(true), [], t);
    assert [Report(true)] + [] == [Report(true)];
    hide Leads;
    LeadsOn(s2, Report(true), [Report(true)], t);
    LeadsOn(s1, ReadMarker(true), [Report(true)] + [Report(true)], t);
    LeadsOn(s, Recover, [ReadMarker(true)] + ([Report(true)] + [Report(true)]), t);
    assert [Recover] + ([ReadMarker(true)] + ([Report(true)] + [Report(true)]))
        == [Recover, ReadMarker(true), Report(true), Report(true)];
    assert s.log + [Recorded(RollbackFailed, true)] + [Cleared(true)]
        == s.log + [Recorded(RollbackFailed, true), Cleared(true)];
  }

  /** An update that is installed and committed leaves no marker, and so nothing to recover. */
  lemma {:induction false} CommitEndsIt(s: State, snapshot: nat, change: Step) returns (t: State)
    requires s.process.Nobody? && change.Change?
    ensures Leads(s, [Install, Mark(snapshot), change, Commit(true), Leave], t)
    ensures t.process == Nobody && t.marker == None && t.last == Some(Committed)
      && t.services == change.services && t.current == change.current
      && t.database == change.database && t.files == change.files
  {
    var s1 := Next(s, Install);
    var s2 := Next(s1, Mark(snapshot));
    var s3 := Next(s2, change);
    var s4 := Next(s3, Commit(true));
    t := Next(s4, Leave);
    assert Leads(t, [], t);
    LeadsOn(s4, Leave, [], t);
    assert [Leave] + [] == [Leave];
    hide Leads;
    LeadsOn(s3, Commit(true), [Leave], t);
    LeadsOn(s2, change, [Commit(true)] + [Leave], t);
    LeadsOn(s1, Mark(snapshot), [change] + ([Commit(true)] + [Leave]), t);
    LeadsOn(s, Install, [Mark(snapshot)] + ([change] + ([Commit(true)] + [Leave])), t);
    assert [Install] + ([Mark(snapshot)] + ([change] + ([Commit(true)] + [Leave])))
        == [Install, Mark(snapshot), change, Commit(true), Leave];
  }

  // ── The worker ──────────────────────────────────────────────────────────────

  class UpdateHost {
    var state: State
    ghost var states: seq<State>
    ghost var steps: seq<Step>

    constructor (start: State)
      requires Initial(start)
      ensures Valid() && state == start && steps == []
    {
      state, states, steps := start, [start], [];
    }

    /** What is done here is a run. */
    ghost predicate Valid()
      reads this
    {
      Run(states, steps) && state == states[|steps|]
    }

    method Take(step: Step)
      requires Valid() && Enabled(state, step)
      modifies this
      ensures Valid() && state == Next(old(state), step) && steps == old(steps) + [step]
    {
      hide Enabled, Next;
      state := Next(state, step);
      states, steps := states + [state], steps + [step];
    }

    /** One call of the rollback at hand. */
    method Do() returns (ok: bool)
      requires Valid() && state.process.Rolling? && !state.process.at.Over?
      modifies this
      ensures Valid() && Follows(old(state), ok, state)
    {
      hide Run;
      ok := *;
      var left: Option<nat> := *;
      Take(Call(ok, left));
      assert state == Called(old(state), ok, left);
      CallFollows(old(state), ok, left);
    }

    /** How a rollback that failed ends. */
    method Failed()
      requires Valid() && state.process.Rolling? && state.process.at == Recording(RollbackFailed)
      modifies this
      ensures Valid() && state.process == old(state).process.(at := Over(false))
      ensures exists written, cleared ::
        state.log == old(state).log + [Recorded(RollbackFailed, written), Cleared(cleared)]
      ensures Removed(state) && state.services == old(state).services
      ensures state.last == old(state).last || state.last == Some(RollbackFailed)
    {
      hide Run;
      var written := Do();
      ghost var log := state.log;
      var cleared := Do();
      assert state.log == old(state).log + [Recorded(RollbackFailed, written), Cleared(cleared)];
    }

    /** How one that succeeded ends; it fails still when that cannot be recorded. */
    method Succeeded() returns (ok: bool)
      requires Valid() && state.process.Rolling? && state.process.at == Recording(RolledBack)
      modifies this
      ensures Valid() && state.process == old(state).process.(at := Over(ok)) && Removed(state)
      ensures exists cleared :: state.log == old(state).log + [Recorded(RolledBack, ok), Cleared(cleared)]
      ensures state.last == if ok then Some(RolledBack) else old(state).last
    {
      hide Run;
      ok := Do();
      var cleared := Do();
      assert state.log == old(state).log + [Recorded(RolledBack, ok), Cleared(cleared)];
    }

    /** The first half of a rollback, from its stop: switch and both restores. */
    method GoBack() returns (ok: bool)
      requires Valid() && state.process.Rolling? && state.process.at == Stopping
      modifies this
      ensures Valid() && state.process == old(state).process.(at := if ok then Reloading else Recording(RollbackFailed))
      ensures ok ==>
        state.log == old(state).log + [Stopped(true), Switched(true), DatabaseRestored(true), FilesRestored(true)]
      ensures old(state).log < state.log
      ensures !ok && state.log[|state.log| - 1] != Stopped(false) ==> state.services == Down
      ensures state.last == old(state).last && state.marker == old(state).marker
    {
      hide Run;
      ok := Do();
      if !ok { return; }
      ok := Do();
      if !ok { return; }
      var database := Do();
      ok := Do();
      return database && ok;
    }

    /** The second half: reload, start, and health. */
    method ComeUp() returns (ok: bool)
      requires Valid() && state.process.Rolling? && state.process.at == Reloading
      modifies this
      ensures Valid() && state.process
        == old(state).process.(at := Recording(if ok then RolledBack else RollbackFailed))
      ensures ok ==> state.log == old(state).log + [Reloaded(true), Started(true), Healthy(true)]
      ensures old(state).log < state.log && state.last == old(state).last && state.marker == old(state).marker
    {
      hide Run;
      var reloaded := Do();
      ok := Do();
      if !reloaded || !ok {
        return false;
      }
      ok := Do();
    }

    /** rollback: it says it succeeded exactly when all of it did and that is recorded; the
        marker is gone when it returns, unless its removal failed; nothing is retried. */
    method Rollback() returns (ok: bool)
      requires Valid() && state.process.Rolling? && state.process.at == ReadingManifest
      modifies this
      ensures Valid() && state.process == old(state).process.(at := Over(ok))
      ensures old(state).log <= state.log && Removed(state)
      ensures ok ==> state.last == Some(RolledBack) && exists cleared ::
        state.log == old(state).log + AllDone(state.process.cause)[1..] + [Recorded(RolledBack, true), Cleared(cleared)]
      ensures !ok ==> state.last == old(state).last || state.last == Some(RollbackFailed)
    {
      hide Run, Removed;
      ok := Do();
      if !ok {
        Failed();
        return;
      }
      ok := GoBack();
      if !ok {
        Failed();
        return;
      }
      ok := ComeUp();
      if !ok {
        Failed();
        return;
      }
      ok := Succeeded();
    }

    /** An interrupted recovery is reported, and not tried again. */
    method ReportInterrupted()
      requires Valid() && state.process == Reporting(false)
      modifies this
      ensures Valid() && state.process.Nobody? && Removed(state)
      ensures exists written, cleared ::
        state.log == old(state).log + [Recorded(RollbackFailed, written), Cleared(cleared)]
    {
      hide Run;
      var written, cleared: bool := *, *;
      Take(Report(written));
      Take(Report(cleared));
      assert state.log == old(state).log + [Recorded(RollbackFailed, written), Cleared(cleared)];
    }

    /** The marker is rewritten with "recovering", and its snapshot rolled back to. */
    method RollBackFor(found: Marker) returns (finished: bool)
      requires Valid() && state.process == Rewriting(found)
      modifies this
      ensures Valid() && state.process.Nobody?
      ensures !finished ==> state == old(state).(process := Nobody)
      ensures finished ==> Removed(state) && old(state).log + [Begun(Recovery(found.id))] <= state.log
    {
      hide Run;
      finished := *;
      Take(Rewrite(finished));
      if finished {
        var _ := Rollback();
        Take(Return);
      }
    }

    /** recoverUpdate, when nobody holds the lock: a marker already at "recovering" is only
        reported, any other leads to a rollback once "recovering" is written. */
    method RecoverUpdate() returns (finished: bool)
      requires Valid()
      modifies this
      ensures Valid() && (old(state.process.Nobody?) ==> state.process.Nobody?)
      ensures finished && old(state.marker).Some? ==> Removed(state)
      ensures !finished || old(!state.process.Nobody?) || old(state.marker == None) ==> state == old(state)
      ensures finished && old(state.marker).Some? ==>
        if old(state.marker).value.recovering
        then exists written, cleared ::
          state.log == old(state).log + [Recorded(RollbackFailed, written), Cleared(cleared)]
        else old(state).log + [Begun(Recovery(old(state.marker).value.id))] <= state.log
    {
      hide Run, Removed;
      if !state.process.Nobody? {
        return false;
      }
      var readable: bool := *;
      Take(Recover);
      Take(ReadMarker(readable));
      if state.process.Nobody? {
        return false;
      }
      if state.process.Reporting? {
        ReportInterrupted();
        return true;
      }
      finished := RollBackFor(state.process.found);
    }
  }
}
