/** The job runner (apps/root-worker/main.go): a dispatcher that fetches jobs and two serial
    lanes that handle them, as a machine over every interleaving of their steps. */
module JobLanes {
  import opened Text
  import opened StableSort

  datatype Job = Job(id: nat, subject: string)

  const MAX_JOBS_IN_FLIGHT: nat := 16
  const FILE_LANE: nat := 0
  const CONTAINER_LANE: nat := 1
  const JOB_LANE_COUNT: nat := 2

  function JobLane(subject: string): (lane: nat)
    ensures lane < JOB_LANE_COUNT
    ensures lane == CONTAINER_LANE <==> exists rest :: subject == "root.container." + rest
  {
    if HasPrefix(subject, "root.container.") then
      assert subject == "root.container." + subject[|"root.container."|..];
      CONTAINER_LANE
    else FILE_LANE
  }

  /** Where the dispatcher's loop is. */
  datatype Dispatcher =
    | AtSlots                        // about to take a slot
    | Fetching                       // holding one
    | GivingBack(closed: bool)       // about to give it back: nothing fetched
    | Sending(batch: seq<Job>)       // handing jobs to their lanes
    | Returned

  /** Where a lane's goroutine is. */
  datatype Worker = Idle | Handling(job: Job) | Stopping(job: Job) | Freeing

  datatype Lane = Lane(queue: seq<Job>, worker: Worker, started: seq<Job>)

  /** slots is what the slots channel holds; fetched and each lane's started are history;
      renewed are the jobs whose deadline is being renewed. */
  datatype State = State(dispatcher: Dispatcher, slots: nat, lanes: seq<Lane>, fetched: seq<Job>,
    renewed: multiset<Job>)

  datatype Step =
    | TakeSlot
    | FetchFails(closed: bool)
    | FetchGives(jobs: seq<Job>)
    | GiveBack
    | Send
    | Take(lane: nat)
    | Handled(lane: nat)
    | StopRenewing(lane: nat)
    | FreeSlot(lane: nat)

  function Init(): State { State(AtSlots, 0, [Lane([], Idle, []), Lane([], Idle, [])], [], multiset{}) }

  /** A step can be taken now; a channel operation that would block is not one. */
  predicate Enabled(s: State, step: Step)
    requires |s.lanes| == JOB_LANE_COUNT
  {
    match step
    case TakeSlot => s.dispatcher.AtSlots? && s.slots < MAX_JOBS_IN_FLIGHT
    case FetchFails(_) => s.dispatcher.Fetching?
    case FetchGives(_) => s.dispatcher.Fetching?
    case GiveBack => s.dispatcher.GivingBack? && s.slots > 0
    case Send => s.dispatcher.Sending? && s.dispatcher.batch != []
      && |s.lanes[JobLane(s.dispatcher.batch[0].subject)].queue| < MAX_JOBS_IN_FLIGHT
    case Take(l) => l < JOB_LANE_COUNT && s.lanes[l].worker.Idle? && s.lanes[l].queue != []
    case Handled(l) => l < JOB_LANE_COUNT && s.lanes[l].worker.Handling?
    case StopRenewing(l) => l < JOB_LANE_COUNT && s.lanes[l].worker.Stopping?
    case FreeSlot(l) => l < JOB_LANE_COUNT && s.lanes[l].worker.Freeing? && s.slots > 0
  }

  function Next(s: State, step: Step): (s': State)
    requires |s.lanes| == JOB_LANE_COUNT && Enabled(s, step)
    ensures |s'.lanes| == JOB_LANE_COUNT
  {
    match step
    case TakeSlot => s.(dispatcher := Fetching, slots := s.slots + 1)
    case FetchFails(closed) => s.(dispatcher := GivingBack(closed))
    case FetchGives(jobs) =>
      if jobs == [] then s.(dispatcher := GivingBack(false))
        else s.(dispatcher := Sending(jobs), fetched := s.fetched + jobs)
    case GiveBack => s.(dispatcher := if s.dispatcher.closed then Returned else AtSlots, slots := s.slots - 1)
    case Send =>
      var job, rest := s.dispatcher.batch[0], s.dispatcher.batch[1..];
      var l := JobLane(job.subject);
      s.(dispatcher := if rest == [] then AtSlots else Sending(rest),
         lanes := s.lanes[l := s.lanes[l].(queue := s.lanes[l].queue + [job])],
         renewed := s.renewed + multiset{job})
    case Take(l) =>
      var lane := s.lanes[l];
      s.(lanes := s.lanes[l := Lane(lane.queue[1..], Handling(lane.queue[0]), lane.started + [lane.queue[0]])])
    case Handled(l) => s.(lanes := s.lanes[l := s.lanes[l].(worker := Stopping(s.lanes[l].worker.job))])
    case StopRenewing(l) =>
      s.(lanes := s.lanes[l := s.lanes[l].(worker := Freeing)], renewed := s.renewed - multiset{s.lanes[l].worker.job})
    case FreeSlot(l) => s.(lanes := s.lanes[l := s.lanes[l].(worker := Idle)], slots := s.slots - 1)
  }

  // ── What every step keeps ───────────────────────────────────────────────────

  function Held(d: Dispatcher): nat {
    match d
    case AtSlots => 0
    case Fetching => 1
    case GivingBack(_) => 1
    case Sending(batch) => |batch|
    case Returned => 0
  }

  function Batch(d: Dispatcher): seq<Job> { if d.Sending? then d.batch else [] }

  function Busy(lane: Lane): nat { |lane.queue| + if lane.worker.Idle? then 0 else 1 }

  /** The jobs a lane renews: those queued and the one at hand. */
  function Owned(lane: Lane): multiset<Job> {
    multiset(lane.queue) + if lane.worker.Handling? || lane.worker.Stopping? then multiset{lane.worker.job}
      else multiset{}
  }

  predicate ForLane(job: Job, l: nat) { JobLane(job.subject) == l }

  function LaneJobs(jobs: seq<Job>, l: nat): seq<Job> { Filter(jobs, (j: Job) => ForLane(j, l)) }

  /** Slots count the dispatcher's job and those of the lanes; each lane has started, has
      queued and is about to get exactly the jobs fetched for it, in order; and the jobs
      renewed are those of the lanes. */
  ghost predicate Accounted(s: State) {
    && |s.lanes| == JOB_LANE_COUNT
    && s.slots == Held(s.dispatcher) + Busy(s.lanes[0]) + Busy(s.lanes[1]) <= MAX_JOBS_IN_FLIGHT
    && (s.dispatcher.Sending? ==> |s.dispatcher.batch| == 1)
    && (forall l :: 0 <= l < JOB_LANE_COUNT ==> LaneFed(s, l))
    && s.renewed == Owned(s.lanes[0]) + Owned(s.lanes[1])
  }

  ghost predicate LaneFed(s: State, l: nat)
    requires l < |s.lanes|
  {
    LaneJobs(s.fetched, l) == s.lanes[l].started + s.lanes[l].queue + LaneJobs(Batch(s.dispatcher), l)
  }

  lemma {:induction false} InitAccounted()
    ensures Accounted(Init())
  {}

  lemma {:induction false} OneJob(job: Job, l: nat)
    ensures LaneJobs([job], l) == if ForLane(job, l) then [job] else []
    ensures LaneJobs([], l) == []
  {
    FilterCons(job, [], (j: Job) => ForLane(j, l));
    assert [job] + [] == [job];
  }

  lemma {:induction false} FetchKeeps(s: State, jobs: seq<Job>)
    requires Accounted(s) && Enabled(s, FetchGives(jobs)) && |jobs| <= 1
    ensures Accounted(Next(s, FetchGives(jobs)))
  {
    var s' := Next(s, FetchGives(jobs));
    forall l | 0 <= l < JOB_LANE_COUNT ensures LaneFed(s', l) {
      assert LaneFed(s, l);
      FilterConcat(s.fetched, jobs, (j: Job) => ForLane(j, l));
      var q := s.lanes[l].started + s.lanes[l].queue;
      OneJob(Job(0, ""), l);
      assert q + [] == q;
    }
  }

  lemma {:induction false} SentLane(lane: Lane, job: Job)
    ensures var l := lane.(queue := lane.queue + [job]);
            Busy(l) == Busy(lane) + 1 && Owned(l) == Owned(lane) + multiset{job} && l.started == lane.started
  {
    assert multiset(lane.queue + [job]) == multiset(lane.queue) + multiset{job};
  }

  lemma {:induction false} SentFed(s: State, s': State, job: Job, l: nat)
    requires l < |s.lanes| == |s'.lanes| && LaneFed(s, l) && s.dispatcher == Sending([job]) && s'.dispatcher == AtSlots
      && s'.fetched == s.fetched
    requires s'.lanes[l].started == s.lanes[l].started
      && s'.lanes[l].queue == s.lanes[l].queue + if ForLane(job, l) then [job] else []
    ensures LaneFed(s', l)
  {
    OneJob(job, l);
    hide LaneJobs, ForLane;
    var st, q := s.lanes[l].started, s.lanes[l].queue;
    assert st + q + [job] == st + (q + [job]) + [] && q + [] == q;
    assert st + q + [] == st + q;
  }

  function Sent(s: State, job: Job): State
    requires |s.lanes| == JOB_LANE_COUNT
  {
    var k := JobLane(job.subject);
    s.(dispatcher := AtSlots, lanes := s.lanes[k := s.lanes[k].(queue := s.lanes[k].queue + [job])],
      renewed := s.renewed + multiset{job})
  }

  lemma {:induction false} SentCounts(s: State, job: Job)
    requires Accounted(s) && s.dispatcher == Sending([job])
    ensures var s' := Sent(s, job);
            && s'.slots == Held(s'.dispatcher) + Busy(s'.lanes[0]) + Busy(s'.lanes[1]) <= MAX_JOBS_IN_FLIGHT
            && s'.renewed == Owned(s'.lanes[0]) + Owned(s'.lanes[1])
  {
    var k := JobLane(job.subject);
    SentLane(s.lanes[k], job);
    assert Sent(s, job).lanes[k] == s.lanes[k].(queue := s.lanes[k].queue + [job])
      && Sent(s, job).lanes[1 - k] == s.lanes[1 - k];
    hide Busy, Owned, LaneFed, JobLane;
    if k == 0 { assert Sent(s, job).lanes[1] == s.lanes[1]; } else { assert Sent(s, job).lanes[0] == s.lanes[0]; }
  }

  lemma {:induction false} AccountedFrom(s: State)
    requires |s.lanes| == JOB_LANE_COUNT && s.dispatcher.AtSlots? && LaneFed(s, 0) && LaneFed(s, 1)
    requires s.slots == Held(s.dispatcher) + Busy(s.lanes[0]) + Busy(s.lanes[1]) <= MAX_JOBS_IN_FLIGHT
    requires s.renewed == Owned(s.lanes[0]) + Owned(s.lanes[1])
    ensures Accounted(s)
  {
    hide Busy, Owned, LaneFed, Held;
  }

  lemma {:induction false} SentKeeps(s: State, job: Job)
    requires Accounted(s) && s.dispatcher == Sending([job])
    ensures Accounted(Sent(s, job))
  {
    var k := JobLane(job.subject);
    var s' := Sent(s, job);
    assert ForLane(job, k) && !ForLane(job, 1 - k) && LaneFed(s, k) && LaneFed(s, 1 - k);
    assert s'.lanes[k] == s.lanes[k].(queue := s.lanes[k].queue + [job]) && s'.lanes[1 - k] == s.lanes[1 - k];
    assert s.lanes[1 - k].queue + [] == s.lanes[1 - k].queue;
    SentCounts(s, job);
    hide Accounted, Busy, Owned, LaneJobs, JobLane, ForLane, LaneFed, Sent, Held;
    SentFed(s, s', job, k);
    SentFed(s, s', job, 1 - k);
    AccountedFrom(s');
  }

  lemma {:induction false} SendIsSent(s: State)
    requires |s.lanes| == JOB_LANE_COUNT && Enabled(s, Send) && |s.dispatcher.batch| == 1
    ensures s.dispatcher == Sending([s.dispatcher.batch[0]]) && Next(s, Send) == Sent(s, s.dispatcher.batch[0])
  {
    assert s.dispatcher.batch == [s.dispatcher.batch[0]];
  }

  lemma {:induction false} SendKeeps(s: State)
    requires Accounted(s) && Enabled(s, Send)
    ensures Accounted(Next(s, Send))
  {
    assert |s.lanes| == JOB_LANE_COUNT && |s.dispatcher.batch| == 1;
    hide Accounted, Sent, Next;
    SendIsSent(s);
    SentKeeps(s, s.dispatcher.batch[0]);
  }

  /** A lane's own step keeps the account when what it does to the slots and to the jobs
      renewed is what it does to its part of them. */
  lemma {:induction false} LaneKeeps(s: State, k: nat, lane: Lane, slots: nat, renewed: multiset<Job>)
    requires Accounted(s) && k < JOB_LANE_COUNT && slots <= MAX_JOBS_IN_FLIGHT
    requires lane.started + lane.queue == s.lanes[k].started + s.lanes[k].queue
    requires slots + Busy(s.lanes[k]) == s.slots + Busy(lane)
    requires renewed + Owned(s.lanes[k]) == s.renewed + Owned(lane)
    ensures Accounted(s.(lanes := s.lanes[k := lane], slots := slots, renewed := renewed))
  {
    hide Owned, Busy, LaneJobs;
    var s' := s.(lanes := s.lanes[k := lane], slots := slots, renewed := renewed);
    forall l | 0 <= l < JOB_LANE_COUNT ensures LaneFed(s', l) { assert LaneFed(s, l); }
    var other := Owned(s.lanes[1 - k]);
    Cancels(renewed, Owned(s.lanes[k]), other, Owned(lane));
  }

  lemma {:induction false} Cancels(a: multiset<Job>, b: multiset<Job>, c: multiset<Job>, d: multiset<Job>)
    requires a + b == b + c + d || a + b == c + b + d
    ensures a == d + c && a == c + d
  {
    forall j ensures a[j] == d[j] + c[j] { assert (a + b)[j] == b[j] + c[j] + d[j]; }
  }

  lemma {:induction false} TakeKeeps(s: State, k: nat)
    requires Accounted(s) && Enabled(s, Take(k))
    ensures Accounted(Next(s, Take(k)))
  {
    var q, started := s.lanes[k].queue, s.lanes[k].started;
    var lane := Lane(q[1..], Handling(q[0]), started + [q[0]]);
    assert q == [q[0]] + q[1..];
    assert multiset(q) == multiset{q[0]} + multiset(q[1..]);
    assert started + [q[0]] + q[1..] == started + q;
    AccountedSlots(s);
    hide Accounted;
    LaneKeeps(s, k, lane, s.slots, s.renewed);
    assert Next(s, Take(k)) == s.(lanes := s.lanes[k := lane], slots := s.slots, renewed := s.renewed);
  }

  lemma {:induction false} AccountedSlots(s: State)
    requires Accounted(s)
    ensures s.slots <= MAX_JOBS_IN_FLIGHT && |s.lanes| == JOB_LANE_COUNT
    ensures forall k :: 0 <= k < JOB_LANE_COUNT ==> Owned(s.lanes[k]) <= s.renewed
  {}

  lemma {:induction false} HandledKeeps(s: State, k: nat)
    requires Accounted(s) && Enabled(s, Handled(k))
    ensures Accounted(Next(s, Handled(k)))
  {
    AccountedSlots(s);
    hide Accounted;
    var was := s.lanes[k];
    LaneKeeps(s, k, was.(worker := Stopping(was.worker.job)), s.slots, s.renewed);
    assert s.(slots := s.slots, renewed := s.renewed) == s;
  }

  lemma {:induction false} StopRenewingKeeps(s: State, k: nat)
    requires Accounted(s) && Enabled(s, StopRenewing(k))
    ensures Accounted(Next(s, StopRenewing(k)))
  {
    AccountedSlots(s);
    hide Accounted;
    var was := s.lanes[k];
    var job := was.worker.job;
    var renewed := s.renewed - multiset{job};
    assert multiset{job} <= Owned(was) <= s.renewed;
    var lane := was.(worker := Freeing);
    assert Owned(was) == Owned(lane) + multiset{job};
    LaneKeeps(s, k, lane, s.slots, renewed);
    assert s.(lanes := s.lanes[k := lane], slots := s.slots, renewed := renewed) == Next(s, StopRenewing(k));
  }

  lemma {:induction false} IdleLane(was: Lane)
    requires was.worker.Freeing?
    ensures var lane := was.(worker := Idle);
            Owned(lane) == Owned(was) && Busy(was) == Busy(lane) + 1 && lane.started == was.started
              && lane.queue == was.queue
  {}

  lemma {:induction false} FreeSlotKeeps(s: State, k: nat)
    requires Accounted(s) && k < JOB_LANE_COUNT && s.lanes[k].worker.Freeing? && s.slots > 0
    ensures Accounted(s.(lanes := s.lanes[k := s.lanes[k].(worker := Idle)], slots := s.slots - 1,
      renewed := s.renewed))
  {
    AccountedSlots(s);
    hide Accounted, Owned, Busy, LaneJobs;
    IdleLane(s.lanes[k]);
    LaneKeeps(s, k, s.lanes[k].(worker := Idle), s.slots - 1, s.renewed);
  }

  lemma {:induction false} DispatcherKeeps(s: State, step: Step)
    requires Accounted(s) && Enabled(s, step) && (step.TakeSlot? || step.FetchFails? || step.GiveBack?)
    ensures Accounted(Next(s, step))
  {
    hide Owned, Busy, LaneJobs;
    var s' := Next(s, step);
    forall l | 0 <= l < JOB_LANE_COUNT ensures LaneFed(s', l) { assert LaneFed(s, l); }
  }

  /** A fetch gives no job or one. */
  predicate Single(step: Step): (yes: bool)
    ensures yes <==> !step.FetchGives? || step.jobs == [] || exists job :: step.jobs == [job]
  {
    if step.FetchGives? && |step.jobs| == 1 then assert step.jobs == [step.jobs[0]]; true
    else step.FetchGives? ==> |step.jobs| <= 1
  }

  lemma {:induction false} StepKeeps(s: State, step: Step)
    requires Accounted(s) && Enabled(s, step) && Single(step)
    ensures Accounted(Next(s, step))
  {
    match step
    case FetchGives(jobs) => FetchKeeps(s, jobs);
    case Send => SendKeeps(s);
    case Take(l) => TakeKeeps(s, l);
    case TakeSlot => DispatcherKeeps(s, step);
    case FetchFails(_) => DispatcherKeeps(s, step);
    case GiveBack => DispatcherKeeps(s, step);
    case Handled(l) => HandledKeeps(s, l);
    case StopRenewing(l) => StopRenewingKeeps(s, l);
    case FreeSlot(l) => FreeSlotKeeps(s, l);
  }

  // ── Every run ───────────────────────────────────────────────────────────────

  /** The states of a run, steps in any order that can be taken. */
  ghost predicate Run(states: seq<State>, steps: seq<Step>) {
    && |states| == |steps| + 1 && states[0] == Init()
    && forall i :: 0 <= i < |steps| ==>
      |states[i].lanes| == JOB_LANE_COUNT && Enabled(states[i], steps[i]) && states[i + 1] == Next(states[i], steps[i])
  }

  /** With fetches of one job at most, every state of every run is accounted for. */
  lemma {:induction false} EveryRunIsAccounted(states: seq<State>, steps: seq<Step>, k: nat)
    requires Run(states, steps) && k <= |steps| && forall i :: 0 <= i < |steps| ==> Single(steps[i])
    ensures Accounted(states[k])
  {
    if k == 0 {
      InitAccounted();
    } else {
      EveryRunIsAccounted(states, steps, k - 1);
      StepKeeps(states[k - 1], steps[k - 1]);
    }
  }

  /** The dispatcher stops, and fetches no more, exactly once a fetch found the connection
      closed. */
  lemma {:induction false} StopsWhenClosed(states: seq<State>, steps: seq<Step>, k: nat)
    requires Run(states, steps) && k <= |steps|
    ensures var d := states[k].dispatcher;
            (d == GivingBack(true) || d == Returned) <==> exists j :: 0 <= j < k && steps[j] == FetchFails(true)
  {
    if k > 0 {
      StopsWhenClosed(states, steps, k - 1);
      var s, step := states[k - 1], steps[k - 1];
      assert Enabled(s, step) && states[k] == Next(s, step);
    }
  }

  /** Handing a job to its lane never waits, nor does giving a slot back. */
  lemma {:induction false} NothingBlocks(s: State)
    requires Accounted(s)
    ensures s.dispatcher.Sending? ==> Enabled(s, Send)
    ensures s.dispatcher.GivingBack? ==> Enabled(s, GiveBack)
    ensures forall l :: 0 <= l < JOB_LANE_COUNT && s.lanes[l].worker.Freeing? ==> Enabled(s, FreeSlot(l))
  {
    if s.dispatcher.Sending? {
      var k := JobLane(s.dispatcher.batch[0].subject);
      assert |s.lanes[k].queue| <= Busy(s.lanes[k]);
    }
  }

  /** Nothing is ever stuck: some step can be taken until the connection is closed and
      every job fetched was handled. */
  lemma {:induction false} NeverStuck(s: State)
    requires Accounted(s)
    ensures (forall step :: !Enabled(s, step)) ==> s.dispatcher.Returned? && s.slots == 0 && s.renewed == multiset{}
    ensures (forall step :: !Enabled(s, step)) ==>
      forall l :: 0 <= l < JOB_LANE_COUNT ==> s.lanes[l].started == LaneJobs(s.fetched, l)
  {
    if forall step :: !Enabled(s, step) {
      NothingBlocks(s);
      assert !Enabled(s, TakeSlot) && !Enabled(s, FetchFails(true));
      forall l | 0 <= l < JOB_LANE_COUNT ensures s.lanes[l].worker.Idle? && s.lanes[l].queue == [] {
        assert !Enabled(s, Take(l)) && !Enabled(s, Handled(l)) && !Enabled(s, StopRenewing(l))
          && !Enabled(s, FreeSlot(l));
      }
      forall l | 0 <= l < JOB_LANE_COUNT ensures s.lanes[l].started == LaneJobs(s.fetched, l) {
        assert LaneFed(s, l);
        OneJob(Job(0, ""), l);
        assert s.lanes[l].started + [] + [] == s.lanes[l].started;
      }
    }
  }

  /** At any time each lane has started a prefix of the jobs fetched for it, in order. */
  lemma {:induction false} LaneStartsAPrefix(s: State, l: nat)
    requires Accounted(s) && l < JOB_LANE_COUNT
    ensures s.lanes[l].started <= LaneJobs(s.fetched, l)
    ensures |s.lanes[0].queue| + |s.lanes[1].queue| <= MAX_JOBS_IN_FLIGHT
  {
    assert LaneFed(s, l);
  }

  /** Why a fetch asks for one job: the slots account for what it gives exactly when it
      gives at most one. */
  lemma {:induction false} OneSlotCoversOneJob(s: State, jobs: seq<Job>)
    requires Accounted(s) && Enabled(s, FetchGives(jobs))
    ensures Accounted(Next(s, FetchGives(jobs))) <==> |jobs| <= 1
  {
    if |jobs| <= 1 { FetchKeeps(s, jobs); }
  }
}
