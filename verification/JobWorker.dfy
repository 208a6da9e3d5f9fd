/**
 The persistent job worker: jobs survive restarts, threads do not. A job is sent to the Farm,
 its answer is applied, and its slot claim is dropped; a job found running after a restart is
 settled from the Farm's cache and never sent again.
 */
module JobWorker {
  import opened Basics

  type JobId = string
  type Thread = int

  datatype Install = Accepted | Verified | Failure | Unknown

  datatype Status = Pending | Running | Done | Failed

  /** `unknown`: the stored result says the installation could not be verified. */
  datatype Job = Job(assign: bool, slot: Option<int>, status: Status, startedAt: real, unknown: bool)

  /** `state` is None when the body names no known install state. */
  datatype Response = Response(ok: bool, state: Option<Install>, sent: bool)

  datatype Work =
    | Fetched(job: JobId)                      // read as pending
    | Marked(job: JobId)                       // stored as running, about to call the Farm
    | Looking(job: JobId)                      // found stale, about to ask the Farm's cache
    | Replied(job: JobId, response: Response)
    | Releasing(job: JobId)                    // finished, claim about to be dropped

  /** `serial`: no two threads work on one job at a time. */
  datatype Config = Config(serial: bool, farm: bool, staleSeconds: real)

  datatype State = State(
    jobs: map<JobId, Job>,
    claims: map<int, JobId>,
    threads: map<Thread, Work>,
    calls: seq<JobId>,            // run_task calls, in order
    releases: seq<(int, JobId)>,
    claiming: set<JobId>,         // assignments created by a request that has yet to claim their slot
    granted: set<JobId>,          // assignments whose claim succeeded
    refused: set<JobId>,          // assignments whose request was told that the slot is taken
    dropped: set<JobId>,          // assignments whose request died before the claim
    bare: set<JobId>,             // assignments sent while no claim had been granted to them
    late: set<JobId>,             // of these, the ones claimed after their job's release
    abandoned: set<JobId>,        // jobs whose thread died with the result stored and the release to do
    removed: set<JobId>)          // jobs whose claim an administrator took away

  const EMPTY := State(map[], map[], map[], [], [], {}, {}, {}, {}, {}, {}, {}, {})

  datatype Event =
    | Create(job: JobId, assign: bool, slot: Option<int>)
    | Claim(job: JobId)
    | Begin(t: Thread, job: JobId, now: real)
    | Mark(t: Thread, now: real)
    | Call(t: Thread, response: Response)
    | Look(t: Thread, found: Option<Response>)
    | Apply(t: Thread)
    | Release(t: Thread)
    | Die(t: Thread)
    | Crash
    | Unclaim(bay: int)

  /** How an answer ends a job: its status, whether the outcome is unknown, whether the claim goes. */
  datatype Ending = Ending(status: Status, unknown: bool, release: bool)

  function Conclude(job: Job, r: Response): Ending {
    if !job.assign then Ending(if r.ok then Done else Failed, false, false)
    else
      var state := if r.state.Some? then r.state.value else if r.ok then Accepted else Failure;
      if state.Failure? && !r.sent then Ending(Failed, false, job.slot.Some?)
      else if state.Failure? then Ending(Done, true, false)
      else Ending(Done, state.Unknown?, job.slot.Some? && !state.Unknown?)
  }

  /** An assignment to a slot: its request claims the slot once the job is stored. */
  predicate NeedsClaim(job: Job) {
    job.assign && job.slot.Some?
  }

  ghost predicate Busy(s: State, j: JobId) {
    exists t :: t in s.threads && s.threads[t].job == j
  }

  ghost predicate Enabled(cfg: Config, s: State, ev: Event) {
    match ev
    case Create(j, _, _) => j !in s.jobs
    case Claim(j) => j in s.claiming && j in s.jobs && s.jobs[j].slot.Some?
    case Begin(t, j, _) => t !in s.threads && j in s.jobs && (cfg.serial ==> !Busy(s, j))
    case Mark(t, _) => t in s.threads && s.threads[t].Fetched? && s.threads[t].job in s.jobs
    case Call(t, _) => t in s.threads && s.threads[t].Marked? && s.threads[t].job in s.jobs
    case Look(t, _) => t in s.threads && s.threads[t].Looking? && s.threads[t].job in s.jobs
    case Apply(t) => t in s.threads && s.threads[t].Replied? && s.threads[t].job in s.jobs
    case Release(t) =>
      && t in s.threads && s.threads[t].Releasing?
      && s.threads[t].job in s.jobs && s.jobs[s.threads[t].job].slot.Some?
    case Die(t) => t in s.threads
    case Crash => true
    case Unclaim(_) => true
  }

  predicate IsStale(cfg: Config, job: Job, now: real) {
    now - job.startedAt >= cfg.staleSeconds
  }

  function Unverified(job: Job): Job {
    job.(status := Done, unknown := true)
  }

  /** The release statement: only a claim held under the job's own id goes. */
  function DropClaim(claims: map<int, JobId>, slot: int, j: JobId): map<int, JobId> {
    if slot in claims && claims[slot] == j then claims - {slot} else claims
  }

  function Started(cfg: Config, s: State, t: Thread, j: JobId, now: real): State
    requires j in s.jobs
  {
    var job := s.jobs[j];
    if job.status.Pending? then
      if cfg.farm then s.(threads := s.threads[t := Fetched(j)])
      else s.(jobs := s.jobs[j := job.(status := Failed)])
    else if job.status.Running? && IsStale(cfg, job, now) then
      if job.assign then s.(threads := s.threads[t := Looking(j)]) else s.(jobs := s.jobs[j := Unverified(job)])
    else s
  }

  /** The jobs some thread was about to release. */
  function UnderRelease(threads: map<Thread, Work>): set<JobId> {
    set t | t in threads && threads[t].Releasing? :: threads[t].job
  }

  ghost function Step(cfg: Config, s: State, ev: Event): State {
    if !Enabled(cfg, s, ev) then s
    else
      match ev
      case Create(j, assign, slot) =>
        s.(jobs := s.jobs[j := Job(assign, slot, Pending, 0.0, false)],
           claiming := if NeedsClaim(Job(assign, slot, Pending, 0.0, false)) then s.claiming + {j} else s.claiming)
      case Claim(j) =>
        var slot := s.jobs[j].slot.value;
        if slot in s.claims then s.(claiming := s.claiming - {j}, refused := s.refused + {j})
        else s.(claiming := s.claiming - {j}, claims := s.claims[slot := j], granted := s.granted + {j},
                late := if (slot, j) in s.releases then s.late + {j} else s.late)
      case Begin(t, j, now) => Started(cfg, s, t, j, now)
      case Mark(t, now) =>
        var j := s.threads[t].job;
        s.(jobs := s.jobs[j := s.jobs[j].(status := Running, startedAt := now)], threads := s.threads[t := Marked(j)])
      case Call(t, response) =>
        var j := s.threads[t].job;
        s.(calls := s.calls + [j], threads := s.threads[t := Replied(j, response)],
           bare := if NeedsClaim(s.jobs[j]) && j !in s.granted then s.bare + {j} else s.bare)
      case Look(t, found) =>
        var j := s.threads[t].job;
        if found.Some? && cfg.farm then s.(threads := s.threads[t := Replied(j, found.value)])
        else s.(jobs := s.jobs[j := Unverified(s.jobs[j])], threads := s.threads - {t})
      case Apply(t) =>
        var j := s.threads[t].job;
        var end := Conclude(s.jobs[j], s.threads[t].response);
        s.(jobs := s.jobs[j := s.jobs[j].(status := end.status, unknown := end.unknown)],
           threads := if end.release then s.threads[t := Releasing(j)] else s.threads - {t})
      case Release(t) =>
        var j := s.threads[t].job;
        var slot := s.jobs[j].slot.value;
        s.(claims := DropClaim(s.claims, slot, j), releases := s.releases + [(slot, j)], threads := s.threads - {t})
      case Die(t) =>
        s.(threads := s.threads - {t},
           abandoned := if s.threads[t].Releasing? then s.abandoned + {s.threads[t].job} else s.abandoned)
      case Crash =>
        s.(threads := map[], claiming := {}, dropped := s.dropped + s.claiming,
           abandoned := s.abandoned + UnderRelease(s.threads))
      case Unclaim(bay) =>
        if bay in s.claims then s.(claims := s.claims - {bay}, removed := s.removed + {s.claims[bay]}) else s
  }

  ghost function Run(cfg: Config, s: State, evs: seq<Event>): State
    decreases |evs|
  {
    if evs == [] then s else Run(cfg, Step(cfg, s, evs[0]), evs[1..])
  }

  // ----- invariant of serialised work ------------------------------------

  function Calls(calls: seq<JobId>, j: JobId): nat {
    multiset(calls)[j]
  }

  predicate Finished(job: Job) {
    job.status.Done? || job.status.Failed?
  }

  /** The job is an assignment to a slot, and it ended with an outcome that is known. */
  predicate Concluded(job: Job) {
    job.assign && job.slot.Some? && Finished(job) && !job.unknown
  }

  predicate Released(s: State, j: JobId) {
    j in s.jobs && s.jobs[j].slot.Some? && (s.jobs[j].slot.value, j) in s.releases
  }

  ghost predicate ThreadOk(cfg: Config, s: State, t: Thread) {
    t in s.threads ==>
      var j := s.threads[t].job;
      && j in s.jobs
      && (forall u :: u in s.threads && s.threads[u].job == j ==> u == t)
      && (cfg.farm || s.threads[t].Looking?)
      && match s.threads[t]
         case Fetched(_) => s.jobs[j].status.Pending?
         case Marked(_) => s.jobs[j].status.Running? && Calls(s.calls, j) == 0
         case Looking(_) => s.jobs[j].status.Running?
         case Replied(_, _) => s.jobs[j].status.Running?
         case Releasing(_) => Concluded(s.jobs[j]) && !Released(s, j) && j !in s.abandoned
  }

  /** Called at most once, and not before it started; only finished jobs are unknown. */
  ghost predicate CallsOk(s: State, j: JobId) {
    && Calls(s.calls, j) <= 1
    && (j !in s.jobs || s.jobs[j].status.Pending? ==> Calls(s.calls, j) == 0)
    && (j in s.jobs && s.jobs[j].unknown ==> Finished(s.jobs[j]))
  }

  /** A release names the slot's own job, an assignment that finished with a known outcome. */
  ghost predicate ReleaseOk(s: State, release: (int, JobId)) {
    var (slot, j) := release;
    j in s.jobs && Concluded(s.jobs[j]) && s.jobs[j].slot == Some(slot)
  }

  ghost predicate ClaimOk(s: State, slot: int) {
    slot in s.claims ==>
      s.claims[slot] in s.jobs && s.jobs[s.claims[slot]].slot == Some(slot) && s.claims[slot] in s.granted
  }

  /** Once granted, a claim stays until an administrator takes it or a release that comes after it. */
  ghost predicate GrantOk(s: State, j: JobId) {
    && (j in s.claiming ==> j !in s.granted && j in s.jobs && s.jobs[j].assign && s.jobs[j].slot.Some?)
    && (j in s.granted ==> j in s.jobs && s.jobs[j].assign && s.jobs[j].slot.Some?)
    && (j in s.granted ==> (Owns(s, j) <==> j !in s.removed && (Released(s, j) ==> j in s.late)))
    && (j in s.late ==> Released(s, j))
    && (j in s.removed ==> j in s.granted)
  }

  /** A concluded assignment has been released, or is about to be, or its thread died before it could. */
  ghost predicate FreedOk(cfg: Config, s: State, j: JobId) {
    && (Released(s, j) ==> cfg.farm && j !in s.abandoned)
    && (j in s.abandoned ==> cfg.farm && j in s.jobs && Concluded(s.jobs[j]))
    && (cfg.farm && j in s.jobs && Concluded(s.jobs[j]) ==> Released(s, j) || j in s.abandoned || ReleaseDue(s, j))
  }

  ghost predicate Owns(s: State, j: JobId) {
    j in s.jobs && s.jobs[j].slot.Some? && s.jobs[j].slot.value in s.claims && s.claims[s.jobs[j].slot.value] == j
  }

  ghost predicate ReleaseDue(s: State, j: JobId) {
    exists t :: t in s.threads && s.threads[t] == Releasing(j)
  }

  ghost predicate Valid(cfg: Config, s: State) {
    && (forall t :: ThreadOk(cfg, s, t))
    && (forall j :: CallsOk(s, j) && FreedOk(cfg, s, j) && GrantOk(s, j))
    && (forall i :: 0 <= i < |s.releases| ==> ReleaseOk(s, s.releases[i]))
    && (forall slot :: ClaimOk(s, slot))
  }

  predicate ByThread(s: State, ev: Event) {
    (ev.Mark? || ev.Call? || ev.Look? || ev.Apply? || ev.Release?) && ev.t in s.threads
  }

  lemma StepKeepsThreads(cfg: Config, s: State, ev: Event, t: Thread)
    requires cfg.serial && Valid(cfg, s)
    ensures ThreadOk(cfg, Step(cfg, s, ev), t)
  {
    assert ThreadOk(cfg, s, t);
    hide FreedOk, ReleaseOk, ClaimOk, GrantOk;
    if ByThread(s, ev) {
      WorkKeepsThreads(cfg, s, ev, t);
    } else {
      OthersKeepThreads(cfg, s, ev, t);
    }
  }

  lemma WorkKeepsThreads(cfg: Config, s: State, ev: Event, t: Thread)
    requires cfg.serial && Valid(cfg, s) && ByThread(s, ev)
    ensures ThreadOk(cfg, Step(cfg, s, ev), t)
  {
    hide ThreadOk, CallsOk, ReleaseOk, ClaimOk, FreedOk, GrantOk, Step;
    assert ThreadOk(cfg, s, t) && ThreadOk(cfg, s, ev.t);
    if t == ev.t {
      WorkKeepsItsThread(cfg, s, ev);
    } else {
      WorkKeepsOtherThread(cfg, s, ev, t);
    }
  }

  lemma WorkKeepsOtherThread(cfg: Config, s: State, ev: Event, t: Thread)
    requires ByThread(s, ev) && ThreadOk(cfg, s, ev.t) && ThreadOk(cfg, s, t) && t != ev.t
    ensures ThreadOk(cfg, Step(cfg, s, ev), t)
  {
    hide Conclude, Calls, DropClaim;
    if t in s.threads {
      CallsGrow(s, ev, s.threads[t].job);
    }
  }

  lemma WorkKeepsItsThread(cfg: Config, s: State, ev: Event)
    requires cfg.serial && Valid(cfg, s) && ByThread(s, ev)
    ensures ThreadOk(cfg, Step(cfg, s, ev), ev.t)
  {
    assert ThreadOk(cfg, s, ev.t);
    var j := s.threads[ev.t].job;
    assert CallsOk(s, j) && FreedOk(cfg, s, j);
    if Released(s, j) {
      ReleasedConcluded(cfg, s, j);
    }
    hide Conclude, Calls, ReleaseOk, ClaimOk, GrantOk, DropClaim;
    ConcludeMeaning();
    CallsGrow(s, ev, j);
  }

  lemma OthersKeepThreads(cfg: Config, s: State, ev: Event, t: Thread)
    requires cfg.serial && Valid(cfg, s) && !ByThread(s, ev)
    ensures ThreadOk(cfg, Step(cfg, s, ev), t)
  {
    assert ThreadOk(cfg, s, t);
    hide Conclude, Calls, ReleaseOk, ClaimOk, FreedOk, CallsOk, GrantOk, UnderRelease;
  }

  lemma StepKeepsCalls(cfg: Config, s: State, ev: Event, j: JobId)
    requires cfg.serial && Valid(cfg, s)
    ensures CallsOk(Step(cfg, s, ev), j)
  {
    assert CallsOk(s, j);
    if ByThread(s, ev) {
      assert ThreadOk(cfg, s, ev.t);
      WorkKeepsCalls(cfg, s, ev, j);
    } else {
      hide Calls, ReleaseOk, ClaimOk, FreedOk, ThreadOk, GrantOk;
    }
  }

  lemma WorkKeepsCalls(cfg: Config, s: State, ev: Event, j: JobId)
    requires ByThread(s, ev) && ThreadOk(cfg, s, ev.t) && CallsOk(s, j)
    ensures CallsOk(Step(cfg, s, ev), j)
  {
    hide Conclude, Calls, DropClaim, Released;
    ConcludeMeaning();
    CallsGrow(s, ev, j);
  }

  lemma StepKeepsReleases(cfg: Config, s: State, ev: Event, i: nat)
    requires cfg.serial && Valid(cfg, s) && i < |Step(cfg, s, ev).releases|
    ensures ReleaseOk(Step(cfg, s, ev), Step(cfg, s, ev).releases[i])
  {
    if i < |s.releases| {
      assert ReleaseOk(s, s.releases[i]);
    }
    if ByThread(s, ev) {
      assert ThreadOk(cfg, s, ev.t);
    }
    hide Conclude, Calls, ClaimOk, FreedOk, CallsOk, GrantOk, Released;
  }

  lemma StepKeepsClaims(cfg: Config, s: State, ev: Event, slot: int)
    requires Valid(cfg, s)
    ensures ClaimOk(Step(cfg, s, ev), slot)
  {
    assert ClaimOk(s, slot);
    hide Conclude, Calls, ReleaseOk, FreedOk, CallsOk, ThreadOk, GrantOk;
  }

  lemma StepKeepsValid(cfg: Config, s: State, ev: Event)
    requires cfg.serial && Valid(cfg, s)
    ensures Valid(cfg, Step(cfg, s, ev))
  {
    hide ThreadOk, CallsOk, ReleaseOk, ClaimOk, FreedOk, GrantOk, Step;
    var next := Step(cfg, s, ev);
    forall t ensures ThreadOk(cfg, next, t) {
      StepKeepsThreads(cfg, s, ev, t);
    }
    forall j ensures CallsOk(next, j) && FreedOk(cfg, next, j) && GrantOk(next, j) {
      StepKeepsCalls(cfg, s, ev, j);
      StepKeepsFreed(cfg, s, ev, j);
      StepKeepsGrants(cfg, s, ev, j);
    }
    forall i | 0 <= i < |next.releases| ensures ReleaseOk(next, next.releases[i]) {
      StepKeepsReleases(cfg, s, ev, i);
    }
    forall slot ensures ClaimOk(next, slot) {
      StepKeepsClaims(cfg, s, ev, slot);
    }
  }

  // ----- claims and their release ----------------------------------------

  /** What a release in the log says about its job. */
  lemma ReleasedConcluded(cfg: Config, s: State, j: JobId)
    requires Valid(cfg, s) && Released(s, j)
    ensures Concluded(s.jobs[j])
  {
    var i :| 0 <= i < |s.releases| && s.releases[i] == (s.jobs[j].slot.value, j);
    assert ReleaseOk(s, s.releases[i]);
  }

  lemma StepKeepsGrants(cfg: Config, s: State, ev: Event, j: JobId)
    requires cfg.serial && Valid(cfg, s)
    ensures GrantOk(Step(cfg, s, ev), j)
  {
    assert GrantOk(s, j);
    if ev.Release? && ev.t in s.threads {
      ReleaseKeepsGrants(cfg, s, ev, j);
    } else if ev.Claim? {
      ClaimKeepsGrants(cfg, s, ev, j);
    } else if ev.Unclaim? {
      hide Conclude, Calls, ReleaseOk, FreedOk, CallsOk, ThreadOk;
      assert ClaimOk(s, ev.bay);
      assert j in s.jobs && s.jobs[j].slot.Some? ==> ClaimOk(s, s.jobs[j].slot.value);
    } else {
      QuietKeepsGrants(cfg, s, ev, j);
    }
  }

  lemma QuietKeepsGrants(cfg: Config, s: State, ev: Event, j: JobId)
    requires GrantOk(s, j) && !ev.Claim? && !ev.Unclaim? && (ev.Release? ==> ev.t !in s.threads)
    requires Valid(cfg, s)
    ensures GrantOk(Step(cfg, s, ev), j)
  {
    if ev.Create? && ev.job == j {
      CreateKeepsGrants(cfg, s, ev);
    } else {
      hide Valid;
      SameGrants(cfg, s, ev, j);
    }
  }

  /** Steps that touch no claim: they keep the claims, the releases and the job's slot as they are. */
  lemma SameGrants(cfg: Config, s: State, ev: Event, j: JobId)
    requires GrantOk(s, j) && !ev.Claim? && !ev.Unclaim? && (ev.Release? ==> ev.t !in s.threads)
    requires ev.Create? ==> ev.job != j
    ensures GrantOk(Step(cfg, s, ev), j)
  {
    hide Conclude, UnderRelease, DropClaim, IsStale, Busy;
    var t := Step(cfg, s, ev);
    assert t.claims == s.claims && t.releases == s.releases;
    assert t.granted == s.granted && t.late == s.late && t.removed == s.removed;
    assert j in t.jobs <==> j in s.jobs;
    assert j in s.jobs ==> t.jobs[j].slot == s.jobs[j].slot && t.jobs[j].assign == s.jobs[j].assign;
  }

  lemma CreateKeepsGrants(cfg: Config, s: State, ev: Event)
    requires Valid(cfg, s) && ev.Create? && GrantOk(s, ev.job)
    ensures GrantOk(Step(cfg, s, ev), ev.job)
  {
    assert forall i :: 0 <= i < |s.releases| ==> ReleaseOk(s, s.releases[i]);
    assert forall slot :: ClaimOk(s, slot);
    hide Conclude, Calls, FreedOk, CallsOk, ThreadOk;
  }

  lemma ReleaseKeepsGrants(cfg: Config, s: State, ev: Event, j: JobId)
    requires Valid(cfg, s) && ev.Release? && ev.t in s.threads
    ensures GrantOk(Step(cfg, s, ev), j)
  {
    assert GrantOk(s, j) && ThreadOk(cfg, s, ev.t);
    hide Conclude, Calls, FreedOk, CallsOk, ReleaseOk, ClaimOk;
    var t := Step(cfg, s, ev);
    forall slot: int ensures (slot, j) in t.releases <==>
      (slot, j) in s.releases || (Enabled(cfg, s, ev) && s.threads[ev.t].job == j && s.jobs[j].slot == Some(slot))
    {
    }
  }

  lemma ClaimKeepsGrants(cfg: Config, s: State, ev: Event, j: JobId)
    requires Valid(cfg, s) && ev.Claim?
    ensures GrantOk(Step(cfg, s, ev), j)
  {
    assert GrantOk(s, j) && GrantOk(s, ev.job);
    assert j in s.jobs && s.jobs[j].slot.Some? ==> ClaimOk(s, s.jobs[j].slot.value);
    assert ev.job in s.removed ==> ev.job in s.granted;
    hide Conclude, Calls, FreedOk, CallsOk, ReleaseOk, ThreadOk;
  }

  lemma StepKeepsFreed(cfg: Config, s: State, ev: Event, j: JobId)
    requires cfg.serial && Valid(cfg, s)
    ensures FreedOk(cfg, Step(cfg, s, ev), j)
  {
    hide Step, FreedOk;
    if Enabled(cfg, s, ev) {
      if ev.Apply? {
        ApplyKeepsFreed(cfg, s, ev, j);
      } else if ev.Release? {
        ReleaseKeepsFreed(cfg, s, ev, j);
      } else if ev.Die? || ev.Crash? {
        DeathKeepsFreed(cfg, s, ev, j);
      } else {
        OtherKeepsFreed(cfg, s, ev, j);
      }
    } else {
      assert FreedOk(cfg, s, j);
      Disabled(cfg, s, ev);
    }
  }

  lemma Disabled(cfg: Config, s: State, ev: Event)
    requires !Enabled(cfg, s, ev)
    ensures Step(cfg, s, ev) == s
  {
  }

  lemma StillDue(t: State, j: JobId, u: Thread)
    requires u in t.threads && t.threads[u] == Releasing(j)
    ensures ReleaseDue(t, j)
  {
  }

  lemma DueThread(s: State, j: JobId) returns (u: Thread)
    requires ReleaseDue(s, j)
    ensures u in s.threads && s.threads[u] == Releasing(j)
  {
    u :| u in s.threads && s.threads[u] == Releasing(j);
  }

  lemma ApplyKeepsFreed(cfg: Config, s: State, ev: Event, j: JobId)
    requires cfg.serial && Valid(cfg, s) && ev.Apply? && Enabled(cfg, s, ev)
    ensures FreedOk(cfg, Step(cfg, s, ev), j)
  {
    assert FreedOk(cfg, s, j) && ThreadOk(cfg, s, ev.t);
    if Released(s, j) {
      ReleasedConcluded(cfg, s, j);
    }
    hide Conclude, Calls, ReleaseOk, CallsOk, ClaimOk, GrantOk, ReleaseDue;
    ConcludeMeaning();
    var t := Step(cfg, s, ev);
    if s.threads[ev.t].job == j {
      if ev.t in t.threads {
        StillDue(t, j, ev.t);
      }
    } else if ReleaseDue(s, j) {
      var u := DueThread(s, j);
      StillDue(t, j, u);
    }
  }

  lemma ReleaseKeepsFreed(cfg: Config, s: State, ev: Event, j: JobId)
    requires cfg.serial && Valid(cfg, s) && ev.Release? && Enabled(cfg, s, ev)
    ensures FreedOk(cfg, Step(cfg, s, ev), j)
  {
    assert FreedOk(cfg, s, j) && ThreadOk(cfg, s, ev.t);
    hide Conclude, Calls, ReleaseOk, CallsOk, ClaimOk, GrantOk, ReleaseDue;
    var t := Step(cfg, s, ev);
    if s.threads[ev.t].job == j {
      assert t.releases[|s.releases|] == (s.jobs[j].slot.value, j);
      assert Released(t, j);
    } else {
      assert Released(t, j) <==> Released(s, j);
      if ReleaseDue(s, j) {
        var u := DueThread(s, j);
        StillDue(t, j, u);
      }
    }
  }

  lemma DeathKeepsFreed(cfg: Config, s: State, ev: Event, j: JobId)
    requires cfg.serial && Valid(cfg, s) && (ev.Die? || ev.Crash?) && Enabled(cfg, s, ev)
    ensures FreedOk(cfg, Step(cfg, s, ev), j)
  {
    assert FreedOk(cfg, s, j);
    var t := Step(cfg, s, ev);
    if ev.Die? {
      assert ThreadOk(cfg, s, ev.t);
    } else if j in UnderRelease(s.threads) {
      var u :| u in s.threads && s.threads[u].Releasing? && s.threads[u].job == j;
      assert ThreadOk(cfg, s, u);
    }
    hide Conclude, Calls, ReleaseOk, CallsOk, ClaimOk, GrantOk, ReleaseDue, ThreadOk;
    if ReleaseDue(s, j) {
      var u := DueThread(s, j);
      if ev.Die? && ev.t != u {
        StillDue(t, j, u);
      }
    }
  }

  lemma OtherKeepsFreed(cfg: Config, s: State, ev: Event, j: JobId)
    requires cfg.serial && Valid(cfg, s) && Enabled(cfg, s, ev)
    requires !ev.Apply? && !ev.Release? && !ev.Die? && !ev.Crash?
    ensures FreedOk(cfg, Step(cfg, s, ev), j)
  {
    assert FreedOk(cfg, s, j);
    if Released(s, j) {
      ReleasedConcluded(cfg, s, j);
    }
    if ev.Mark? || ev.Call? || ev.Look? {
      assert ThreadOk(cfg, s, ev.t);
      hide Valid;
      WorkKeepsFreed(cfg, s, ev, j);
    } else {
      if ev.Create? && ev.job == j {
        assert forall i :: 0 <= i < |s.releases| ==> ReleaseOk(s, s.releases[i]);
      }
      hide Conclude, Calls, ReleaseOk, CallsOk, ClaimOk, GrantOk, ReleaseDue, ThreadOk, UnderRelease, IsStale;
      var t := Step(cfg, s, ev);
      if ReleaseDue(s, j) {
        var u := DueThread(s, j);
        StillDue(t, j, u);
      }
    }
  }

  /** A thread at work on a running or pending job changes nothing about concluded ones. */
  lemma WorkKeepsFreed(cfg: Config, s: State, ev: Event, j: JobId)
    requires (ev.Mark? || ev.Call? || ev.Look?) && Enabled(cfg, s, ev) && FreedOk(cfg, s, j) && ThreadOk(cfg, s, ev.t)
    requires Released(s, j) ==> Concluded(s.jobs[j])
    ensures FreedOk(cfg, Step(cfg, s, ev), j)
  {
    hide Conclude, Calls, ReleaseDue, UnderRelease, IsStale;
    var t := Step(cfg, s, ev);
    if ReleaseDue(s, j) {
      var u := DueThread(s, j);
      StillDue(t, j, u);
    }
  }

  lemma {:induction false} RunKeepsValid(cfg: Config, s: State, evs: seq<Event>)
    requires cfg.serial && Valid(cfg, s)
    ensures Valid(cfg, Run(cfg, s, evs))
    decreases |evs|
  {
    hide Valid, Step;
    if evs != [] {
      StepKeepsValid(cfg, s, evs[0]);
      RunKeepsValid(cfg, Step(cfg, s, evs[0]), evs[1..]);
    }
  }

  lemma ConcludeMeaning()
    ensures forall job: Job, r: Response :: Conclude(job, r).status.Done? || Conclude(job, r).status.Failed?
    ensures forall job: Job, r: Response :: Conclude(job, r).release ==>
      !Conclude(job, r).unknown && job.slot.Some? && job.assign
    ensures forall job: Job, r: Response ::
      job.assign && job.slot.Some? && !Conclude(job, r).unknown ==> Conclude(job, r).release
  {
  }

  lemma CallsGrow(s: State, ev: Event, j: JobId)
    ensures ev.Call? && ev.t in s.threads ==>
      Calls(s.calls + [s.threads[ev.t].job], j) == Calls(s.calls, j) + (if s.threads[ev.t].job == j then 1 else 0)
  {
  }

  // ----- main results ----------------------------------------------------

  /** A thread may start on the job: it is past being fetched, or nobody else has fetched it. */
  ghost predicate MayBegin(s: State, j: JobId) {
    j in s.jobs && s.jobs[j].status.Pending? ==> forall t :: t in s.threads ==> s.threads[t] != Fetched(j)
  }

  predicate WillCall(w: Work, j: JobId) {
    w == Fetched(j) || w == Marked(j)
  }

  /** Calls made and threads still going to call are at most one together, serialised or not. */
  ghost predicate CallSafe(s: State, j: JobId) {
    && Calls(s.calls, j) <= 1
    && (forall t, u :: t in s.threads && u in s.threads && WillCall(s.threads[t], j) && WillCall(s.threads[u], j) ==>
      t == u)
    && (forall t :: t in s.threads && WillCall(s.threads[t], j) ==> Calls(s.calls, j) == 0)
    && (j !in s.jobs || s.jobs[j].status.Pending? ==> Calls(s.calls, j) == 0)
    && (forall t :: t in s.threads && s.threads[t].job == j ==>
          j in s.jobs && (s.jobs[j].status.Pending? ==> s.threads[t].Fetched?))
  }

  /** One step keeps a job call-safe in any interleaving; only a start on that very job has to pass the guard. */
  lemma StepKeepsCallSafe(cfg: Config, s: State, ev: Event, j: JobId)
    requires CallSafe(s, j)
    requires ev.Begin? && ev.job == j ==> MayBegin(s, j)
    ensures CallSafe(Step(cfg, s, ev), j)
  {
    hide Conclude, Calls, DropClaim, UnderRelease, IsStale, Busy, NeedsClaim;
    ConcludeMeaning();
    CallsGrow(s, ev, j);
    if ev.Call? && ev.t in s.threads && s.threads[ev.t] == Marked(j) {
      assert WillCall(s.threads[ev.t], j);
    }
  }

  /** Every start of the run passes the guard. */
  ghost predicate Disciplined(cfg: Config, s: State, evs: seq<Event>)
    decreases |evs|
  {
    evs != [] ==>
      && (evs[0].Begin? ==> MayBegin(s, evs[0].job))
      && Disciplined(cfg, Step(cfg, s, evs[0]), evs[1..])
  }

  /**
   Over every run, serialised or not, in which no thread starts on a
   job another one has just fetched: no job is sent twice.
   */
  lemma {:induction false} CalledOnceOverRuns(cfg: Config, s: State, evs: seq<Event>)
    requires (forall j :: CallSafe(s, j)) && Disciplined(cfg, s, evs)
    ensures forall j :: CallSafe(Run(cfg, s, evs), j)
    decreases |evs|
  {
    hide CallSafe, Step, MayBegin;
    if evs != [] {
      forall j ensures CallSafe(Step(cfg, s, evs[0]), j) {
        StepKeepsCallSafe(cfg, s, evs[0], j);
      }
      CalledOnceOverRuns(cfg, Step(cfg, s, evs[0]), evs[1..]);
    }
  }

  /** No thread starts on this job in these steps. */
  predicate NoStarts(evs: seq<Event>, j: JobId) {
    forall i :: 0 <= i < |evs| ==> !(evs[i].Begin? && evs[i].job == j)
  }

  lemma {:induction false} CallSafeWithoutStarts(cfg: Config, s: State, evs: seq<Event>, j: JobId)
    requires CallSafe(s, j) && NoStarts(evs, j)
    ensures Calls(Run(cfg, s, evs).calls, j) <= 1
    decreases |evs|
  {
    hide Step, Calls;
    if evs != [] {
      StepKeepsCallSafe(cfg, s, evs[0], j);
      hide CallSafe;
      CallSafeWithoutStarts(cfg, Step(cfg, s, evs[0]), evs[1..], j);
    }
  }

  /** Two threads that both read the job as pending both send it. */
  lemma TwoThreadsCallTwice(cfg: Config, s: State, t: Thread, u: Thread, j: JobId)
    requires t != u && t in s.threads && u in s.threads && j in s.jobs
    requires s.threads[t] == Fetched(j) && s.threads[u] == Fetched(j)
    ensures exists evs :: NoStarts(evs, j) && Calls(Run(cfg, s, evs).calls, j) > 1
  {
    var r := Response(true, None, false);
    var evs := [Mark(t, 0.0), Mark(u, 0.0), Call(t, r), Call(u, r)];
    hide Conclude, DropClaim, Calls;
    var s1 := Step(cfg, s, evs[0]);
    var s2 := Step(cfg, s1, evs[1]);
    assert s2.threads[t] == Marked(j) && s2.threads[u] == Marked(j) && s2.calls == s.calls;
    var s3 := Step(cfg, s2, evs[2]);
    var s4 := Step(cfg, s3, evs[3]);
    assert s4.calls == s.calls + [j] + [j];
    RunAll(cfg, s, evs, [s1, s2, s3, s4]);
    CallsTwice(s.calls, j);
    assert NoStarts(evs, j);
  }

  lemma CallsTwice(calls: seq<JobId>, j: JobId)
    ensures Calls(calls + [j] + [j], j) == Calls(calls, j) + 2
  {
  }

  /**
   The guard is exact, in every call-safe state, serialised or not: after a thread has started on a pending job,
   no continuation without further starts on it sends it twice, if and only if no other thread has fetched it.
   */
  lemma BeginIsSafeExactly(cfg: Config, s: State, t: Thread, j: JobId, now: real)
    requires cfg.farm && CallSafe(s, j) && Enabled(cfg, s, Begin(t, j, now)) && s.jobs[j].status.Pending?
    ensures (forall evs :: NoStarts(evs, j) ==> Calls(Run(cfg, Step(cfg, s, Begin(t, j, now)), evs).calls, j) <= 1)
      <==> (forall u :: u in s.threads ==> s.threads[u] != Fetched(j))
  {
    var next := Step(cfg, s, Begin(t, j, now));
    if u :| u in s.threads && s.threads[u] == Fetched(j) {
      hide Calls, CallSafe, NoStarts;
      TwoThreadsCallTwice(cfg, next, t, u, j);
    } else {
      StepKeepsCallSafe(cfg, s, Begin(t, j, now), j);
      hide Step, Calls, CallSafe, NoStarts;
      forall evs | NoStarts(evs, j) ensures Calls(Run(cfg, next, evs).calls, j) <= 1 {
        CallSafeWithoutStarts(cfg, next, evs, j);
      }
    }
  }

  ghost predicate CalledAtMostOnce(cfg: Config) {
    forall evs, j :: Calls(Run(cfg, EMPTY, evs).calls, j) <= 1
  }

  /** With the Farm configured, no job is ever sent twice on any run exactly when the work on each job is serialised. */
  lemma OnceExactlyWhenSerial(cfg: Config)
    requires cfg.farm
    ensures CalledAtMostOnce(cfg) <==> cfg.serial
  {
    if cfg.serial {
      forall evs, j ensures Calls(Run(cfg, EMPTY, evs).calls, j) <= 1 {
        RunKeepsValid(cfg, EMPTY, evs);
        assert CallsOk(Run(cfg, EMPTY, evs), j);
      }
    } else {
      var start := [Create("j", true, None), Begin(1, "j", 0.0), Begin(2, "j", 0.0)];
      var s1 := Step(cfg, EMPTY, start[0]);
      var s2 := Step(cfg, s1, start[1]);
      var s3 := Step(cfg, s2, start[2]);
      RunAll(cfg, EMPTY, start, [s1, s2, s3]);
      TwoThreadsCallTwice(cfg, s3, 1, 2, "j");
      var evs :| NoStarts(evs, "j") && Calls(Run(cfg, s3, evs).calls, "j") > 1;
      hide Step, Calls;
      RunAppend(cfg, EMPTY, start, evs);
    }
  }

  lemma {:induction false} RunAppend(cfg: Config, s: State, a: seq<Event>, b: seq<Event>)
    ensures Run(cfg, s, a + b) == Run(cfg, Run(cfg, s, a), b)
    decreases |a|
  {
    hide Step;
    if a == [] {
      assert a + b == b;
    } else {
      assert (a + b)[1..] == a[1..] + b;
      RunAppend(cfg, Step(cfg, s, a[0]), a[1..], b);
    }
  }

  /** A run whose states are known one by one. */
  lemma {:induction false} RunAll(cfg: Config, s: State, evs: seq<Event>, states: seq<State>)
    requires |evs| == |states| > 0 && states[0] == Step(cfg, s, evs[0])
    requires forall i :: 0 < i < |evs| ==> states[i] == Step(cfg, states[i - 1], evs[i])
    ensures Run(cfg, s, evs) == states[|states| - 1]
    decreases |evs|
  {
    hide Step;
    if |evs| > 1 {
      RunAll(cfg, states[0], evs[1..], states[1..]);
    } else {
      assert evs[1..] == [];
    }
  }

  /** A finished job keeps its record for good, and is never sent again. */
  lemma {:induction false} FinishedStays(cfg: Config, s: State, evs: seq<Event>, j: JobId)
    requires cfg.serial && Valid(cfg, s) && j in s.jobs && Finished(s.jobs[j])
    ensures var t := Run(cfg, s, evs); j in t.jobs && t.jobs[j] == s.jobs[j] && Calls(t.calls, j) == Calls(s.calls, j)
    decreases |evs|
  {
    hide Valid, Step;
    if evs != [] {
      FinishedStep(cfg, s, evs[0], j);
      StepKeepsValid(cfg, s, evs[0]);
      FinishedStays(cfg, Step(cfg, s, evs[0]), evs[1..], j);
    }
  }

  lemma FinishedStep(cfg: Config, s: State, ev: Event, j: JobId)
    requires cfg.serial && Valid(cfg, s) && j in s.jobs && Finished(s.jobs[j])
    ensures var t := Step(cfg, s, ev); j in t.jobs && t.jobs[j] == s.jobs[j] && Calls(t.calls, j) == Calls(s.calls, j)
  {
    if ByThread(s, ev) {
      assert ThreadOk(cfg, s, ev.t);
    }
    hide Conclude, Calls, ReleaseOk, ClaimOk, FreedOk, CallsOk, GrantOk, UnderRelease;
    CallsGrow(s, ev, j);
  }

  /**
   In every serialised run a release names the job's own slot and
   id, and no job of unknown outcome is ever released.
   */
  lemma ReleasesAreOwn(cfg: Config, evs: seq<Event>, i: nat)
    requires cfg.serial && i < |Run(cfg, EMPTY, evs).releases|
    ensures ReleaseOk(Run(cfg, EMPTY, evs), Run(cfg, EMPTY, evs).releases[i])
  {
    RunKeepsValid(cfg, EMPTY, evs);
  }

  /**
   A slot loses its claim only to an administrator or to the
   claiming job's own release, and never to an older job.
   */
  lemma ClaimLostOnlyToItsJob(cfg: Config, s: State, ev: Event, slot: int)
    requires cfg.serial && Valid(cfg, s) && slot in s.claims
    ensures var t := Step(cfg, s, ev);
      (slot in t.claims && t.claims[slot] == s.claims[slot])
      || ev == Unclaim(slot)
      || (slot !in t.claims && ev.Release? && ev.t in s.threads && s.threads[ev.t] == Releasing(s.claims[slot])
          && ReleaseOk(s, (slot, s.claims[slot])))
  {
    if ByThread(s, ev) {
      assert ThreadOk(cfg, s, ev.t);
    }
    hide Conclude, Calls, FreedOk, CallsOk, GrantOk;
  }

  /**
   Over every serialised run: a concluded assignment that no thread serves any more still holds the claim it was
   granted, unless an administrator took it, if and only if its thread died between storing the result and the
   release, the claim came after the release, or there is no Farm.
   */
  lemma ClaimIsFreed(cfg: Config, evs: seq<Event>, j: JobId)
    requires cfg.serial
    requires var s := Run(cfg, EMPTY, evs); j in s.jobs && Concluded(s.jobs[j]) && !Busy(s, j)
    ensures var s := Run(cfg, EMPTY, evs);
      Owns(s, j) <==> j in s.granted && j !in s.removed && (j in s.abandoned || j in s.late || !cfg.farm)
  {
    RunKeepsValid(cfg, EMPTY, evs);
    var s := Run(cfg, EMPTY, evs);
    assert FreedOk(cfg, s, j) && GrantOk(s, j) && ClaimOk(s, s.jobs[j].slot.value);
    if ReleaseDue(s, j) {
      var t := DueThread(s, j);
      assert Busy(s, j);
    }
  }

  /** The job finished with a known outcome, and nobody is left to give its claim back. */
  ghost predicate Stranded(s: State, j: JobId, slot: int) {
    && j in s.jobs && Concluded(s.jobs[j])
    && slot in s.claims && s.claims[slot] == j && !Busy(s, j)
  }

  const STRAND_JOB := Job(true, Some(7), Pending, 0.0, false)
  const STRAND_REPLY := Response(true, None, false)

  /** One assignment from its creation on: fetched, marked, replied, stored; its slot is claimed or not yet. */
  function Course(i: nat, claimed: bool): State {
    var j := STRAND_JOB.(status := if i < 2 then Pending else if i < 4 then Running else Done);
    var threads :=
      if i == 0 then map[]
      else map[1 := if i == 1 then Fetched("j") else if i == 2 then Marked("j")
                    else if i == 3 then Replied("j", STRAND_REPLY) else Releasing("j")];
    State(map["j" := j], if claimed then map[7 := "j"] else map[], threads, if i < 3 then [] else ["j"], [],
          if claimed then {} else {"j"}, if claimed then {"j"} else {}, {}, {}, if i < 3 || claimed then {} else {"j"},
          {}, {}, {})
  }

  lemma CourseStart(cfg: Config, claimed: bool)
    requires cfg.farm
    ensures Step(cfg, Course(0, claimed), Begin(1, "j", 0.0)) == Course(1, claimed)
    ensures Step(cfg, Course(1, claimed), Mark(1, 0.0)) == Course(2, claimed)
  {
    hide Conclude, DropClaim, IsStale;
  }

  lemma CourseCall(cfg: Config, claimed: bool)
    ensures Step(cfg, Course(2, claimed), Call(1, STRAND_REPLY)) == Course(3, claimed)
  {
    hide DropClaim, IsStale, Started, Conclude;
    var s, t := Course(2, claimed), Course(3, claimed);
    assert s.jobs["j"] == STRAND_JOB.(status := Running) && s.calls + ["j"] == t.calls;
    assert s.threads[1 := Replied("j", STRAND_REPLY)] == t.threads;
    assert claimed || s.bare + {"j"} == t.bare;
  }

  lemma CourseApply(cfg: Config, claimed: bool)
    ensures Step(cfg, Course(3, claimed), Apply(1)) == Course(4, claimed)
  {
    hide DropClaim, IsStale, Started;
    var s, t := Course(3, claimed), Course(4, claimed);
    assert s.threads[1 := Releasing("j")] == t.threads && s.jobs["j" := t.jobs["j"]] == t.jobs;
  }

  lemma CreateAndClaim(cfg: Config)
    ensures Step(cfg, EMPTY, Create("j", true, Some(7))) == Course(0, false)
    ensures Step(cfg, Course(0, false), Claim("j")) == Course(0, true)
  {
    hide Conclude, DropClaim, Started;
  }

  lemma CrashEnd(cfg: Config)
    ensures var end := Step(cfg, Course(4, true), Crash); Stranded(end, "j", 7) && "j" in end.abandoned
  {
    assert Course(4, true).threads[1].Releasing?;
  }

  const COURSE: seq<Event> := [Begin(1, "j", 0.0), Mark(1, 0.0), Call(1, STRAND_REPLY), Apply(1)]

  lemma CourseRun(cfg: Config, before: seq<Event>, claimed: bool)
    requires cfg.farm && Run(cfg, EMPTY, before) == Course(0, claimed)
    ensures Run(cfg, EMPTY, before + COURSE) == Course(4, claimed)
  {
    CourseStart(cfg, claimed);
    CourseCall(cfg, claimed);
    CourseApply(cfg, claimed);
    hide Step, Course;
    RunAll(cfg, Course(0, claimed), COURSE,
      [Course(1, claimed), Course(2, claimed), Course(3, claimed), Course(4, claimed)]);
    RunAppend(cfg, EMPTY, before, COURSE);
  }

  /** A crash between storing the result and dropping the claim strands the claim. */
  lemma CrashStrandsClaim(cfg: Config)
    requires cfg.farm
    ensures exists evs :: Stranded(Run(cfg, EMPTY, evs), "j", 7) && "j" in Run(cfg, EMPTY, evs).abandoned
  {
    CreateAndClaim(cfg);
    CrashEnd(cfg);
    hide Step, Course, Stranded;
    var before := [Create("j", true, Some(7)), Claim("j")];
    RunAll(cfg, EMPTY, before, [Course(0, false), Course(0, true)]);
    CourseRun(cfg, before, true);
    RunAll(cfg, Course(4, true), [Crash], [Step(cfg, Course(4, true), Crash)]);
    RunAppend(cfg, EMPTY, before + COURSE, [Crash]);
  }

  lemma LateEnd(cfg: Config)
    ensures var end := Step(cfg, Step(cfg, Course(4, false), Release(1)), Claim("j"));
      Stranded(end, "j", 7) && end.abandoned == {}
  {
    var freed := Step(cfg, Course(4, false), Release(1));
    assert freed.claims == map[] && freed.threads == map[] && "j" in freed.claiming;
  }

  /**
   The loop can finish a job before the request that created it has
   claimed its slot: no thread dies, the claim is stranded.
   */
  lemma LateClaimStrandsClaim(cfg: Config)
    requires cfg.farm
    ensures exists evs :: Stranded(Run(cfg, EMPTY, evs), "j", 7) && Run(cfg, EMPTY, evs).abandoned == {}
  {
    CreateAndClaim(cfg);
    LateEnd(cfg);
    hide Step, Course, Stranded;
    var before, after := [Create("j", true, Some(7))], [Release(1), Claim("j")];
    RunAll(cfg, EMPTY, before, [Course(0, false)]);
    CourseRun(cfg, before, false);
    var freed := Step(cfg, Course(4, false), Release(1));
    RunAll(cfg, Course(4, false), after, [freed, Step(cfg, freed, Claim("j"))]);
    RunAppend(cfg, EMPTY, before + COURSE, after);
  }

  /** A stranded claim stays until an administrator removes it: no recovery looks at finished jobs. */
  lemma {:induction false} StrandedForGood(cfg: Config, s: State, evs: seq<Event>, j: JobId, slot: int)
    requires cfg.serial && Valid(cfg, s) && Stranded(s, j, slot)
    requires Unclaim(slot) !in evs
    ensures Stranded(Run(cfg, s, evs), j, slot)
    decreases |evs|
  {
    hide Valid, Step, Stranded;
    if evs != [] {
      StrandedStep(cfg, s, evs[0], j, slot);
      StepKeepsValid(cfg, s, evs[0]);
      StrandedForGood(cfg, Step(cfg, s, evs[0]), evs[1..], j, slot);
    }
  }

  lemma StrandedStep(cfg: Config, s: State, ev: Event, j: JobId, slot: int)
    requires cfg.serial && Valid(cfg, s) && Stranded(s, j, slot) && ev != Unclaim(slot)
    ensures Stranded(Step(cfg, s, ev), j, slot)
  {
    if ByThread(s, ev) {
      assert ThreadOk(cfg, s, ev.t);
    }
    FinishedStep(cfg, s, ev, j);
    hide Conclude, Calls, FreedOk, CallsOk, ReleaseOk, GrantOk, UnderRelease, Valid, ClaimOk, IsStale;
    var t := Step(cfg, s, ev);
    forall u | u in t.threads ensures t.threads[u].job != j {
      assert u in s.threads ==> s.threads[u].job != j;
    }
  }

  /** Without a Farm the worker fails pending jobs and leaves their claims behind. */
  lemma MissingFarmStrandsClaim(cfg: Config, s: State, t: Thread, j: JobId, now: real)
    requires !cfg.farm && t !in s.threads && !Busy(s, j)
    requires j in s.jobs && s.jobs[j].status.Pending? && s.jobs[j].assign && !s.jobs[j].unknown && Owns(s, j)
    ensures Stranded(Step(cfg, s, Begin(t, j, now)), j, s.jobs[j].slot.value)
  {
  }

  // ----- the worker object -----------------------------------------------

  /** A job and the claims after its answer has been applied. */
  function AfterAnswer(job: Job, claims: map<int, JobId>, j: JobId, r: Response): (Job, map<int, JobId>) {
    var end := Conclude(job, r);
    (job.(status := end.status, unknown := end.unknown),
     if end.release && job.slot.Some? then DropClaim(claims, job.slot.value, j) else claims)
  }

  /** What recovery makes of a running job: nothing while it is young; else the cached answer, or unknown. */
  function AfterRecovery(cfg: Config, job: Job, claims: map<int, JobId>, j: JobId, now: real, found: Option<Response>)
    : (Job, map<int, JobId>)
  {
    if !job.status.Running? || !IsStale(cfg, job, now) then (job, claims)
    else if !job.assign || found.None? || !cfg.farm then (Unverified(job), claims)
    else AfterAnswer(job, claims, j, found.value)
  }

  /** The answer says that the installation failed, or says nothing known and is no success. */
  ghost predicate ReadsAsFailure(r: Response) {
    r.state == Some(Failure) || (r.state.None? && !r.ok)
  }

  /**
   How an answer ends a job. An assignment is unknown when the answer says so, or reads as a failure after the code
   was sent, and failed when it reads as a failure with nothing sent; another job fails when the answer is not ok.
   */
  ghost predicate EndedAs(job: Job, r: Response, after: Job) {
    && after.assign == job.assign && after.slot == job.slot && (after.status.Done? || after.status.Failed?)
    && (after.unknown <==> job.assign && (r.state == Some(Unknown) || (ReadsAsFailure(r) && r.sent)))
    && (after.status.Failed? <==> if job.assign then ReadsAsFailure(r) && !r.sent else !r.ok)
  }

  /**
   The claim of an assignment goes with a known outcome if the slot
   is claimed under its own id, and never otherwise.
   */
  ghost predicate ClaimsLeft(after: Job, before: map<int, JobId>, j: JobId, left: map<int, JobId>) {
    left ==
      if after.assign && after.slot.Some? && !after.unknown && after.slot.value in before
         && before[after.slot.value] == j then before - {after.slot.value}
      else before
  }

  lemma AnswerExact(job: Job, claims: map<int, JobId>, j: JobId, r: Response)
    ensures var (after, left) := AfterAnswer(job, claims, j, r);
      EndedAs(job, r, after) && ClaimsLeft(after, claims, j, left)
  {
  }

  /**
   What recovery does to a job: only a running one that has gone
   stale is settled, from the Farm's cache if it can be.
   */
  ghost predicate RecoveredAs(cfg: Config, job: Job, now: real, found: Option<Response>, after: Job) {
    if !job.status.Running? || now - job.startedAt < cfg.staleSeconds then after == job
    else if job.assign && cfg.farm && found.Some? then EndedAs(job, found.value, after)
    else after == job.(status := Done, unknown := true)
  }

  lemma RecoveryExact(cfg: Config, job: Job, claims: map<int, JobId>, j: JobId, now: real, found: Option<Response>)
    ensures var (after, left) := AfterRecovery(cfg, job, claims, j, now, found);
      && RecoveredAs(cfg, job, now, found, after)
      && (if after == job || after.unknown then left == claims else ClaimsLeft(after, claims, j, left))
  {
    if found.Some? {
      AnswerExact(job, claims, j, found.value);
    }
  }

  class VpsJobWorker {
    const cfg: Config
    var jobs: map<JobId, Job>
    var claims: map<int, JobId>
    ghost var world: State

    ghost predicate Coupled()
      reads this
    {
      cfg.serial && world.jobs == jobs && world.claims == claims && world.threads == map[] && Valid(cfg, world)
    }

    /** A worker started on the stores a previous one left behind: threads are gone, nothing else. */
    constructor (cfg: Config, jobs: map<JobId, Job>, claims: map<int, JobId>, ghost before: State)
      requires cfg.serial && Valid(cfg, before) && before.jobs == jobs && before.claims == claims
      ensures Coupled() && this.cfg == cfg && this.jobs == jobs && this.claims == claims
      ensures world == Step(cfg, before, Crash)
    {
      StepKeepsValid(cfg, before, Crash);
      this.cfg, this.jobs, this.claims := cfg, jobs, claims;
      world := Step(cfg, before, Crash);
    }

    ghost method Advance(ev: Event)
      requires cfg.serial && Valid(cfg, world)
      modifies this`world
      ensures world == Step(cfg, old(world), ev) && Valid(cfg, world)
    {
      StepKeepsValid(cfg, world, ev);
      world := Step(cfg, world, ev);
    }

    /** Stores the answer's ending, then drops the claim under the job's own id. */
    method ApplyFarmResponse(j: JobId, response: Response)
      requires cfg.serial && Valid(cfg, world) && world.jobs == jobs && world.claims == claims
      requires world.threads == map[0 := Replied(j, response)] && j in jobs
      modifies this
      ensures Coupled() && world.calls == old(world).calls
      ensures jobs == old(jobs)[j := AfterAnswer(old(jobs)[j], old(claims), j, response).0]
      ensures claims == AfterAnswer(old(jobs)[j], old(claims), j, response).1
      ensures EndedAs(old(jobs)[j], response, jobs[j]) && ClaimsLeft(jobs[j], old(claims), j, claims)
    {
      hide Valid, Conclude, EndedAs, ClaimsLeft;
      AnswerExact(jobs[j], claims, j, response);
      ConcludeMeaning();
      var job := jobs[j];
      var end := Conclude(job, response);
      Advance(Apply(0));
      jobs := jobs[j := job.(status := end.status, unknown := end.unknown)];
      if end.release {
        assert world.threads == map[0 := Releasing(j)];
        Advance(Release(0));
        if job.slot.value in claims && claims[job.slot.value] == j {
          claims := claims - {job.slot.value};
        }
      }
      assert world.threads == map[];
    }

    method ProcessJob(j: JobId, now: real, response: Response, found: Option<Response>) returns (called: bool)
      requires Coupled()
      modifies this
      ensures Coupled()
      ensures called <==> j in old(jobs) && old(jobs)[j].status.Pending? && cfg.farm
      ensures world.calls == if called then old(world).calls + [j] else old(world).calls
      ensures j !in old(jobs) ==> jobs == old(jobs) && claims == old(claims)
      ensures j in old(jobs) ==>
        var job := old(jobs)[j];
        (jobs, claims) ==
          if job.status.Pending? && cfg.farm then
            var (ended, left) := AfterAnswer(job.(startedAt := now, status := Running), old(claims), j, response);
            (old(jobs)[j := ended], left)
          else if job.status.Pending? then (old(jobs)[j := job.(status := Failed)], old(claims))
          else
            var (ended, left) := AfterRecovery(cfg, job, old(claims), j, now, found);
            (old(jobs)[j := ended], left)
      ensures called ==> EndedAs(old(jobs)[j], response, jobs[j]) && ClaimsLeft(jobs[j], old(claims), j, claims)
      ensures j in old(jobs) && old(jobs)[j].status.Pending? && !cfg.farm ==>
        jobs[j] == old(jobs)[j].(status := Failed) && claims == old(claims)
      ensures j in old(jobs) && !old(jobs)[j].status.Pending? ==> RecoveredAs(cfg, old(jobs)[j], now, found, jobs[j])
    {
      hide Valid, Conclude, AfterAnswer, IsStale, DropClaim, ClaimsLeft, RecoveredAs;
      if j !in jobs {
        return false;
      }
      if !jobs[j].status.Pending? {
        RecoverRunningJob(j, now, found);
        return false;
      }
      Advance(Begin(0, j, now));
      if !cfg.farm {
        jobs := jobs[j := jobs[j].(status := Failed)];
        return false;
      }
      assert world.threads == map[0 := Fetched(j)];
      Advance(Mark(0, now));
      jobs := jobs[j := jobs[j].(status := Running, startedAt := now)];
      assert world.threads == map[0 := Marked(j)];
      Advance(Call(0, response));
      assert world.threads == map[0 := Replied(j, response)];
      ghost var begun := old(jobs)[j].(status := Running, startedAt := now);
      assert jobs == old(jobs)[j := begun];
      ApplyFarmResponse(j, response);
      ghost var ended := AfterAnswer(begun, old(claims), j, response).0;
      assert old(jobs)[j := begun][j := ended] == old(jobs)[j := ended];
      return true;
    }

    method RecoverRunningJob(j: JobId, now: real, found: Option<Response>)
      requires Coupled() && j in jobs
      modifies this
      ensures Coupled() && world.calls == old(world).calls
      ensures var (ended, left) := AfterRecovery(cfg, old(jobs)[j], old(claims), j, now, found);
        jobs == old(jobs)[j := ended] && claims == left
      ensures RecoveredAs(cfg, old(jobs)[j], now, found, jobs[j])
      ensures if jobs[j] == old(jobs)[j] || jobs[j].unknown then claims == old(claims)
              else ClaimsLeft(jobs[j], old(claims), j, claims)
    {
      hide Valid, Conclude, AfterAnswer, DropClaim, EndedAs, ClaimsLeft, RecoveredAs;
      var job := jobs[j];
      RecoveryExact(cfg, job, claims, j, now, found);
      assert jobs[j := job] == jobs;
      if !job.status.Running? || now - job.startedAt < cfg.staleSeconds {
        return;
      }
      Advance(Begin(0, j, now));
      if !job.assign {
        jobs := jobs[j := Unverified(job)];
        return;
      }
      assert world.threads == map[0 := Looking(j)];
      Advance(Look(0, found));
      if found.None? || !cfg.farm {
        jobs := jobs[j := Unverified(job)];
        assert world.threads == map[];
        return;
      }
      assert world.threads == map[0 := Replied(j, found.value)];
      ApplyFarmResponse(j, found.value);
    }

    /**
     One pass of the loop: first the jobs found running, then the pending ones. Each pending job is sent once and
     ends, each stale running one ends without being sent, and all others are left as they are.
     */
    method PollOnce(running: seq<JobId>, pending: seq<JobId>, now: real,
                    answers: JobId -> Response, cache: JobId -> Option<Response>)
      requires Coupled()
      modifies this
      ensures Coupled() && jobs.Keys == old(jobs).Keys
      ensures forall j :: j in old(jobs) ==> Passed(old(jobs)[j], j in running, j in pending, now, jobs[j])
      ensures forall j :: j in old(jobs) ==>
        Calls(world.calls, j) == Calls(old(world).calls, j)
          + if j in pending && old(jobs)[j].status.Pending? && cfg.farm then 1 else 0
    {
      hide Valid, Passed, Calls;
      RecoverListed(running, now, cache);
      ProcessListed(old(jobs), running, pending, now, answers, cache);
    }

    method RecoverListed(running: seq<JobId>, now: real, cache: JobId -> Option<Response>)
      requires Coupled()
      modifies this
      ensures Coupled() && world.calls == old(world).calls && jobs.Keys == old(jobs).Keys
      ensures forall j :: j in old(jobs) ==> Passed(old(jobs)[j], j in running, false, now, jobs[j])
    {
      hide Valid, AfterAnswer, AfterRecovery, RecoveredAs, ClaimsLeft, Passed;
      PassStarts(now);
      for i := 0 to |running|
        invariant Coupled() && world.calls == old(world).calls && jobs.Keys == old(jobs).Keys
        invariant forall j :: j in old(jobs) ==> Passed(old(jobs)[j], j in running[..i], false, now, jobs[j])
      {
        var j := running[i];
        ghost var before := jobs;
        if j in jobs {
          RecoverRunningJob(j, now, cache(j));
          PassRecovers(old(jobs)[j], j in running[..i], false, now, before[j], cache(j), jobs[j]);
        }
        assert forall k :: k in running[..i + 1] <==> k in running[..i] || k == j;
      }
      assert running[..|running|] == running;
    }

    method ProcessListed(ghost start: map<JobId, Job>, ghost running: seq<JobId>, pending: seq<JobId>, now: real,
                         answers: JobId -> Response, cache: JobId -> Option<Response>)
      requires Coupled() && jobs.Keys == start.Keys
      requires forall j :: j in start ==> Passed(start[j], j in running, false, now, jobs[j])
      modifies this
      ensures Coupled() && jobs.Keys == start.Keys
      ensures forall j :: j in start ==> Passed(start[j], j in running, j in pending, now, jobs[j])
      ensures forall j :: j in start ==>
        Calls(world.calls, j) == Calls(old(world).calls, j) + Sent(start[j], j in pending)
    {
      hide Valid, AfterAnswer, AfterRecovery, RecoveredAs, EndedAs, ClaimsLeft, Passed, Calls;
      for i := 0 to |pending|
        invariant Coupled() && jobs.Keys == start.Keys
        invariant forall j :: j in start ==> Passed(start[j], j in running, j in pending[..i], now, jobs[j])
        invariant forall j :: j in start ==>
          Calls(world.calls, j) == Calls(old(world).calls, j) + Sent(start[j], j in pending[..i])
      {
        var j := pending[i];
        ghost var before, calls := jobs, world.calls;
        var called := ProcessJob(j, now, answers(j), cache(j));
        CallOnce(calls, j);
        if j in before {
          PassProcesses(start[j], j in running, j in pending[..i], now, before[j],
                        called, answers(j), cache(j), jobs[j]);
        }
        assert forall k :: k in pending[..i + 1] <==> k in pending[..i] || k == j;
      }
      assert pending[..|pending|] == pending;
    }

    function Sent(job: Job, listed: bool): nat {
      if listed && job.status.Pending? && cfg.farm then 1 else 0
    }

    /** What a pass makes of a job, by the list it was on. */
    ghost predicate Passed(job: Job, recovered: bool, processed: bool, now: real, after: Job) {
      if job.status.Pending? then
        if processed then (if cfg.farm then Finished(after) else after == job.(status := Failed)) else after == job
      else if !job.status.Running? || now - job.startedAt < cfg.staleSeconds then after == job
      else if recovered || processed then Finished(after)
      else after == job
    }

    lemma PassStarts(now: real)
      ensures forall job: Job :: Passed(job, false, false, now, job)
    {
    }

    lemma PassRecovers(job: Job, recovered: bool, processed: bool, now: real, before: Job, found: Option<Response>,
                       after: Job)
      requires Passed(job, recovered, processed, now, before) && RecoveredAs(cfg, before, now, found, after)
      requires job.status.Pending? ==> !processed
      ensures Passed(job, true, processed, now, after)
    {
    }

    lemma PassProcesses(job: Job, recovered: bool, processed: bool, now: real, before: Job, called: bool,
                        answer: Response, found: Option<Response>, after: Job)
      requires Passed(job, recovered, processed, now, before)
      requires called <==> before.status.Pending? && cfg.farm
      requires called ==> EndedAs(before, answer, after)
      requires before.status.Pending? && !cfg.farm ==> after == before.(status := Failed)
      requires !before.status.Pending? ==> RecoveredAs(cfg, before, now, found, after)
      ensures Passed(job, recovered, true, now, after)
      ensures called <==> job.status.Pending? && !processed && cfg.farm
    {
    }
  }

  lemma CallOnce(calls: seq<JobId>, j: JobId)
    ensures forall k :: Calls(calls + [j], k) == Calls(calls, k) + if k == j then 1 else 0
  {
  }
}
