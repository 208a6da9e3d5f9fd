/**
 Which assignments are sent to the Farm without a claim on their slot. A job is stored before its
 request claims the slot, and a request that is refused the slot leaves the stored job to the worker.
 */
module JobClaims {
  import opened Basics
  import opened JobWorker

  // ----- the fate of a claim ---------------------------------------------

  /** The request of a stored assignment is yet to claim, was granted the slot, was refused it, or died first. */
  ghost predicate FateOk(s: State, j: JobId) {
    && (j in s.claiming || j in s.granted || j in s.refused || j in s.dropped <==> j in s.jobs && NeedsClaim(s.jobs[j]))
    && (j in s.claiming ==> j !in s.granted && j !in s.refused && j !in s.dropped)
    && (j in s.granted ==> j !in s.refused && j !in s.dropped)
    && (j in s.refused ==> j !in s.dropped)
  }

  /** An assignment is on record as sent bare if it was sent and its claim is not granted; only sent ones are. */
  ghost predicate SentOk(s: State, j: JobId) {
    && (j in s.calls ==> j in s.jobs)
    && (j in s.bare ==> j in s.calls && NeedsClaim(s.jobs[j]))
    && (j in s.calls && NeedsClaim(s.jobs[j]) && j !in s.granted ==> j in s.bare)
  }

  /** Jobs are kept, and what was asked for never changes. */
  lemma StepKeepsJob(cfg: Config, s: State, ev: Event, j: JobId)
    requires j in s.jobs
    ensures var t := Step(cfg, s, ev);
      j in t.jobs && t.jobs[j].assign == s.jobs[j].assign && t.jobs[j].slot == s.jobs[j].slot
  {
    hide Conclude, UnderRelease, DropClaim, IsStale, Busy;
  }

  lemma StepAddsJob(cfg: Config, s: State, ev: Event, j: JobId)
    requires j !in s.jobs
    ensures var t := Step(cfg, s, ev);
      j in t.jobs ==> ev.Create? && ev.job == j && t.jobs[j] == Job(ev.assign, ev.slot, Pending, 0.0, false)
  {
    hide Conclude, UnderRelease, DropClaim, IsStale, Busy;
  }

  lemma StepKeepsFate(cfg: Config, s: State, ev: Event, j: JobId)
    requires FateOk(s, j)
    ensures FateOk(Step(cfg, s, ev), j)
  {
    if j in s.jobs {
      StepKeepsJob(cfg, s, ev, j);
    } else {
      StepAddsJob(cfg, s, ev, j);
    }
    hide Conclude, UnderRelease, DropClaim, IsStale, Busy, Started;
  }

  lemma StepKeepsSent(cfg: Config, s: State, ev: Event, j: JobId)
    requires SentOk(s, j) && FateOk(s, j)
    ensures SentOk(Step(cfg, s, ev), j)
  {
    if j in s.jobs {
      StepKeepsJob(cfg, s, ev, j);
    } else {
      StepAddsJob(cfg, s, ev, j);
    }
    hide Conclude, UnderRelease, DropClaim, IsStale, Busy, Started;
  }

  lemma {:induction false} RunKeepsFates(cfg: Config, s: State, evs: seq<Event>, j: JobId)
    requires FateOk(s, j) && SentOk(s, j)
    ensures FateOk(Run(cfg, s, evs), j) && SentOk(Run(cfg, s, evs), j)
    decreases |evs|
  {
    hide Step, FateOk, SentOk;
    if evs != [] {
      StepKeepsFate(cfg, s, evs[0], j);
      StepKeepsSent(cfg, s, evs[0], j);
      RunKeepsFates(cfg, Step(cfg, s, evs[0]), evs[1..], j);
    }
  }

  /**
   Over every run, serialised or not: the claim of a stored assignment has exactly one of four fates, and an
   assignment that was sent but never granted its slot was sent while its request was refused, still at it, or gone.
   */
  lemma SentUngrantedIsBare(cfg: Config, evs: seq<Event>, j: JobId)
    ensures var s := Run(cfg, EMPTY, evs); FateOk(s, j) && SentOk(s, j)
  {
    RunKeepsFates(cfg, EMPTY, evs, j);
  }

  // ----- exactly when a job is sent bare ---------------------------------

  lemma {:induction false} GrantedIsNeverBare(cfg: Config, s: State, evs: seq<Event>, j: JobId)
    requires j in s.granted && j !in s.bare
    ensures j !in Run(cfg, s, evs).bare
    decreases |evs|
  {
    if evs != [] {
      GrantStays(cfg, s, evs[0], j);
      hide Step;
      GrantedIsNeverBare(cfg, Step(cfg, s, evs[0]), evs[1..], j);
    }
  }

  lemma GrantStays(cfg: Config, s: State, ev: Event, j: JobId)
    requires j in s.granted
    ensures j in Step(cfg, s, ev).granted && (j in Step(cfg, s, ev).bare ==> j in s.bare)
  {
    hide Conclude, UnderRelease, DropClaim, IsStale, Busy;
  }

  const ACCEPTED := Response(true, None, false)

  /** A thread that has read an unclaimed assignment as pending can send it before anything else happens. */
  lemma FetchedIsSent(cfg: Config, s: State, t: Thread, j: JobId)
    requires t in s.threads && s.threads[t] == Fetched(j)
    requires j in s.jobs && NeedsClaim(s.jobs[j]) && j !in s.granted
    ensures var end := Run(cfg, s, [Mark(t, 0.0), Call(t, ACCEPTED)]);
      j in end.bare && end.calls == s.calls + [j] && end.claims == s.claims && end.refused == s.refused
  {
    hide Conclude, UnderRelease, DropClaim, IsStale, Busy;
    var evs := [Mark(t, 0.0), Call(t, ACCEPTED)];
    var s1 := Step(cfg, s, evs[0]);
    var s2 := Step(cfg, s1, evs[1]);
    RunAll(cfg, s, evs, [s1, s2]);
  }

  /**
   In every state, serialised or not: once a thread has started on a pending assignment, some continuation sends it
   without a granted claim, if and only if its claim had not been granted when the thread started.
   */
  lemma SentBareExactly(cfg: Config, s: State, t: Thread, j: JobId, now: real)
    requires cfg.farm && Enabled(cfg, s, Begin(t, j, now)) && s.jobs[j].status.Pending? && NeedsClaim(s.jobs[j])
    requires j !in s.bare
    ensures (exists evs :: j in Run(cfg, Step(cfg, s, Begin(t, j, now)), evs).bare) <==> j !in s.granted
  {
    var next := Step(cfg, s, Begin(t, j, now));
    assert next == s.(threads := s.threads[t := Fetched(j)]);
    hide Step;
    if j in s.granted {
      forall evs ensures j !in Run(cfg, next, evs).bare {
        GrantedIsNeverBare(cfg, next, evs, j);
      }
    } else {
      FetchedIsSent(cfg, next, t, j);
    }
  }

  /** A thread may start on this job: if it is a pending assignment, its claim was granted. */
  predicate HasClaim(s: State, j: JobId) {
    j in s.jobs && s.jobs[j].status.Pending? && NeedsClaim(s.jobs[j]) ==> j in s.granted
  }

  /** No thread starts on a pending assignment before its claim was granted. */
  ghost predicate ClaimedFirst(cfg: Config, s: State, evs: seq<Event>)
    decreases |evs|
  {
    evs != [] ==>
      && (evs[0].Begin? ==> HasClaim(s, evs[0].job))
      && ClaimedFirst(cfg, Step(cfg, s, evs[0]), evs[1..])
  }

  /** Whoever is about to send an assignment has its claim. */
  ghost predicate Covered(s: State, j: JobId) {
    && j !in s.bare
    && (forall t :: t in s.threads && WillCall(s.threads[t], j) ==>
      j in s.jobs && (NeedsClaim(s.jobs[j]) ==> j in s.granted))
  }

  lemma StepKeepsCovered(cfg: Config, s: State, ev: Event, j: JobId)
    requires Covered(s, j)
    requires ev.Begin? && ev.job == j ==> HasClaim(s, j)
    ensures Covered(Step(cfg, s, ev), j)
  {
    hide Conclude, UnderRelease, DropClaim, IsStale, Busy;
    if j in s.jobs {
      StepKeepsJob(cfg, s, ev, j);
    }
    if j in s.granted {
      GrantStays(cfg, s, ev, j);
    }
    if ev.Call? && ev.t in s.threads {
      assert s.threads[ev.t] == Marked(j) ==> WillCall(s.threads[ev.t], j);
    }
  }

  /**
   Over every run, serialised or not, in which threads start only on
   claimed assignments: none is sent without its claim.
   */
  lemma {:induction false} ClaimedFirstNeverBare(cfg: Config, s: State, evs: seq<Event>, j: JobId)
    requires Covered(s, j) && ClaimedFirst(cfg, s, evs)
    ensures Covered(Run(cfg, s, evs), j)
    decreases |evs|
  {
    hide Step, Covered;
    if evs != [] {
      StepKeepsCovered(cfg, s, evs[0], j);
      ClaimedFirstNeverBare(cfg, Step(cfg, s, evs[0]), evs[1..], j);
    }
  }

  // ----- a refused job is sent -------------------------------------------

  /** The slot belongs to the first job; the second was sent although its request was refused the slot. */
  ghost predicate SentAgainstClaim(s: State, first: JobId, second: JobId, slot: int) {
    && slot in s.claims && s.claims[slot] == first && second in s.refused
    && second in s.bare && second in s.jobs && s.jobs[second].slot == Some(slot)
  }

  /**
   Two requests that both passed the checks store their jobs and then
   claim the slot: the loser's job is sent all the same.
   */
  lemma RefusedJobIsSent(cfg: Config)
    requires cfg.farm
    ensures exists evs :: SentAgainstClaim(Run(cfg, EMPTY, evs), "j", "k", 7)
  {
    var start := [Create("j", true, Some(7)), Create("k", true, Some(7)), Claim("j"), Claim("k"), Begin(1, "k", 0.0)];
    var s := RefusedAndFetched(cfg);
    FetchedIsSent(cfg, s, 1, "k");
    var rest := [Mark(1, 0.0), Call(1, ACCEPTED)];
    JobStays(cfg, s, rest, "k");
    hide Step, Run;
    RunAppend(cfg, EMPTY, start, rest);
    assert SentAgainstClaim(Run(cfg, EMPTY, start + rest), "j", "k", 7);
  }

  lemma RefusedAndFetched(cfg: Config) returns (s: State)
    requires cfg.farm
    ensures s == Run(cfg, EMPTY,
      [Create("j", true, Some(7)), Create("k", true, Some(7)), Claim("j"), Claim("k"), Begin(1, "k", 0.0)])
    ensures s.claims == map[7 := "j"] && s.refused == {"k"} && s.granted == {"j"} && s.threads == map[1 := Fetched("k")]
    ensures "k" in s.jobs && s.jobs["k"].assign && s.jobs["k"].slot == Some(7)
  {
    hide Conclude, UnderRelease, DropClaim, IsStale;
    var evs := [Create("j", true, Some(7)), Create("k", true, Some(7)), Claim("j"), Claim("k"), Begin(1, "k", 0.0)];
    var s1 := Step(cfg, EMPTY, evs[0]);
    var s2 := Step(cfg, s1, evs[1]);
    var s3 := Step(cfg, s2, evs[2]);
    var s4 := Step(cfg, s3, evs[3]);
    s := Step(cfg, s4, evs[4]);
    RunAll(cfg, EMPTY, evs, [s1, s2, s3, s4, s]);
  }

  lemma {:induction false} JobStays(cfg: Config, s: State, evs: seq<Event>, j: JobId)
    requires j in s.jobs
    ensures j in Run(cfg, s, evs).jobs && Run(cfg, s, evs).jobs[j].slot == s.jobs[j].slot
    decreases |evs|
  {
    hide Step;
    if evs != [] {
      StepKeepsJob(cfg, s, evs[0], j);
      JobStays(cfg, Step(cfg, s, evs[0]), evs[1..], j);
    }
  }
}
