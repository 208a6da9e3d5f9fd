/** How jobs end, over whole runs: which answer, or which lack of one, stands behind a finished job. */
module JobOutcomes {
  import opened Basics
  import opened JobWorker

  /**
   This step ends the job with this record: by an answer, as the answer says; by a look into the Farm's cache that
   finds nothing; by a recovery of what is no assignment; or, without a Farm, unsent.
   */
  ghost predicate EndsBy(cfg: Config, s: State, ev: Event, j: JobId, after: Job)
    requires j in s.jobs
  {
    var job := s.jobs[j];
    match ev
    case Apply(t) =>
      && t in s.threads && s.threads[t].Replied? && s.threads[t].job == j
      && EndedAs(job, s.threads[t].response, after)
    case Look(t, found) =>
      && t in s.threads && s.threads[t] == Looking(j) && (found.None? || !cfg.farm)
      && after == job.(status := Done, unknown := true)
    case Begin(_, k, now) =>
      && k == j
      && if job.status.Pending? then !cfg.farm && after == job.(status := Failed)
         else !job.assign && now - job.startedAt >= cfg.staleSeconds && after == job.(status := Done, unknown := true)
    case _ => false
  }

  /** One step ends a job in one of these ways or not at all. */
  lemma EndingExact(cfg: Config, s: State, ev: Event, j: JobId)
    requires j in s.jobs && !Finished(s.jobs[j])
    ensures var t := Step(cfg, s, ev);
      j in t.jobs && (Finished(t.jobs[j]) <==> EndsBy(cfg, s, ev, j, t.jobs[j]))
  {
    if ev.Apply? && ev.t in s.threads && s.threads[ev.t].Replied? && s.threads[ev.t].job == j {
      AnswerExact(s.jobs[j], s.claims, j, s.threads[ev.t].response);
    }
    hide Conclude, UnderRelease, DropClaim, Busy, EndedAs, ClaimsLeft;
    ConcludeMeaning();
    EndedMeaning();
  }

  lemma EndedMeaning()
    ensures forall job: Job, r: Response, after: Job :: EndedAs(job, r, after) ==> Finished(after)
  {
  }

  /** At the `i`-th step of the run the job ended with this record. */
  ghost predicate EndedThere(cfg: Config, evs: seq<Event>, i: nat, j: JobId, after: Job) {
    && i < |evs|
    && var s := Run(cfg, EMPTY, evs[..i]);
      j in s.jobs && !Finished(s.jobs[j]) && EndsBy(cfg, s, evs[i], j, after)
  }

  /**
   Over every serialised run: a finished job has the record one
   step of the run ended it with, in one of those ways.
   */
  lemma {:induction false} HowJobsEnd(cfg: Config, evs: seq<Event>, j: JobId) returns (i: nat)
    requires cfg.serial
    requires var s := Run(cfg, EMPTY, evs); j in s.jobs && Finished(s.jobs[j])
    ensures EndedThere(cfg, evs, i, j, Run(cfg, EMPTY, evs).jobs[j])
    decreases |evs|
  {
    var n := |evs| - 1;
    var init := evs[..n];
    RunSnoc(cfg, evs);
    RunKeepsValid(cfg, EMPTY, init);
    hide Step, Valid, EndsBy;
    var s := Run(cfg, EMPTY, init);
    if j in s.jobs && Finished(s.jobs[j]) {
      FinishedStep(cfg, s, evs[n], j);
      i := HowJobsEnd(cfg, init, j);
      assert init[..i] == evs[..i];
    } else {
      i := n;
      if j !in s.jobs {
        NotCreatedFinished(cfg, s, evs[n], j);
        assert false;
      }
      EndingExact(cfg, s, evs[n], j);
    }
  }

  lemma NotCreatedFinished(cfg: Config, s: State, ev: Event, j: JobId)
    requires j !in s.jobs
    ensures j in Step(cfg, s, ev).jobs ==> !Finished(Step(cfg, s, ev).jobs[j])
  {
    hide Conclude, UnderRelease, DropClaim, Busy, IsStale;
  }

  lemma RunSnoc(cfg: Config, evs: seq<Event>)
    requires evs != []
    ensures Run(cfg, EMPTY, evs) == Step(cfg, Run(cfg, EMPTY, evs[..|evs| - 1]), evs[|evs| - 1])
  {
    hide Step;
    var init, last := evs[..|evs| - 1], evs[|evs| - 1];
    RunAppend(cfg, EMPTY, init, [last]);
    assert evs == init + [last];
    RunAll(cfg, Run(cfg, EMPTY, init), [last], [Step(cfg, Run(cfg, EMPTY, init), last)]);
  }

  /**
   Over every serialised run: a job stored as unknown keeps the claim
   it was granted, unless an administrator takes it.
   */
  lemma UnknownKeepsItsClaim(cfg: Config, evs: seq<Event>, j: JobId)
    requires cfg.serial
    requires var s := Run(cfg, EMPTY, evs); j in s.jobs && s.jobs[j].unknown && j in s.granted && j !in s.removed
    ensures var s := Run(cfg, EMPTY, evs); var slot := s.jobs[j].slot;
      slot.Some? && slot.value in s.claims && s.claims[slot.value] == j && (slot.value, j) !in s.releases
  {
    RunKeepsValid(cfg, EMPTY, evs);
    var s := Run(cfg, EMPTY, evs);
    assert GrantOk(s, j);
    if Released(s, j) {
      ReleasedConcluded(cfg, s, j);
    }
  }
}
