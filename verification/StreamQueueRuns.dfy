/** Theorems about whole runs of the customer stream queue. */
module StreamQueueRuns {
  import opened Basics
  import opened StreamQueueModel
  import opened StreamQueueSteps

  datatype Timed = Timed(event: Event, at: real)

  function Run(cfg: Config, s: State, evs: seq<Timed>): State
    decreases |evs|
  {
    if evs == [] then s else Run(cfg, Step(cfg, s, evs[0].event, evs[0].at), evs[1..])
  }

  /** The clock never goes back, starting from `from`. */
  ghost predicate InOrder(evs: seq<Timed>, from: real) {
    evs == [] || (from <= evs[0].at && InOrder(evs[1..], evs[0].at))
  }

  function EndTime(evs: seq<Timed>, from: real): real {
    if evs == [] then from else evs[|evs| - 1].at
  }

  /** Some operation of the run prunes the table at or after `deadline`. */
  ghost predicate Served(evs: seq<Timed>, deadline: real) {
    evs != [] && ((Prunes(evs[0].event) && deadline <= evs[0].at) || Served(evs[1..], deadline))
  }

  ghost predicate WaitsThroughout(cfg: Config, s: State, evs: seq<Timed>, r: string)
    decreases |evs|
  {
    IsQueued(s, r) && (evs != [] ==> WaitsThroughout(cfg, Step(cfg, s, evs[0].event, evs[0].at), evs[1..], r))
  }

  /** At some moment of the run `r` holds a lease. */
  ghost predicate GrantedDuring(cfg: Config, s: State, evs: seq<Timed>, r: string)
    decreases |evs|
  {
    r in s.active || (evs != [] && GrantedDuring(cfg, Step(cfg, s, evs[0].event, evs[0].at), evs[1..], r))
  }

  ghost predicate NeverReleased(evs: seq<Timed>, r: string) {
    forall i :: 0 <= i < |evs| ==> evs[i].event != Release(r)
  }

  // ----- invariant over every run ----------------------------------------

  /** Every run keeps the invariant, and no lease ever outlives one TTL from the last event. */
  lemma {:induction false} RunKeepsValid(cfg: Config, s: State, evs: seq<Timed>, from: real)
    requires Valid(cfg, s) && LeasesWithin(cfg, s, from) && InOrder(evs, from)
    ensures Valid(cfg, Run(cfg, s, evs))
    ensures LeasesWithin(cfg, Run(cfg, s, evs), EndTime(evs, from))
    decreases |evs|
  {
    if evs != [] {
      StepKeepsValid(cfg, s, evs[0].event, evs[0].at);
      StepWithin(cfg, s, evs[0].event, from, evs[0].at);
      RunKeepsValid(cfg, Step(cfg, s, evs[0].event, evs[0].at), evs[1..], evs[0].at);
    }
  }

  lemma ValidMeans(cfg: Config, s: State)
    requires Valid(cfg, s)
    ensures forall r :: r in s.active ==> !IsQueued(s, r)
    ensures s.busy == (s.published != [] && s.published[|s.published| - 1])
  {
  }

  /** The invariant of every reachable state, spelled out. */
  lemma {:induction false} ReachableInvariant(cfg: Config, evs: seq<Timed>, from: real)
    requires InOrder(evs, from)
    ensures var s := Run(cfg, INITIAL, evs);
      && |s.active| <= cfg.Capacity()
      && (forall r :: r in s.active ==> s.active[r].rental == r && !IsQueued(s, r))
      && (forall i, j :: 0 <= i < j < |s.queue| ==> s.queue[i].rental != s.queue[j].rental)
      && (s.queue != [] ==> |s.active| == cfg.Capacity())
      && s.busy == (s.active != map[] || s.adminSlots != {})
      && (forall i :: 0 <= i < |s.published| ==> s.published[i] == (i % 2 == 0))
      && s.busy == (s.published != [] && s.published[|s.published| - 1])
  {
    hide Run, InOrder, IndexOf;
    RunKeepsValid(cfg, INITIAL, evs, from);
    ValidMeans(cfg, Run(cfg, INITIAL, evs));
  }

  // ----- progress over a run ---------------------------------------------

  lemma {:induction false} RunAdvances(cfg: Config, s: State, evs: seq<Timed>, r: string, deadline: real)
    requires Valid(cfg, s) && WaitsThroughout(cfg, s, evs, r)
    ensures Advanced(s, Run(cfg, s, evs), r, deadline, Served(evs, deadline))
    ensures IsQueued(Run(cfg, s, evs), r)
    decreases |evs|
  {
    if evs != [] {
      var e, at := evs[0].event, evs[0].at;
      StepKeepsValid(cfg, s, e, at);
      StepAdvances(cfg, s, e, at, r, deadline);
      RunAdvances(cfg, Step(cfg, s, e, at), evs[1..], r, deadline);
    }
  }

  /** A waiting rental is never overtaken: whoever is served meanwhile was already served or ahead of it. */
  lemma {:induction false} NobodyOvertakes(cfg: Config, s: State, evs: seq<Timed>, r: string)
    requires Valid(cfg, s) && WaitsThroughout(cfg, s, evs, r)
    ensures var t := Run(cfg, s, evs);
      && IndexOf(t.queue, r) <= IndexOf(s.queue, r)
      && (forall other :: other in t.active ==> other in s.active || IndexOf(s.queue, other) < IndexOf(s.queue, r))
      && (forall other :: IndexOf(t.queue, other) < IndexOf(t.queue, r) ==> Before(s, other, r))
  {
    hide Step, Run, IndexOf, WaitsThroughout;
    var t := Run(cfg, s, evs);
    RunAdvances(cfg, s, evs, r, 0.0);
    forall other | other in t.active ensures other in s.active || IndexOf(s.queue, other) < IndexOf(s.queue, r) {
      assert Before(t, other, r);
    }
  }

  /** A rental that stops waiting without being released was granted a lease. */
  lemma {:induction false} StopsWaitingByGrant(cfg: Config, s: State, evs: seq<Timed>, r: string)
    requires Valid(cfg, s) && IsQueued(s, r) && NeverReleased(evs, r)
    requires !WaitsThroughout(cfg, s, evs, r)
    ensures GrantedDuring(cfg, s, evs, r)
    decreases |evs|
  {
    var e, at := evs[0].event, evs[0].at;
    var t := Step(cfg, s, e, at);
    if IsQueued(t, r) {
      StepKeepsValid(cfg, s, e, at);
      StopsWaitingByGrant(cfg, t, evs[1..], r);
    } else {
      LeavesByGrantOrRelease(cfg, s, e, at, r);
      assert GrantedDuring(cfg, t, evs[1..], r);
    }
  }

  // ----- the wait estimate -----------------------------------------------

  /** The TTL survives `int(ttl_seconds)`, or the 15-second floor hides the loss. */
  predicate WholeTtl(cfg: Config) {
    cfg.ttl == cfg.ttl.Floor as real || cfg.ttl <= MIN_WAIT_SECONDS as real
  }

  lemma CeilBounds(x: real)
    ensures x <= Ceil(x) as real < x + 1.0
  {
  }

  /** A lease with no more time left than the quoted one ends within the quoted wait. */
  lemma EndsWithinQuote(cfg: Config, lease: Lease, now: real, pick: real)
    requires WholeTtl(cfg) && lease.expiresAt <= now + cfg.ttl && Remaining(lease, now) <= pick
    ensures lease.expiresAt <= now + ClampWait(cfg, pick) as real
  {
    CeilBounds(pick);
  }

  lemma EarlyRankIsDue(cfg: Config, s: State, now: real, ks: seq<string>, position: nat, i: nat)
    requires LeasesWithin(cfg, s, now) && WholeTtl(cfg) && IsRanking(ks, s.active, now)
    requires i < position <= |ks|
    ensures ks[i] in Due(s, now + ClampWait(cfg, Remaining(s.active[ks[position - 1]], now)) as real)
  {
    EndsWithinQuote(cfg, s.active[ks[i]], now, Remaining(s.active[ks[position - 1]], now));
  }

  lemma RankedCoversPosition(cfg: Config, s: State, now: real, position: nat, ks: seq<string>)
    requires LeasesWithin(cfg, s, now) && WholeTtl(cfg) && IsRanking(ks, s.active, now)
    requires 1 <= position <= |ks|
    ensures position <= |Due(s, now + ClampWait(cfg, Remaining(s.active[ks[position - 1]], now)) as real)|
  {
    var due := Due(s, now + ClampWait(cfg, Remaining(s.active[ks[position - 1]], now)) as real);
    forall i | 0 <= i < position ensures ks[..position][i] in due {
      EarlyRankIsDue(cfg, s, now, ks, position, i);
    }
    DistinctWithin(ks[..position], due);
  }

  /** Within the quoted wait, at least as many leases end as the quoted position. */
  lemma EstimateCoversPosition(cfg: Config, s: State, now: real, position: int, seconds: int)
    requires LeasesWithin(cfg, s, now) && WholeTtl(cfg)
    requires 1 <= position <= |s.active| && IsWaitEstimate(cfg, s, now, position, seconds)
    ensures position <= |Due(s, now + seconds as real)|
  {
    hide LeasesWithin, IsRanking, Due, ClampWait, Remaining, WholeTtl;
    var ks :| RanksTo(cfg, s, now, position, seconds, ks);
    RankingSize(ks, s.active, now);
    RankedCoversPosition(cfg, s, now, position, ks);
  }

  lemma RankingSize(ks: seq<string>, active: map<string, Lease>, now: real)
    requires IsRanking(ks, active, now)
    ensures |ks| == |active|
  {
    DistinctSize(ks);
    assert Elements(ks) == active.Keys;
  }

  lemma {:induction false} WaitEstimateIsUpperBound(cfg: Config, s: State, now: real, r: string, seconds: int,
                                                    evs: seq<Timed>)
    requires Valid(cfg, s) && LeasesWithin(cfg, s, now) && WholeTtl(cfg) && IsQueued(s, r)
    requires IsWaitEstimate(cfg, s, now, IndexOf(s.queue, r) + 1, seconds)
    requires IndexOf(s.queue, r) + 1 <= |s.active|
    requires Served(evs, now + seconds as real)
    ensures !WaitsThroughout(cfg, s, evs, r)
  {
    hide Step, Run, IsWaitEstimate, WaitsThroughout, IndexOf;
    if WaitsThroughout(cfg, s, evs, r) {
      RunAdvances(cfg, s, evs, r, now + seconds as real);
      EstimateCoversPosition(cfg, s, now, IndexOf(s.queue, r) + 1, seconds);
      assert false;
    }
  }

  /** A prune cannot reach a rental that waits behind more places than there are leases. */
  lemma OnePruneIsNotEnough(cfg: Config, s: State, now: real, r: string)
    requires Valid(cfg, s) && IsQueued(s, r) && |s.active| < IndexOf(s.queue, r) + 1
    ensures IsQueued(Step(cfg, s, Poll, now), r)
  {
    var gone := Overdue(cfg, s, now);
    EvictOk(cfg, s, gone);
    var s1 := s.(active := s.active - gone);
    var k := FillIs(cfg, s1, now);
    IndexOfTail(s.queue, k, r);
  }

  /**
   The quoted wait is a bound on every run exactly for the rentals whose position
   is no greater than the number of active leases.
   */
  lemma {:induction false} WaitEstimateExact(cfg: Config, s: State, now: real, r: string, seconds: int)
    requires Valid(cfg, s) && LeasesWithin(cfg, s, now) && WholeTtl(cfg) && IsQueued(s, r)
    requires IsWaitEstimate(cfg, s, now, IndexOf(s.queue, r) + 1, seconds)
    ensures (forall evs :: Served(evs, now + seconds as real) ==> !WaitsThroughout(cfg, s, evs, r))
      <==> IndexOf(s.queue, r) + 1 <= |s.active|
  {
    hide Run, IsWaitEstimate, IndexOf, LeasesWithin, Valid;
    if IndexOf(s.queue, r) + 1 <= |s.active| {
      forall evs | Served(evs, now + seconds as real) ensures !WaitsThroughout(cfg, s, evs, r) {
        WaitEstimateIsUpperBound(cfg, s, now, r, seconds, evs);
      }
    } else {
      var at := now + seconds as real;
      var evs := [Timed(Poll, at)];
      OnePruneIsNotEnough(cfg, s, at, r);
      assert evs[1..] == [];
      assert Served(evs, at) && WaitsThroughout(cfg, s, evs, r);
    }
  }

  /** The same for every quote ever given: `past` is any history, its last event the moment of the quote. */
  lemma {:induction false} EveryQuoteExact(cfg: Config, past: seq<Timed>, from: real, r: string, seconds: int)
    requires WholeTtl(cfg) && InOrder(past, from) && IsQueued(Run(cfg, INITIAL, past), r)
    requires var s := Run(cfg, INITIAL, past);
      IsWaitEstimate(cfg, s, EndTime(past, from), IndexOf(s.queue, r) + 1, seconds)
    ensures var s := Run(cfg, INITIAL, past);
      (forall evs :: Served(evs, EndTime(past, from) + seconds as real) ==> !WaitsThroughout(cfg, s, evs, r))
      <==> IndexOf(s.queue, r) + 1 <= |s.active|
  {
    hide Run, IsWaitEstimate, IndexOf, InOrder, Served, WaitsThroughout, WholeTtl;
    RunKeepsValid(cfg, INITIAL, past, from);
    WaitEstimateExact(cfg, Run(cfg, INITIAL, past), EndTime(past, from), r, seconds);
  }

  /** Within the quoted wait a rental that is not released is granted a lease. */
  lemma {:induction false} EstimateIsKept(cfg: Config, s: State, now: real, r: string, seconds: int, evs: seq<Timed>)
    requires Valid(cfg, s) && LeasesWithin(cfg, s, now) && WholeTtl(cfg) && IsQueued(s, r)
    requires IsWaitEstimate(cfg, s, now, IndexOf(s.queue, r) + 1, seconds)
    requires IndexOf(s.queue, r) + 1 <= |s.active|
    requires Served(evs, now + seconds as real) && NeverReleased(evs, r)
    ensures GrantedDuring(cfg, s, evs, r)
  {
    WaitEstimateIsUpperBound(cfg, s, now, r, seconds, evs);
    StopsWaitingByGrant(cfg, s, evs, r);
  }

  /** Everything with less time left than rank `i` sits below rank `i`. */
  lemma EarlierRanksLower(active: map<string, Lease>, now: real, ks: seq<string>, i: nat, r: string)
    requires IsRanking(ks, active, now) && i < |ks| && r in active
    requires Remaining(active[r], now) < Remaining(active[ks[i]], now)
    ensures r in Elements(ks[..i])
  {
    var m :| 0 <= m < |ks| && ks[m] == r;
    assert m < i;
    assert ks[..i][m] == r;
  }

  /** Two rankings agree on the time left at every rank. */
  lemma RankingsAgree(active: map<string, Lease>, now: real, a: seq<string>, b: seq<string>, i: nat)
    requires IsRanking(a, active, now) && IsRanking(b, active, now) && i < |a| && i < |b|
    ensures Remaining(active[a[i]], now) <= Remaining(active[b[i]], now)
  {
    if Remaining(active[b[i]], now) < Remaining(active[a[i]], now) {
      var early := b[..i + 1];
      DistinctSize(early);
      DistinctSize(a[..i]);
      forall r | r in Elements(early) ensures r in Elements(a[..i]) {
        var j :| 0 <= j <= i && b[j] == r;
        EarlierRanksLower(active, now, a, i, r);
      }
      SubsetSize(Elements(early), Elements(a[..i]));
      assert false;
    }
  }

  /** The quoted wait depends on the state alone, not on the order the table is walked in. */
  lemma WaitEstimateUnique(cfg: Config, s: State, now: real, position: int, a: int, b: int)
    requires 1 <= position
    requires IsWaitEstimate(cfg, s, now, position, a) && IsWaitEstimate(cfg, s, now, position, b)
    ensures a == b
  {
    hide ClampWait, IsRanking;
    if s.active != map[] {
      var ka :| RanksTo(cfg, s, now, position, a, ka);
      var kb :| RanksTo(cfg, s, now, position, b, kb);
      var i := Min(position, |ka|) - 1;
      RankingSize(ka, s.active, now);
      RankingSize(kb, s.active, now);
      RankingsAgree(s.active, now, ka, kb, i);
      RankingsAgree(s.active, now, kb, ka, i);
    }
  }

  // ----- starvation ------------------------------------------------------

  /** Each round ends with a prune at least one TTL after the end of the round before it. */
  ghost predicate Rounds(cfg: Config, rounds: seq<seq<Timed>>, from: real) {
    rounds != [] ==>
      var evs := rounds[0];
      && evs != [] && InOrder(evs, from)
      && Prunes(evs[|evs| - 1].event) && from + cfg.ttl <= evs[|evs| - 1].at
      && Rounds(cfg, rounds[1..], evs[|evs| - 1].at)
  }

  function Flatten(rounds: seq<seq<Timed>>): seq<Timed> {
    if rounds == [] then [] else rounds[0] + Flatten(rounds[1..])
  }

  lemma {:induction false} RunAppend(cfg: Config, s: State, a: seq<Timed>, b: seq<Timed>, r: string)
    ensures Run(cfg, s, a + b) == Run(cfg, Run(cfg, s, a), b)
    ensures WaitsThroughout(cfg, s, a + b, r) ==>
      WaitsThroughout(cfg, s, a, r) && WaitsThroughout(cfg, Run(cfg, s, a), b, r)
    decreases |a|
  {
    if a == [] {
      assert a + b == b;
    } else {
      assert (a + b)[1..] == a[1..] + b;
      RunAppend(cfg, Step(cfg, s, a[0].event, a[0].at), a[1..], b, r);
    }
  }

  lemma {:induction false} LastServes(evs: seq<Timed>, deadline: real)
    requires evs != [] && Prunes(evs[|evs| - 1].event) && deadline <= evs[|evs| - 1].at
    ensures Served(evs, deadline)
  {
    if |evs| > 1 {
      assert evs[1..][|evs| - 2] == evs[|evs| - 1];
      LastServes(evs[1..], deadline);
    }
  }

  /** While somebody waits the table is full, and one TTL later all of it is due. */
  lemma WholeTableDue(cfg: Config, s: State, from: real, r: string)
    requires Valid(cfg, s) && LeasesWithin(cfg, s, from) && IsQueued(s, r)
    ensures |Due(s, from + cfg.ttl)| == cfg.Capacity()
  {
    assert Due(s, from + cfg.ttl) == s.active.Keys;
  }

  /** One round: every lease present at its start ends in it, so the rental moves up by the capacity. */
  lemma RoundAdvances(cfg: Config, s: State, evs: seq<Timed>, from: real, r: string)
    requires Valid(cfg, s) && LeasesWithin(cfg, s, from) && IsQueued(s, r) && WaitsThroughout(cfg, s, evs, r)
    requires Served(evs, from + cfg.ttl)
    ensures IndexOf(Run(cfg, s, evs).queue, r) + cfg.Capacity() <= IndexOf(s.queue, r)
  {
    hide Run, IndexOf, Served, WaitsThroughout, Valid, LeasesWithin, Due, TableOk;
    RunAdvances(cfg, s, evs, r, from + cfg.ttl);
    WholeTableDue(cfg, s, from, r);
  }

  /** Every spaced prune moves a rental that still waits up by the whole capacity. */
  lemma {:induction false} RoundsAdvance(cfg: Config, s: State, rounds: seq<seq<Timed>>, from: real, r: string)
    requires Valid(cfg, s) && LeasesWithin(cfg, s, from) && Rounds(cfg, rounds, from)
    requires WaitsThroughout(cfg, s, Flatten(rounds), r)
    ensures IndexOf(Run(cfg, s, Flatten(rounds)).queue, r) + |rounds| * cfg.Capacity() <= IndexOf(s.queue, r)
    decreases |rounds|
  {
    hide Step, IndexOf, Valid, LeasesWithin, Served, InOrder;
    if rounds == [] {
      assert Run(cfg, s, Flatten(rounds)) == s;
    } else {
      var evs := rounds[0];
      assert WaitsThroughout(cfg, s, evs, r) ==> IsQueued(s, r);
      hide WaitsThroughout, Run;
      RunAppend(cfg, s, evs, Flatten(rounds[1..]), r);
      RunKeepsValid(cfg, s, evs, from);
      LastServes(evs, from + cfg.ttl);
      RoundAdvances(cfg, s, evs, from, r);
      RoundsAdvance(cfg, Run(cfg, s, evs), rounds[1..], EndTime(evs, from), r);
      assert |rounds| * cfg.Capacity() == cfg.Capacity() + |rounds[1..]| * cfg.Capacity();
    }
  }

  /** No starvation: position p is served within ceil(p / capacity) spaced prunes. */
  lemma {:induction false} NoStarvation(cfg: Config, s: State, rounds: seq<seq<Timed>>, from: real, r: string)
    requires Valid(cfg, s) && LeasesWithin(cfg, s, from) && Rounds(cfg, rounds, from)
    requires IsQueued(s, r) && NeverReleased(Flatten(rounds), r)
    requires IndexOf(s.queue, r) + 1 <= |rounds| * cfg.Capacity()
    ensures GrantedDuring(cfg, s, Flatten(rounds), r)
  {
    if WaitsThroughout(cfg, s, Flatten(rounds), r) {
      RoundsAdvance(cfg, s, rounds, from, r);
      assert false;
    }
    StopsWaitingByGrant(cfg, s, Flatten(rounds), r);
  }

  // ----- a fractional TTL ------------------------------------------------

  /** A quote given to `r` after the history `past`, for a position no greater than the number of active leases. */
  ghost predicate CoveredQuote(cfg: Config, past: seq<Timed>, from: real, r: string, seconds: int) {
    var s := Run(cfg, INITIAL, past);
    && InOrder(past, from) && IsQueued(s, r) && IndexOf(s.queue, r) + 1 <= |s.active|
    && IsWaitEstimate(cfg, s, EndTime(past, from), IndexOf(s.queue, r) + 1, seconds)
  }

  /** `r` goes on waiting through `evs`, which prune the table at or after the moment it was quoted. */
  ghost predicate QuoteMissed(cfg: Config, past: seq<Timed>, from: real, r: string, seconds: int, evs: seq<Timed>) {
    && CoveredQuote(cfg, past, from, r, seconds)
    && InOrder(evs, EndTime(past, from)) && Served(evs, EndTime(past, from) + seconds as real)
    && WaitsThroughout(cfg, Run(cfg, INITIAL, past), evs, r)
  }

  /** The `i`-th holder: names of different lengths. */
  function Holder(i: nat): string {
    seq(i + 1, _ => 'a')
  }

  function Names(i: nat): set<string> {
    if i == 0 then {} else Names(i - 1) + {Holder(i - 1)}
  }

  lemma {:induction false} NamesFacts(i: nat)
    ensures |Names(i)| == i && Holder(i) !in Names(i) && "b" !in Names(i) && "" !in Names(i)
    ensures forall r :: r in Names(i) ==> |r| <= i
  {
    assert |Holder(i)| == i + 1;
    if i > 0 {
      NamesFacts(i - 1);
      assert |Holder(i - 1)| == i && Holder(i - 1)[0] == 'a';
    }
  }

  function FirstLease(cfg: Config, r: string): Lease {
    NewLease(cfg, r, "c", 1, 0.0, false)
  }

  function Held(cfg: Config, i: nat): map<string, Lease> {
    map r | r in Names(i) :: FirstLease(cfg, r)
  }

  /** `i` holders, all of them since time zero. */
  function Holding(cfg: Config, i: nat): State {
    State(Held(cfg, i), [], {}, i > 0, if i > 0 then [true] else [])
  }

  lemma HeldFacts(cfg: Config, i: nat)
    ensures Held(cfg, i).Keys == Names(i) && |Held(cfg, i)| == i
    ensures i == 0 <==> Held(cfg, i) == map[]
    ensures Held(cfg, i)[Holder(i) := FirstLease(cfg, Holder(i))] == Held(cfg, i + 1)
  {
    NamesFacts(i);
    hide Holder, FirstLease;
    assert Names(i + 1) == Names(i) + {Holder(i)};
    assert i > 0 ==> Holder(i - 1) in Held(cfg, i);
  }

  lemma NothingOverdue(cfg: Config, s: State, now: real)
    requires forall r :: r in s.active ==> !Expired(cfg, s.active[r], now)
    requires s.queue == [] || |s.active| >= cfg.Capacity()
    requires s.busy == (s.active != map[] || s.adminSlots != {})
    ensures Prune(cfg, s, now) == s
  {
    assert Overdue(cfg, s, now) == {};
    assert s.active - {} == s.active;
  }

  lemma HolderAdmitted(cfg: Config, i: nat)
    requires i < cfg.Capacity() && cfg.ttl > 0.0 && cfg.idle > 0.0
    ensures Step(cfg, Holding(cfg, i), Admit(Holder(i), "c", 1, true, false), 0.0) == Holding(cfg, i + 1)
  {
    HeldFacts(cfg, i);
    NamesFacts(i);
    NothingOverdue(cfg, Holding(cfg, i), 0.0);
    hide Prune, Holder, Held, Names, NewLease;
    assert Holder(i) != "" by {
      HolderNamed(i);
    }
    assert AdmitPruned(cfg, Holding(cfg, i), Holder(i), "c", 1, true, 0.0)
      == Publish(Holding(cfg, i).(active := Held(cfg, i)[Holder(i) := FirstLease(cfg, Holder(i))]));
    HeldFacts(cfg, i + 1);
  }

  lemma HolderNamed(i: nat)
    ensures Holder(i) != ""
  {
  }

  function Claims(i: nat): seq<Timed> {
    if i == 0 then [] else Claims(i - 1) + [Timed(Admit(Holder(i - 1), "c", 1, true, false), 0.0)]
  }

  lemma OneStep(cfg: Config, s: State, e: Timed)
    ensures Run(cfg, s, [e]) == Step(cfg, s, e.event, e.at)
  {
    hide Step;
    assert [e][1..] == [];
  }

  lemma {:induction false} HoldersReached(cfg: Config, i: nat)
    requires i <= cfg.Capacity() && cfg.ttl > 0.0 && cfg.idle > 0.0
    ensures Run(cfg, INITIAL, Claims(i)) == Holding(cfg, i)
  {
    hide Step;
    if i > 0 {
      HoldersReached(cfg, i - 1);
      HolderAdmitted(cfg, i - 1);
      var e := Timed(Admit(Holder(i - 1), "c", 1, true, false), 0.0);
      RunAppend(cfg, INITIAL, Claims(i - 1), [e], "");
      OneStep(cfg, Holding(cfg, i - 1), e);
    }
  }

  lemma {:induction false} AllAtZero(evs: seq<Timed>)
    requires forall i :: 0 <= i < |evs| ==> evs[i].at == 0.0
    ensures InOrder(evs, 0.0) && EndTime(evs, 0.0) == 0.0
  {
    if evs != [] {
      AllAtZero(evs[1..]);
    }
  }

  lemma {:induction false} ClaimsAtZero(i: nat)
    ensures forall k :: 0 <= k < |Claims(i)| ==> Claims(i)[k].at == 0.0
  {
    if i > 0 {
      ClaimsAtZero(i - 1);
    }
  }

  /** Every place taken at time zero, and "b" waiting. */
  function FullHouse(cfg: Config): State {
    Holding(cfg, cfg.Capacity()).(queue := [Entry("b", "c", 2, 0.0, 0.0, true)])
  }

  const WAITER_JOINS := Timed(Admit("b", "c", 2, true, false), 0.0)

  function FullHistory(cfg: Config): seq<Timed> {
    Claims(cfg.Capacity()) + [WAITER_JOINS]
  }

  lemma JoinsFullTable(cfg: Config, p: State)
    requires p.queue == [] && "b" !in p.active && |p.active| >= cfg.Capacity()
    ensures AdmitPruned(cfg, p, "b", "c", 2, true, 0.0) == p.(queue := [Entry("b", "c", 2, 0.0, 0.0, true)])
  {
  }

  lemma WaiterQueued(cfg: Config)
    requires cfg.ttl > 0.0 && cfg.idle > 0.0
    ensures Step(cfg, Holding(cfg, cfg.Capacity()), WAITER_JOINS.event, 0.0) == FullHouse(cfg)
  {
    HeldFacts(cfg, cfg.Capacity());
    NamesFacts(cfg.Capacity());
    NothingOverdue(cfg, Holding(cfg, cfg.Capacity()), 0.0);
    hide Prune, Holder, Held, Names, AdmitPruned, FirstLease, SetAdmin;
    JoinsFullTable(cfg, Holding(cfg, cfg.Capacity()));
  }

  lemma FullHouseReached(cfg: Config)
    requires cfg.ttl > 0.0 && cfg.idle > 0.0
    ensures Run(cfg, INITIAL, FullHistory(cfg)) == FullHouse(cfg)
    ensures InOrder(FullHistory(cfg), 0.0) && EndTime(FullHistory(cfg), 0.0) == 0.0
  {
    hide Step;
    var n := cfg.Capacity();
    HoldersReached(cfg, n);
    WaiterQueued(cfg);
    RunAppend(cfg, INITIAL, Claims(n), [WAITER_JOINS], "");
    OneStep(cfg, Holding(cfg, n), WAITER_JOINS);
    ClaimsAtZero(n);
    AllAtZero(FullHistory(cfg));
  }

  lemma {:induction false} NamesAre(n: nat)
    ensures forall r :: r in Names(n) <==> exists i :: 0 <= i < n && r == Holder(i)
  {
    if n > 0 {
      NamesAre(n - 1);
    }
  }

  lemma HoldersRanked(cfg: Config, n: nat) returns (ks: seq<string>)
    ensures IsRanking(ks, Held(cfg, n), 0.0) && |ks| == n
  {
    ks := seq(n, i requires 0 <= i < n => Holder(i));
    NamesAre(n);
    forall i, j | 0 <= i < j < n ensures ks[i] != ks[j] {
      assert |Holder(i)| == i + 1 && |Holder(j)| == j + 1;
    }
    hide Holder;
    forall r | r in Names(n) ensures r in ks {
      var i :| 0 <= i < n && r == Holder(i);
      assert ks[i] == r;
    }
  }

  /** The quote to "b" loses the fraction of the TTL. */
  lemma FullHouseQuote(cfg: Config)
    requires !WholeTtl(cfg)
    ensures 0 <= Truncate(cfg.ttl) && Truncate(cfg.ttl) as real < cfg.ttl
    ensures IsWaitEstimate(cfg, FullHouse(cfg), 0.0, 1, Truncate(cfg.ttl))
  {
    var n, s := cfg.Capacity(), FullHouse(cfg);
    var ks := HoldersRanked(cfg, n);
    HeldFacts(cfg, n);
    assert ks[0] in s.active;
    assert Remaining(s.active[ks[0]], 0.0) == cfg.ttl;
    assert ClampWait(cfg, cfg.ttl) == Truncate(cfg.ttl);
    hide IsRanking, ClampWait, Held, Remaining, Names;
    assert RanksTo(cfg, s, 0.0, 1, Truncate(cfg.ttl), ks);
  }

  /** The first `i` holders have confirmed their streams at `at`. */
  function Confirmed(cfg: Config, i: nat, at: real): State {
    FullHouse(cfg).(active := map r | r in Names(cfg.Capacity()) ::
      if r in Names(i) then FirstLease(cfg, r).(prepared := true, needsGrant := false, lastSeenAt := at)
      else FirstLease(cfg, r))
  }

  lemma {:induction false} NamesGrow(i: nat, n: nat)
    requires i < n
    ensures Holder(i) in Names(n)
  {
    hide Holder;
    if i < n - 1 {
      NamesGrow(i, n - 1);
    }
  }

  lemma NamesNext(i: nat)
    ensures Names(i + 1) == Names(i) + {Holder(i)}
  {
  }

  lemma ConfirmNext(cfg: Config, i: nat, at: real)
    requires i < cfg.Capacity()
    ensures Step(cfg, Confirmed(cfg, i, at), MarkPrepared(Holder(i), ""), at) == Confirmed(cfg, i + 1, at)
  {
    NamesFacts(i);
    NamesGrow(i, cfg.Capacity());
    hide Holder, NewLease, Names, Prune, AdmitPruned, SetAdmin, Promote;
    NamesNext(i);
    assert Names(i + 1) == Names(i) + {Holder(i)};
    var s, t := Confirmed(cfg, i, at), Confirmed(cfg, i + 1, at);
    assert s.active[Holder(i) := t.active[Holder(i)]] == t.active;
  }

  lemma ConfirmedFacts(cfg: Config, at: real)
    requires 0.0 <= at < cfg.ttl && cfg.idle > 0.0
    ensures var s := Confirmed(cfg, cfg.Capacity(), at);
      |s.active| == cfg.Capacity() && forall r :: r in s.active ==> !Expired(cfg, s.active[r], at)
  {
    NamesFacts(cfg.Capacity());
    hide Holder, Names;
    assert Confirmed(cfg, cfg.Capacity(), at).active.Keys == Names(cfg.Capacity());
  }

  lemma AllConfirmedStay(cfg: Config, at: real)
    requires 0.0 <= at < cfg.ttl && cfg.idle > 0.0
    ensures Step(cfg, Confirmed(cfg, cfg.Capacity(), at), Poll, at) == Confirmed(cfg, cfg.Capacity(), at)
  {
    var s := Confirmed(cfg, cfg.Capacity(), at);
    ConfirmedFacts(cfg, at);
    assert s.busy && s.active != map[];
    hide Confirmed, Prune;
    NothingOverdue(cfg, s, at);
  }

  /** The remaining holders confirm, and then the table is pruned, all at `at`. */
  function Rest(cfg: Config, i: nat, at: real): seq<Timed>
    decreases cfg.Capacity() - i
  {
    if i >= cfg.Capacity() then [Timed(Poll, at)] else [Timed(MarkPrepared(Holder(i), ""), at)] + Rest(cfg, i + 1, at)
  }

  lemma {:induction false} RestLeavesWaiting(cfg: Config, i: nat, at: real)
    requires i <= cfg.Capacity() && 0.0 <= at < cfg.ttl && cfg.idle > 0.0
    ensures WaitsThroughout(cfg, Confirmed(cfg, i, at), Rest(cfg, i, at), "b")
    ensures InOrder(Rest(cfg, i, at), at) && Served(Rest(cfg, i, at), at)
    decreases cfg.Capacity() - i
  {
    hide Step, Confirmed;
    StillQueued(cfg, i, at);
    var evs := Rest(cfg, i, at);
    if i == cfg.Capacity() {
      AllConfirmedStay(cfg, at);
      assert evs[1..] == [];
    } else {
      ConfirmNext(cfg, i, at);
      RestLeavesWaiting(cfg, i + 1, at);
      assert evs[1..] == Rest(cfg, i + 1, at);
    }
  }

  lemma StillQueued(cfg: Config, i: nat, at: real)
    ensures IsQueued(Confirmed(cfg, i, at), "b")
  {
  }

  /**
   With a fractional TTL above the floor and any capacity, a covered quote can be missed: the holders
   confirm their streams just before the quoted moment, and the prune at that moment finds every lease running.
   */
  lemma FractionalTtlUndershoots(cfg: Config) returns (past: seq<Timed>, seconds: int, evs: seq<Timed>)
    requires !WholeTtl(cfg) && cfg.idle > 0.0
    ensures QuoteMissed(cfg, past, 0.0, "b", seconds, evs)
  {
    hide Step, Run, Held, IsWaitEstimate, Rest, InOrder, WaitsThroughout, Served, FullHouse, Confirmed, FullHistory,
      Truncate, IndexOf;
    past, seconds := FullHistory(cfg), Truncate(cfg.ttl);
    var at := seconds as real;
    FullHouseReached(cfg);
    FullHouseQuote(cfg);
    RestLeavesWaiting(cfg, 0, at);
    NothingConfirmed(cfg, at);
    FullHouseFacts(cfg);
    evs := Rest(cfg, 0, at);
    SoonerInOrder(evs, 0.0, at);
  }

  lemma NothingConfirmed(cfg: Config, at: real)
    ensures Confirmed(cfg, 0, at) == FullHouse(cfg)
  {
    assert Confirmed(cfg, 0, at).active == Held(cfg, cfg.Capacity());
  }

  lemma FullHouseFacts(cfg: Config)
    ensures var s := FullHouse(cfg); IsQueued(s, "b") && IndexOf(s.queue, "b") == 0 && |s.active| == cfg.Capacity()
  {
    HeldFacts(cfg, cfg.Capacity());
  }

  lemma SoonerInOrder(evs: seq<Timed>, from: real, at: real)
    requires InOrder(evs, at) && from <= at
    ensures InOrder(evs, from)
  {
  }

  /**
   No covered quote is ever missed, over all histories, rentals and
   continuations, exactly when the TTL is whole or below the floor.
   */
  lemma QuotesHoldExactly(cfg: Config)
    requires cfg.idle > 0.0
    ensures (forall past, from, r, seconds, evs :: !QuoteMissed(cfg, past, from, r, seconds, evs)) <==> WholeTtl(cfg)
  {
    if WholeTtl(cfg) {
      forall past, from, r, seconds, evs ensures !QuoteMissed(cfg, past, from, r, seconds, evs) {
        if QuoteMissed(cfg, past, from, r, seconds, evs) {
          QuoteKept(cfg, past, from, r, seconds, evs);
        }
      }
    } else {
      var past, seconds, evs := FractionalTtlUndershoots(cfg);
    }
  }

  lemma QuoteKept(cfg: Config, past: seq<Timed>, from: real, r: string, seconds: int, evs: seq<Timed>)
    requires WholeTtl(cfg) && CoveredQuote(cfg, past, from, r, seconds)
    requires Served(evs, EndTime(past, from) + seconds as real)
    ensures !WaitsThroughout(cfg, Run(cfg, INITIAL, past), evs, r)
  {
    hide Run, IsWaitEstimate, IndexOf, InOrder, Served, WaitsThroughout, WholeTtl;
    RunKeepsValid(cfg, INITIAL, past, from);
    WaitEstimateIsUpperBound(cfg, Run(cfg, INITIAL, past), EndTime(past, from), r, seconds, evs);
  }
}
