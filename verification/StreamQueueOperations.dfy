/**
 What each operation of the customer stream queue does to each rental, told by the clock, the
 number of free places and the order of the queue; and what a holder's silence leads to.
 */
module StreamQueueOperations {
  import opened Basics
  import opened StreamQueueModel
  import opened StreamQueueSteps
  import opened StreamQueueRuns

  /** The number of leases the table has room for. */
  function Room(cfg: Config): int {
    if cfg.maxConcurrent >= 1 then cfg.maxConcurrent else 1
  }

  /** The holders whose term is not over and who were heard from less than the idle limit ago. */
  function Alive(cfg: Config, s: State, now: real): set<string> {
    set r | r in s.active && now < s.active[r].expiresAt && now - s.active[r].lastSeenAt < cfg.idle
  }

  function FullLease(cfg: Config, r: string, customer: string, slot: int, now: real, needsGrant: bool): Lease {
    Lease(r, customer, slot, now, now, now + cfg.ttl, "/rentals/" + r + "/remote-access/stream", false, needsGrant)
  }

  /** Holder or waiting, the rental stands in `t` exactly as in `s`, and as far from the head of the queue. */
  ghost predicate SameStanding(s: State, t: State, r: string) {
    && (r in t.active <==> r in s.active) && (r in s.active ==> t.active[r] == s.active[r])
    && (IsQueued(t, r) <==> IsQueued(s, r))
    && (IsQueued(s, r) ==>
          IndexOf(t.queue, r) == IndexOf(s.queue, r) && t.queue[IndexOf(t.queue, r)] == s.queue[IndexOf(s.queue, r)])
  }

  /** The rental waits in `t` with its old entry, `n` places nearer to the head. */
  ghost predicate MovedUp(s: State, t: State, r: string, n: int)
    requires IsQueued(s, r)
  {
    && r !in t.active && IsQueued(t, r)
    && IndexOf(t.queue, r) == IndexOf(s.queue, r) - n && t.queue[IndexOf(t.queue, r)] == s.queue[IndexOf(s.queue, r)]
  }

  /** The rental was taken from the queue and holds a full lease made from its entry. */
  ghost predicate GotLease(cfg: Config, s: State, t: State, r: string, now: real)
    requires IsQueued(s, r)
  {
    var e := s.queue[IndexOf(s.queue, r)];
    && !IsQueued(t, r) && r in t.active
    && t.active[r] == FullLease(cfg, r, e.customer, e.slot, now, e.needsGrant)
  }

  // ----- pruning ---------------------------------------------------------

  lemma AliveCount(cfg: Config, s: State, now: real)
    ensures Alive(cfg, s, now) == (s.active - Overdue(cfg, s, now)).Keys
    ensures |s.active - Overdue(cfg, s, now)| == |Alive(cfg, s, now)|
    ensures cfg.Capacity() == Room(cfg)
  {
    var t := s.active - Overdue(cfg, s, now);
    forall r ensures r in Alive(cfg, s, now) <==> r in t.Keys {
    }
    assert |t| == |t.Keys|;
  }

  /** Filling, for one rental that waits before it. */
  lemma FillOne(cfg: Config, s: State, now: real, r: string)
    requires TableOk(cfg, s) && IsQueued(s, r) && |s.active| <= cfg.Capacity()
    ensures var t := Fill(cfg, s, now); var free := cfg.Capacity() - |s.active|;
      if IndexOf(s.queue, r) < free then GotLease(cfg, s, t, r, now) else MovedUp(s, t, r, free)
  {
    var k := FillIs(cfg, s, now);
    var t := Fill(cfg, s, now);
    assert FillKey(cfg, s, t, now, k, r);
    IndexOfTail(s.queue, k, r);
  }

  lemma PruneWaiting(cfg: Config, s: State, now: real, r: string)
    requires Valid(cfg, s) && IsQueued(s, r)
    ensures var t := Prune(cfg, s, now); var free := Room(cfg) - |Alive(cfg, s, now)|;
      if IndexOf(s.queue, r) < free then GotLease(cfg, s, t, r, now) else MovedUp(s, t, r, free)
  {
    EvictOk(cfg, s, Overdue(cfg, s, now));
    AliveCount(cfg, s, now);
    FillOne(cfg, s.(active := s.active - Overdue(cfg, s, now)), now, r);
    hide Fill, Overdue, Alive, Room;
  }

  /**
   A prune at `now` keeps a holder if and only if its term is not over and it was heard from within the idle
   limit; it grants a waiting rental if and only if there is a place for it, and moves up the others by the places.
   */
  lemma PruneExact(cfg: Config, s: State, now: real, r: string)
    requires Valid(cfg, s)
    ensures var t := Step(cfg, s, Poll, now); var free := Room(cfg) - |Alive(cfg, s, now)|;
      && (r in s.active ==>
            && !IsQueued(t, r)
            && (r in t.active <==> now < s.active[r].expiresAt && now - s.active[r].lastSeenAt < cfg.idle)
            && (r in t.active ==> t.active[r] == s.active[r]))
      && (IsQueued(s, r) ==>
            if IndexOf(s.queue, r) < free then GotLease(cfg, s, t, r, now) else MovedUp(s, t, r, free))
      && (r !in s.active && !IsQueued(s, r) ==> r !in t.active && !IsQueued(t, r))
  {
    ValidMeans(cfg, s);
    PruneValid(cfg, s, now);
    if r in s.active {
      PruneKeepsLease(cfg, s, now, r);
    }
    if IsQueued(s, r) {
      PruneWaiting(cfg, s, now, r);
    } else if r in s.active ==> Expired(cfg, s.active[r], now) {
      RefillKeepsOut(cfg, s, Overdue(cfg, s, now), now, r);
    } else {
      ValidMeans(cfg, Prune(cfg, s, now));
    }
    hide Fill, Promote, Valid, IndexOf, MovedUp, GotLease, Room, Alive;
  }

  /** Of the holders before, those remain whose term is not over and who were heard from within the idle limit. */
  ghost predicate KeepsTheLively(cfg: Config, before: State, after: State, now: real) {
    forall r :: r in before.active ==>
      (r in after.active <==> now < before.active[r].expiresAt && now - before.active[r].lastSeenAt < cfg.idle)
  }

  lemma PruneKeepsTheLively(cfg: Config, s: State, now: real)
    requires Valid(cfg, s)
    ensures KeepsTheLively(cfg, s, Prune(cfg, s, now), now)
  {
    hide Prune, Valid;
    forall r | r in s.active
      ensures r in Prune(cfg, s, now).active <==>
        now < s.active[r].expiresAt && now - s.active[r].lastSeenAt < cfg.idle
    {
      PruneExact(cfg, s, now, r);
    }
  }

  /** After a prune the table is full exactly when survivors and waiting rentals fill the room. */
  lemma RoomAfterPrune(cfg: Config, s: State, now: real)
    requires Valid(cfg, s)
    ensures |Prune(cfg, s, now).active| < cfg.Capacity() <==> |Alive(cfg, s, now)| + |s.queue| < Room(cfg)
  {
    var s1 := s.(active := s.active - Overdue(cfg, s, now));
    EvictOk(cfg, s, Overdue(cfg, s, now));
    AliveCount(cfg, s, now);
    var k := FillIs(cfg, s1, now);
  }

  // ----- admission -------------------------------------------------------

  /** What an admission leaves of another rental is what a prune alone would. */
  lemma AdmitOthers(cfg: Config, s: State, e: Event, now: real, r: string)
    requires Valid(cfg, s) && e.Admit? && Prunes(e) && r != e.rental
    ensures SameStanding(Step(cfg, s, Poll, now), Step(cfg, s, e, now), r)
  {
    var p := Prune(cfg, s, now);
    PruneValid(cfg, s, now);
    hide Prune;
    if IsQueued(p, r) {
      WaitingAfterAdmit(cfg, p, e, now, r);
    } else {
      AbsentAfterAdmit(cfg, p, e, now, r);
    }
    LeaseAfterAdmit(cfg, p, e, now, r);
    hide Valid, IndexOf, AdmitPruned;
  }

  lemma LeaseAfterAdmit(cfg: Config, p: State, e: Event, now: real, r: string)
    requires e.Admit? && r != e.rental
    ensures var t := AdmitPruned(cfg, p, e.rental, e.customer, e.slot, e.claim, now);
      (r in t.active <==> r in p.active) && (r in p.active ==> t.active[r] == p.active[r])
  {
    hide IndexOf;
  }

  lemma WaitingAfterAdmit(cfg: Config, p: State, e: Event, now: real, r: string)
    requires e.Admit? && r != e.rental && Valid(cfg, p) && IsQueued(p, r)
    ensures var t := AdmitPruned(cfg, p, e.rental, e.customer, e.slot, e.claim, now);
      && IsQueued(t, r) && IndexOf(t.queue, r) == IndexOf(p.queue, r)
      && t.queue[IndexOf(t.queue, r)] == p.queue[IndexOf(p.queue, r)]
  {
    AdmitPrunedStays(cfg, p, e.rental, e.customer, e.slot, e.claim, now, r);
    hide Valid;
  }

  lemma AbsentAfterAdmit(cfg: Config, p: State, e: Event, now: real, r: string)
    requires e.Admit? && r != e.rental && !IsQueued(p, r)
    ensures !IsQueued(AdmitPruned(cfg, p, e.rental, e.customer, e.slot, e.claim, now), r)
  {
    var i := IndexOf(p.queue, e.rental);
    if i < |p.queue| {
      EditEntryIndex(p.queue, i, Refreshed(p.queue[i], e.customer, e.slot, e.claim, now), r);
    }
    AppendIndex(p.queue, Entry(e.rental, e.customer, e.slot, now, now, true), r);
  }

  /** A waiting rental that asks again: its entry is brought up to date and keeps its age, and a claim sticks. */
  ghost predicate Renewed(before: Entry, after: Entry, e: Event, now: real)
    requires e.Admit?
  {
    && after.rental == before.rental && after.enqueuedAt == before.enqueuedAt
    && after.customer == e.customer && after.lastPolledAt == now
    && after.slot == (if e.slot == 0 then before.slot else e.slot)
    && (after.needsGrant <==> e.claim || before.needsGrant)
  }

  /**
   An admission at `now`, for the rental itself, after the prune: a holder is heard from and keeps its term, a waiting
   rental keeps its place, and a newcomer gets a place if it claims one and survivors and queue leave one, nothing if
   it claims none, and the last place in the queue if the room is taken.
   */
  lemma AdmitExact(cfg: Config, s: State, e: Event, now: real)
    requires Valid(cfg, s) && e.Admit? && !e.admin && e.rental != "" && e.customer != ""
    ensures var p := Step(cfg, s, Poll, now); var t := Step(cfg, s, e, now); var r := e.rental;
      if r in p.active then !IsQueued(t, r) && r in t.active && t.active[r] == p.active[r].(lastSeenAt := now)
      else if IsQueued(p, r) then
        && r !in t.active && IsQueued(t, r) && IndexOf(t.queue, r) == IndexOf(p.queue, r)
        && Renewed(p.queue[IndexOf(p.queue, r)], t.queue[IndexOf(t.queue, r)], e, now)
      else if |Alive(cfg, s, now)| + |s.queue| < Room(cfg) then
        && !IsQueued(t, r) && (r in t.active <==> e.claim)
        && (e.claim ==> t.active[r] == FullLease(cfg, r, e.customer, e.slot, now, false))
      else
        && r !in t.active && IndexOf(t.queue, r) == |p.queue| && |t.queue| == |p.queue| + 1
        && t.queue[|p.queue|] == Entry(r, e.customer, e.slot, now, now, true)
  {
    var p := Prune(cfg, s, now);
    PruneValid(cfg, s, now);
    RoomAfterPrune(cfg, s, now);
    hide Prune, Valid, Alive, Room, IndexOf, AdmitPruned, NewLease, Refreshed, FullLease, Renewed;
    AdmitSelf(cfg, p, e, now);
  }

  lemma AdmitSelf(cfg: Config, p: State, e: Event, now: real)
    requires Valid(cfg, p) && e.Admit?
    ensures var t := AdmitPruned(cfg, p, e.rental, e.customer, e.slot, e.claim, now); var r := e.rental;
      if r in p.active then !IsQueued(t, r) && r in t.active && t.active[r] == p.active[r].(lastSeenAt := now)
      else if IsQueued(p, r) then
        && r !in t.active && IsQueued(t, r) && IndexOf(t.queue, r) == IndexOf(p.queue, r)
        && Renewed(p.queue[IndexOf(p.queue, r)], t.queue[IndexOf(t.queue, r)], e, now)
      else if |p.active| < cfg.Capacity() then
        && !IsQueued(t, r) && (r in t.active <==> e.claim)
        && (e.claim ==> t.active[r] == FullLease(cfg, r, e.customer, e.slot, now, false))
      else
        && r !in t.active && IndexOf(t.queue, r) == |p.queue| && |t.queue| == |p.queue| + 1
        && t.queue[|p.queue|] == Entry(r, e.customer, e.slot, now, now, true)
  {
    var i := IndexOf(p.queue, e.rental);
    ValidMeans(cfg, p);
    hide Valid;
    if i < |p.queue| {
      EditEntryIndex(p.queue, i, Refreshed(p.queue[i], e.customer, e.slot, e.claim, now), e.rental);
    } else {
      AppendIndex(p.queue, Entry(e.rental, e.customer, e.slot, now, now, true), e.rental);
    }
    hide IndexOf;
  }

  // ----- the other operations --------------------------------------------

  /** Places a waiting rental gains when `x` is released: one if `x` held a lease or stood before it. */
  function Gain(s: State, x: string, r: string): int {
    if x in s.active || IndexOf(s.queue, x) < IndexOf(s.queue, r) then 1 else 0
  }

  lemma {:induction false} WithoutIndex(q: seq<Entry>, x: string, r: string)
    requires NoRepeats(q) && x != r && IndexOf(q, r) < |q|
    ensures IndexOf(Without(q, x), r) == IndexOf(q, r) - if IndexOf(q, x) < IndexOf(q, r) then 1 else 0
    decreases |q|
  {
    if q[0].rental == x {
      WithoutHead(q, x);
      hide Without;
      assert IndexOf(q, r) == 1 + IndexOf(q[1..], r);
    } else if q[0].rental != r {
      assert Without(q, x) == [q[0]] + Without(q[1..], x);
      hide Without;
      WithoutIndex(q[1..], x, r);
      assert ([q[0]] + Without(q[1..], x))[1..] == Without(q[1..], x);
    } else {
      assert Without(q, x)[0] == q[0];
    }
  }

  /** The head's rental waits nowhere else, so dropping it drops the head. */
  lemma WithoutHead(q: seq<Entry>, x: string)
    requires NoRepeats(q) && q != [] && q[0].rental == x
    ensures Without(q, x) == q[1..] && IndexOf(q, x) == 0
  {
    var tail := q[1..];
    assert forall i :: 0 <= i < |tail| ==> tail[i] == q[i + 1];
    WithoutShape(tail, x);
    assert Without(q, x) == Without(tail, x);
    hide Without;
  }

  /** A release leaves every other holder's lease alone, and gives a freed place to the head of the queue. */
  lemma ReleaseExact(cfg: Config, s: State, x: string, now: real, r: string)
    requires Valid(cfg, s)
    ensures var t := Step(cfg, s, Release(x), now);
      if r == x then r !in t.active && !IsQueued(t, r)
      else
        && (r in s.active ==> r in t.active && t.active[r] == s.active[r] && !IsQueued(t, r))
        && (IsQueued(s, r) ==>
              if x in s.active && IndexOf(s.queue, r) == 0 then GotLease(cfg, s, t, r, now)
              else MovedUp(s, t, r, Gain(s, x, r)))
        && (r !in s.active && !IsQueued(s, r) ==> r !in t.active && !IsQueued(t, r))
  {
    hide Step;
    ReleaseIs(cfg, s, x, now);
    if r == x {
      ReleasedIsGone(cfg, s, r, now);
    } else {
      var f := Forget(s, x);
      ForgetOk(cfg, s, x);
      WithoutAt(s.queue, x, r);
      if r in s.active {
        RefillKeepsLease(cfg, f, {x}, now, r);
        StepKeepsValid(cfg, s, Release(x), now);
        ValidMeans(cfg, Step(cfg, s, Release(x), now));
      } else if IsQueued(s, r) {
        ReleaseWaiting(cfg, s, x, now, r);
      } else {
        RefillKeepsOut(cfg, f, {x}, now, r);
      }
    }
    hide Refill, Without, Valid, IndexOf, GotLease, MovedUp, Gain, Publish;
    PublishStands(Refill(cfg, Forget(s, x), {x}, now));
  }

  lemma ReleaseIs(cfg: Config, s: State, x: string, now: real)
    ensures Step(cfg, s, Release(x), now) == Publish(Refill(cfg, Forget(s, x), {x}, now))
  {
  }

  lemma PublishStands(s: State)
    ensures Publish(s).active == s.active && Publish(s).queue == s.queue
  {
  }

  lemma ReleaseWaiting(cfg: Config, s: State, x: string, now: real, r: string)
    requires Valid(cfg, s) && r != x && IsQueued(s, r)
    ensures var t := Step(cfg, s, Release(x), now);
      if x in s.active && IndexOf(s.queue, r) == 0 then GotLease(cfg, s, t, r, now)
      else MovedUp(s, t, r, Gain(s, x, r))
  {
    hide Step;
    ReleaseIs(cfg, s, x, now);
    var f := Forget(s, x);
    ForgetOk(cfg, s, x);
    WithoutAt(s.queue, x, r);
    WithoutIndex(s.queue, x, r);
    EvictOk(cfg, f, {x});
    assert f.active.Keys * {x} == if x in s.active then {x} else {};
    ReleaseFrees(cfg, s, x, r);
    var f1 := f.(active := f.active - {x});
    var t := Fill(cfg, f1, now);
    FillOne(cfg, f1, now, r);
    hide Fill, Without, IndexOf, Valid, FullLease, TableOk, FullIfWaiting, NoRepeats, GotLease, MovedUp, Publish;
    hide Forget;
    SameEntry(cfg, s, f1, t, r, now, if x in s.active then 1 else 0);
  }

  /** Standing in `t` told from the queue before or after somebody else's entry was dropped. */
  lemma SameEntry(cfg: Config, s: State, f: State, t: State, r: string, now: real, n: int)
    requires IsQueued(s, r) && IsQueued(f, r) && s.queue[IndexOf(s.queue, r)] == f.queue[IndexOf(f.queue, r)]
    ensures GotLease(cfg, f, t, r, now) ==> GotLease(cfg, s, Publish(t), r, now)
    ensures MovedUp(f, t, r, n) ==> MovedUp(s, Publish(t), r, n + IndexOf(s.queue, r) - IndexOf(f.queue, r))
  {
    hide IndexOf, FullLease;
  }

  /** Somebody waits, so the table is full and a holder does not wait. */
  lemma ReleaseFrees(cfg: Config, s: State, x: string, r: string)
    requires Valid(cfg, s) && IsQueued(s, r)
    ensures |s.active| == cfg.Capacity() && (x in s.active ==> !IsQueued(s, x))
  {
  }

  /** A confirmed stream marks its holder's lease and counts as being heard from; its term stays. */
  lemma PreparedExact(cfg: Config, s: State, r: string, url: string, now: real, other: string)
    ensures var t := Step(cfg, s, MarkPrepared(r, url), now);
      && t.queue == s.queue && t.adminSlots == s.adminSlots && t.active.Keys == s.active.Keys
      && (other != r && other in s.active ==> t.active[other] == s.active[other])
      && (r in s.active ==>
            && t.active[r].prepared && !t.active[r].needsGrant && t.active[r].lastSeenAt == now
            && t.active[r].expiresAt == s.active[r].expiresAt && t.active[r].startedAt == s.active[r].startedAt
            && t.active[r].customer == s.active[r].customer && t.active[r].slot == s.active[r].slot
            && t.active[r].streamUrl == if url == "" then s.active[r].streamUrl else url)
  {
  }

  // ----- holders over a run ----------------------------------------------

  /** The holder shows itself: its own admission or the confirmation of its stream. */
  predicate HeardFrom(e: Event, r: string) {
    (e.Admit? && e.rental == r && !e.admin && e.rental != "" && e.customer != "") || (e.MarkPrepared? && e.rental == r)
  }

  ghost predicate Silent(evs: seq<Timed>, r: string) {
    forall i :: 0 <= i < |evs| ==> !HeardFrom(evs[i].event, r)
  }

  /** One operation, for a holder that does not show itself: its lease as it is, or gone for good. */
  lemma SilentStep(cfg: Config, s: State, e: Event, now: real, r: string)
    requires Valid(cfg, s) && !HeardFrom(e, r) && !IsQueued(s, r)
    ensures var t := Step(cfg, s, e, now);
      && !IsQueued(t, r)
      && (r in t.active ==> r in s.active && t.active[r] == s.active[r])
      && (r in t.active && Prunes(e) ==> now - s.active[r].lastSeenAt < cfg.idle)
  {
    hide Prune, AdmitPruned, Promote;
    match e
    case Admit(rental, customer, slot, claim, admin) =>
      if Prunes(e) {
        AdmitOthers(cfg, s, e, now, r);
        PruneExact(cfg, s, now, r);
      }
    case Poll => PruneExact(cfg, s, now, r);
    case Release(rental) => ReleaseExact(cfg, s, rental, now, r);
    case MarkPrepared(rental, url) => PreparedExact(cfg, s, rental, url, now, r);
    case MarkAdmin(slot, on) =>
  }

  lemma {:induction false} SilentRun(cfg: Config, s: State, evs: seq<Timed>, r: string)
    requires Valid(cfg, s) && !IsQueued(s, r) && Silent(evs, r)
    ensures var t := Run(cfg, s, evs);
      && Valid(cfg, t) && !IsQueued(t, r) && (r in t.active ==> r in s.active && t.active[r] == s.active[r])
    decreases |evs|
  {
    hide Step, Valid, HeardFrom;
    if evs != [] {
      SilentStep(cfg, s, evs[0].event, evs[0].at, r);
      StepKeepsValid(cfg, s, evs[0].event, evs[0].at);
      SilentRun(cfg, Step(cfg, s, evs[0].event, evs[0].at), evs[1..], r);
    }
  }

  /** A holder that stays silent for the idle limit has no lease after the next operation that prunes. */
  lemma SilentHolderLeaves(cfg: Config, s: State, evs: seq<Timed>, r: string, e: Event, now: real)
    requires Valid(cfg, s) && r in s.active && Silent(evs, r) && !HeardFrom(e, r)
    requires Prunes(e) && now - s.active[r].lastSeenAt >= cfg.idle
    ensures r !in Step(cfg, Run(cfg, s, evs), e, now).active
  {
    ValidMeans(cfg, s);
    SilentRun(cfg, s, evs, r);
    SilentStep(cfg, Run(cfg, s, evs), e, now, r);
  }

  /**
   The holder, last heard from at `seen`, is not released, no operation comes at or after `expiresAt`, and
   none that prunes comes when it has been silent for the idle limit.
   */
  ghost predicate Attended(cfg: Config, evs: seq<Timed>, r: string, seen: real, expiresAt: real)
    decreases |evs|
  {
    evs != [] ==>
      var e, at := evs[0].event, evs[0].at;
      && e != Release(r) && at < expiresAt && (Prunes(e) ==> at - seen < cfg.idle)
      && Attended(cfg, evs[1..], r, if HeardFrom(e, r) then at else seen, expiresAt)
  }

  /** One operation, for an attended holder: it keeps its lease, and the lease knows when the holder showed itself. */
  lemma AttendedStep(cfg: Config, s: State, e: Event, now: real, r: string)
    requires Valid(cfg, s) && r in s.active && e != Release(r) && now < s.active[r].expiresAt
    requires Prunes(e) ==> now - s.active[r].lastSeenAt < cfg.idle
    ensures var t := Step(cfg, s, e, now);
      && r in t.active && SameTerm(t.active[r], s.active[r])
      && t.active[r].lastSeenAt == if HeardFrom(e, r) then now else s.active[r].lastSeenAt
  {
    hide Prune, AdmitPruned, Promote;
    match e
    case Admit(rental, customer, slot, claim, admin) =>
      if Prunes(e) {
        PruneExact(cfg, s, now, r);
        if rental == r {
          AdmitExact(cfg, s, e, now);
        } else {
          AdmitOthers(cfg, s, e, now, r);
        }
      }
    case Poll => PruneExact(cfg, s, now, r);
    case Release(rental) => ReleaseExact(cfg, s, rental, now, r);
    case MarkPrepared(rental, url) => PreparedExact(cfg, s, rental, url, now, r);
    case MarkAdmin(slot, on) =>
  }

  /**
   Over every run: a holder that keeps showing itself within the
   idle limit holds its lease to the end of its term.
   */
  lemma {:induction false} AttendedHolderStays(cfg: Config, s: State, evs: seq<Timed>, r: string)
    requires Valid(cfg, s) && r in s.active
    requires Attended(cfg, evs, r, s.active[r].lastSeenAt, s.active[r].expiresAt)
    ensures var t := Run(cfg, s, evs); r in t.active && SameTerm(t.active[r], s.active[r])
    decreases |evs|
  {
    hide Step, Valid, HeardFrom;
    if evs != [] {
      AttendedStep(cfg, s, evs[0].event, evs[0].at, r);
      StepKeepsValid(cfg, s, evs[0].event, evs[0].at);
      AttendedHolderStays(cfg, Step(cfg, s, evs[0].event, evs[0].at), evs[1..], r);
    }
  }

  // ----- the quote -------------------------------------------------------

  /**
   The quote is no longer than it has to be: at a whole second before it, not below fifteen, fewer
   leases have run out than the position calls for, or fewer than there are.
   */
  lemma QuoteIsLeast(cfg: Config, s: State, now: real, position: int, seconds: int, n: int)
    requires 1 <= position && s.active != map[] && IsWaitEstimate(cfg, s, now, position, seconds)
    requires 15 <= n < seconds
    ensures |Due(s, now + n as real)| < position && |Due(s, now + n as real)| < |s.active|
  {
    var ks :| RanksTo(cfg, s, now, position, seconds, ks);
    var pick := Min(position, |ks|) - 1;
    var due := Due(s, now + n as real);
    assert s.active.Keys == Elements(ks);
    DistinctSize(ks);
    forall r | r in due ensures r in Elements(ks[..pick]) {
      RanksBefore(cfg, s, now, ks, pick, n, r);
    }
    DistinctSize(ks[..pick]);
    SubsetSize(due, Elements(ks[..pick]));
    hide IsRanking, Due, ClampWait, Remaining;
  }

  /** And it is long enough: within it as many leases run out as the position calls for, or all there are. */
  lemma QuoteCovers(cfg: Config, s: State, now: real, position: int, seconds: int)
    requires LeasesWithin(cfg, s, now) && WholeTtl(cfg)
    requires 1 <= position && s.active != map[] && IsWaitEstimate(cfg, s, now, position, seconds)
    ensures |Due(s, now + seconds as real)| >= position || |Due(s, now + seconds as real)| == |s.active|
  {
    var ks :| RanksTo(cfg, s, now, position, seconds, ks);
    RankedCoversPosition(cfg, s, now, Min(position, |ks|), ks);
    assert s.active.Keys == Elements(ks);
    DistinctSize(ks);
    SubsetSize(Due(s, now + seconds as real), s.active.Keys);
  }

  /** A lease that runs out before the quote ranks before the one the quote is taken from. */
  lemma RanksBefore(cfg: Config, s: State, now: real, ks: seq<string>, pick: nat, n: int, r: string)
    requires IsRanking(ks, s.active, now) && pick < |ks|
    requires 15 <= n < ClampWait(cfg, Remaining(s.active[ks[pick]], now))
    requires r in Due(s, now + n as real)
    ensures r in ks[..pick]
  {
    CeilBounds(Remaining(s.active[ks[pick]], now));
    var i :| 0 <= i < |ks| && ks[i] == r;
    assert Remaining(s.active[r], now) <= n as real;
    assert i < pick;
    assert ks[..pick][i] == r;
  }
}
