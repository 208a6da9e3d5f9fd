/**
 What one operation of the customer stream queue keeps, and how far it moves a
 waiting rental.
 */
module StreamQueueSteps {
  import opened Basics
  import opened StreamQueueModel

  predicate IsQueued(s: State, r: string) {
    IndexOf(s.queue, r) < |s.queue|
  }

  /** Leases that will have expired by `deadline`. */
  function Due(s: State, deadline: real): set<string> {
    set r | r in s.active && s.active[r].expiresAt <= deadline
  }

  // ----- positions in the queue ------------------------------------------

  lemma {:induction false} IndexOfAt(q: seq<Entry>, i: nat)
    requires NoRepeats(q) && i < |q|
    ensures IndexOf(q, q[i].rental) == i
  {
    if i > 0 {
      assert q[0].rental != q[i].rental;
      IndexOfAt(q[1..], i - 1);
    }
  }

  lemma IndexOfTail(q: seq<Entry>, k: nat, r: string)
    requires NoRepeats(q) && k <= |q|
    ensures IndexOf(q[k..], r) < |q| - k ==> IndexOf(q, r) == k + IndexOf(q[k..], r)
    ensures k <= IndexOf(q, r) < |q| ==> IndexOf(q[k..], r) == IndexOf(q, r) - k
  {
    var i := IndexOf(q[k..], r);
    if i < |q| - k {
      assert q[k..][i] == q[k + i];
      IndexOfAt(q, k + i);
    }
    var j := IndexOf(q, r);
    if k <= j < |q| {
      assert q[k..][j - k] == q[j];
      IndexOfAt(q[k..], j - k);
    }
  }

  lemma {:induction false} AbsentFrom(q: seq<Entry>, r: string)
    requires IndexOf(q, r) == |q|
    ensures forall i :: 0 <= i < |q| ==> q[i].rental != r
  {
    if q != [] {
      AbsentFrom(q[1..], r);
      assert forall i :: 1 <= i < |q| ==> q[i] == q[1..][i - 1];
    }
  }

  lemma {:induction false} WithoutShape(q: seq<Entry>, x: string)
    requires NoRepeats(q)
    ensures var w := Without(q, x);
      |w| <= |q| && NoRepeats(w) && IndexOf(w, x) == |w| && (IndexOf(q, x) == |q| ==> w == q)
  {
    if q != [] {
      WithoutShape(q[1..], x);
      if q[0].rental != x {
        assert Without(q, x)[1..] == Without(q[1..], x);
        WithoutKeepsOut(q[1..], x, q[0].rental);
      }
    }
  }

  /** Dropping `x` keeps everybody else's entry and moves nobody back. */
  lemma {:induction false} WithoutAt(q: seq<Entry>, x: string, r: string)
    ensures var w := Without(q, x);
      && (IndexOf(w, r) < |w| <==> r != x && IndexOf(q, r) < |q|)
      && (IndexOf(w, r) < |w| ==> w[IndexOf(w, r)] == q[IndexOf(q, r)] && IndexOf(w, r) <= IndexOf(q, r))
  {
    if q != [] {
      WithoutAt(q[1..], x, r);
      if q[0].rental != x {
        assert Without(q, x)[1..] == Without(q[1..], x);
      } else {
        assert Without(q, x) == Without(q[1..], x);
      }
    }
  }

  lemma {:induction false} WithoutKeepsOut(q: seq<Entry>, x: string, r: string)
    requires forall i :: 0 <= i < |q| ==> q[i].rental != r
    ensures forall i :: 0 <= i < |Without(q, x)| ==> Without(q, x)[i].rental != r
  {
    if q != [] {
      WithoutKeepsOut(q[1..], x, r);
    }
  }

  // ----- evicting and refilling ------------------------------------------

  /** The common core of prune and release: drop the leases in `gone`, then promote. */
  function Refill(cfg: Config, s: State, gone: set<string>, now: real): State {
    Fill(cfg, s.(active := s.active - gone), now)
  }

  lemma EvictOk(cfg: Config, s: State, gone: set<string>)
    requires TableOk(cfg, s)
    ensures TableOk(cfg, s.(active := s.active - gone))
    ensures |s.active - gone| == |s.active| - |s.active.Keys * gone|
  {
    var t := s.(active := s.active - gone);
    assert t.active.Keys == s.active.Keys - gone;
    assert s.active.Keys == t.active.Keys + s.active.Keys * gone;
  }

  lemma GrantedRental(cfg: Config, e: Entry, now: real)
    ensures Granted(cfg, e, now).rental == e.rental
  {
  }

  /** A fill keeps the table in order, and whoever still waits finds it full. */
  lemma ShapeOk(cfg: Config, s: State, t: State, now: real, k: nat)
    requires TableOk(cfg, s) && FillShape(cfg, s, t, now, k)
    ensures TableOk(cfg, t) && FullIfWaiting(cfg, t)
  {
    forall r | r in t.active ensures t.active[r].rental == r {
      assert FillKey(cfg, s, t, now, k, r);
      if r !in s.active {
        GrantedRental(cfg, s.queue[IndexOf(s.queue, r)], now);
      }
    }
    forall i | 0 <= i < |t.queue| ensures t.queue[i] == s.queue[k + i] && t.queue[i].rental !in t.active {
      var r := t.queue[i].rental;
      assert t.queue[i] == s.queue[k + i];
      IndexOfAt(s.queue, k + i);
      assert FillKey(cfg, s, t, now, k, r);
    }
    hide IndexOf, FillKey;
  }

  lemma RefillOk(cfg: Config, s: State, gone: set<string>, now: real)
    requires TableOk(cfg, s) && FullIfWaiting(cfg, s)
    ensures TableOk(cfg, Refill(cfg, s, gone, now)) && FullIfWaiting(cfg, Refill(cfg, s, gone, now))
  {
    EvictOk(cfg, s, gone);
    var s1 := s.(active := s.active - gone);
    var k := FillIs(cfg, s1, now);
    hide TableOk, FullIfWaiting, FillShape, Fill;
    ShapeOk(cfg, s1, Fill(cfg, s1, now), now, k);
  }

  /** Each evicted lease moves every rental that still waits up by one place. */
  lemma RefillMoves(cfg: Config, s: State, gone: set<string>, now: real, r: string)
    requires TableOk(cfg, s) && FullIfWaiting(cfg, s)
    requires IsQueued(Refill(cfg, s, gone, now), r)
    ensures IsQueued(s, r)
    ensures IndexOf(s.queue, r) == IndexOf(Refill(cfg, s, gone, now).queue, r) + |s.active.Keys * gone|
  {
    EvictOk(cfg, s, gone);
    var s1 := s.(active := s.active - gone);
    var k := FillIs(cfg, s1, now);
    IndexOfTail(s.queue, k, r);
  }

  /** A waiting rental leaves the queue here only by being granted its lease. */
  lemma RefillGrants(cfg: Config, s: State, gone: set<string>, now: real, r: string)
    requires TableOk(cfg, s) && IsQueued(s, r)
    requires !IsQueued(Refill(cfg, s, gone, now), r)
    ensures var t := Refill(cfg, s, gone, now);
      r in t.active && t.active[r] == Granted(cfg, s.queue[IndexOf(s.queue, r)], now)
  {
    EvictOk(cfg, s, gone);
    var s1 := s.(active := s.active - gone);
    var k := FillIs(cfg, s1, now);
    IndexOfTail(s.queue, k, r);
    assert FillKey(cfg, s1, Fill(cfg, s1, now), now, k, r);
  }

  /** Leases that were not evicted keep their deadline, so few of the due ones are lost. */
  lemma RefillDue(cfg: Config, s: State, gone: set<string>, now: real, deadline: real)
    requires TableOk(cfg, s)
    ensures |Due(s, deadline)| <= |Due(Refill(cfg, s, gone, now), deadline)| + |s.active.Keys * gone|
  {
    EvictOk(cfg, s, gone);
    var s1 := s.(active := s.active - gone);
    var t := Fill(cfg, s1, now);
    var k := FillIs(cfg, s1, now);
    forall r | r in Due(s, deadline) ensures r in Due(t, deadline) + s.active.Keys * gone {
      assert FillKey(cfg, s1, t, now, k, r);
    }
    CoverSize(Due(s, deadline), Due(t, deadline), s.active.Keys * gone);
  }

  /** Only rentals ahead of a waiting one are granted before it. */
  lemma RefillOrder(cfg: Config, s: State, gone: set<string>, now: real, r: string, other: string)
    requires TableOk(cfg, s) && FullIfWaiting(cfg, s)
    requires IsQueued(Refill(cfg, s, gone, now), r)
    requires other in Refill(cfg, s, gone, now).active
    ensures other in s.active || IndexOf(s.queue, other) < IndexOf(s.queue, r)
  {
    EvictOk(cfg, s, gone);
    var s1 := s.(active := s.active - gone);
    var k := FillIs(cfg, s1, now);
    assert FillKey(cfg, s1, Fill(cfg, s1, now), now, k, other);
    IndexOfTail(s.queue, k, r);
  }

  lemma RefillWithin(cfg: Config, s: State, gone: set<string>, now: real)
    requires TableOk(cfg, s) && LeasesWithin(cfg, s, now)
    ensures LeasesWithin(cfg, Refill(cfg, s, gone, now), now)
  {
    EvictOk(cfg, s, gone);
    var s1 := s.(active := s.active - gone);
    var t := Fill(cfg, s1, now);
    var k := FillIs(cfg, s1, now);
    forall r | r in t.active ensures t.active[r].expiresAt <= now + cfg.ttl {
      assert FillKey(cfg, s1, t, now, k, r);
    }
  }

  // ----- whole operations ------------------------------------------------

  lemma PublishOk(s: State)
    requires TraceOk(s)
    ensures TraceOk(Publish(s))
    ensures Publish(s).busy == (s.active != map[] || s.adminSlots != {})
    ensures Publish(s) == s.(busy := Publish(s).busy, published := Publish(s).published)
  {
  }

  lemma FillKeepsTrace(cfg: Config, s: State, now: real)
    requires TableOk(cfg, s)
    ensures var t := Fill(cfg, s, now); t == s.(active := t.active, queue := t.queue)
  {
    var k := FillIs(cfg, s, now);
  }

  /** Evict, refill, publish: everything a prune or a release does after editing the queue. */
  lemma RecoverValid(cfg: Config, s: State, gone: set<string>, now: real)
    requires TableOk(cfg, s) && FullIfWaiting(cfg, s) && TraceOk(s)
    ensures Valid(cfg, Promote(cfg, s.(active := s.active - gone), now))
  {
    var s1 := s.(active := s.active - gone);
    EvictOk(cfg, s, gone);
    RefillOk(cfg, s, gone, now);
    FillKeepsTrace(cfg, s1, now);
    PublishOk(Fill(cfg, s1, now));
  }

  /** `release` first forgets the rental's queue entry. */
  function Forget(s: State, rental: string): State {
    s.(queue := Without(s.queue, rental))
  }

  lemma ForgetOk(cfg: Config, s: State, rental: string)
    requires Valid(cfg, s)
    ensures var t := Forget(s, rental); TableOk(cfg, t) && FullIfWaiting(cfg, t) && TraceOk(t)
  {
    var t := Forget(s, rental);
    WithoutShape(s.queue, rental);
    forall i | 0 <= i < |t.queue| ensures t.queue[i].rental !in s.active {
      var r := t.queue[i].rental;
      IndexOfAt(t.queue, i);
      WithoutAt(s.queue, rental, r);
    }
  }

  lemma PruneValid(cfg: Config, s: State, now: real)
    requires Valid(cfg, s)
    ensures Valid(cfg, Prune(cfg, s, now))
  {
    RecoverValid(cfg, s, Overdue(cfg, s, now), now);
  }

  lemma EditLeaseValid(cfg: Config, s: State, r: string, lease: Lease)
    requires Valid(cfg, s) && r in s.active && lease.rental == r
    ensures Valid(cfg, s.(active := s.active[r := lease]))
  {
    assert s.active[r := lease].Keys == s.active.Keys;
  }

  lemma EditEntryValid(cfg: Config, s: State, i: nat, e: Entry)
    requires Valid(cfg, s) && i < |s.queue| && e.rental == s.queue[i].rental
    ensures Valid(cfg, s.(queue := s.queue[i := e]))
  {
  }

  lemma ClaimValid(cfg: Config, s: State, r: string, lease: Lease)
    requires Valid(cfg, s) && r !in s.active && |s.active| < cfg.Capacity() && lease.rental == r
    ensures Valid(cfg, Publish(s.(active := s.active[r := lease])))
  {
    assert s.active[r := lease].Keys == s.active.Keys + {r};
    PublishOk(s.(active := s.active[r := lease]));
  }

  lemma EnqueueValid(cfg: Config, s: State, e: Entry)
    requires Valid(cfg, s) && e.rental !in s.active && !IsQueued(s, e.rental) && |s.active| == cfg.Capacity()
    ensures Valid(cfg, s.(queue := s.queue + [e]))
  {
    AbsentFrom(s.queue, e.rental);
  }

  lemma SetAdminValid(cfg: Config, s: State, slot: int, on: bool)
    requires Valid(cfg, s)
    ensures Valid(cfg, SetAdmin(s, slot, on))
  {
    PublishOk(s.(adminSlots := if on then s.adminSlots + {slot} else s.adminSlots - {slot}));
    hide TraceOk, Publish;
  }

  lemma AdmitPrunedValid(cfg: Config, p: State, rental: string, customer: string, slot: int, claim: bool, now: real)
    requires Valid(cfg, p)
    ensures Valid(cfg, AdmitPruned(cfg, p, rental, customer, slot, claim, now))
  {
    var i := IndexOf(p.queue, rental);
    if rental in p.active {
      EditLeaseValid(cfg, p, rental, p.active[rental].(lastSeenAt := now));
    } else if i < |p.queue| {
      EditEntryValid(cfg, p, i, Refreshed(p.queue[i], customer, slot, claim, now));
    } else if |p.active| < cfg.Capacity() {
      ClaimValid(cfg, p, rental, NewLease(cfg, rental, customer, slot, now, false));
    } else {
      EnqueueValid(cfg, p, Entry(rental, customer, slot, now, now, true));
    }
  }

  /** Every operation keeps the queue's invariant. */
  lemma StepKeepsValid(cfg: Config, s: State, e: Event, now: real)
    requires Valid(cfg, s)
    ensures Valid(cfg, Step(cfg, s, e, now))
  {
    match e
    case Admit(rental, customer, slot, claim, admin) =>
      if Prunes(e) {
        PruneValid(cfg, s, now);
        AdmitPrunedValid(cfg, Prune(cfg, s, now), rental, customer, slot, claim, now);
      } else {
        SetAdminValid(cfg, s, slot, true);
      }
    case MarkPrepared(rental, url) =>
      if rental in s.active {
        EditLeaseValid(cfg, s, rental, Step(cfg, s, e, now).active[rental]);
      }
    case Release(rental) =>
      ForgetOk(cfg, s, rental);
      RecoverValid(cfg, Forget(s, rental), {rental}, now);
    case MarkAdmin(slot, on) =>
      SetAdminValid(cfg, s, slot, on);
    case Poll =>
      PruneValid(cfg, s, now);
  }

  // ----- progress of one waiting rental ----------------------------------

  /** `other` holds a lease or waits ahead of `r`. */
  predicate Before(s: State, other: string, r: string) {
    other in s.active || IndexOf(s.queue, other) < IndexOf(s.queue, r)
  }

  /**
   How far one operation may leave `r`, which waits before and after it. `served`
   says the operation pruned the table at or after `deadline`.
   */
  ghost predicate Advanced(s: State, t: State, r: string, deadline: real, served: bool) {
    && IndexOf(t.queue, r) <= IndexOf(s.queue, r)
    && IndexOf(t.queue, r) + |Due(s, deadline)| <= IndexOf(s.queue, r) + |Due(t, deadline)|
    && (served ==> IndexOf(t.queue, r) + |Due(s, deadline)| <= IndexOf(s.queue, r))
    && (forall other :: Before(t, other, r) ==> Before(s, other, r))
  }

  lemma RefillAdvances(cfg: Config, s: State, gone: set<string>, now: real, r: string, deadline: real)
    requires TableOk(cfg, s) && FullIfWaiting(cfg, s)
    requires IsQueued(Refill(cfg, s, gone, now), r)
    ensures Advanced(s, Refill(cfg, s, gone, now), r, deadline, Due(s, deadline) <= gone)
  {
    var t := Refill(cfg, s, gone, now);
    RefillMoves(cfg, s, gone, now, r);
    RefillDue(cfg, s, gone, now, deadline);
    if Due(s, deadline) <= gone {
      SubsetSize(Due(s, deadline), s.active.Keys * gone);
    }
    forall other | Before(t, other, r) ensures Before(s, other, r) {
      if other in t.active {
        RefillOrder(cfg, s, gone, now, r, other);
      } else {
        RefillMoves(cfg, s, gone, now, other);
      }
    }
  }

  lemma PublishAdvances(s: State, t: State, r: string, deadline: real, served: bool)
    requires Advanced(s, t, r, deadline, served)
    ensures Advanced(s, Publish(t), r, deadline, served)
  {
    assert Due(t, deadline) == Due(Publish(t), deadline);
    assert forall other :: Before(Publish(t), other, r) ==> Before(t, other, r);
  }

  lemma PruneAdvances(cfg: Config, s: State, now: real, r: string, deadline: real)
    requires Valid(cfg, s) && IsQueued(Prune(cfg, s, now), r)
    ensures IsQueued(s, r)
    ensures Advanced(s, Prune(cfg, s, now), r, deadline, deadline <= now)
  {
    var gone := Overdue(cfg, s, now);
    RefillMoves(cfg, s, gone, now, r);
    RefillAdvances(cfg, s, gone, now, r, deadline);
    PublishAdvances(s, Refill(cfg, s, gone, now), r, deadline, deadline <= now);
  }

  lemma AdvancedThen(s: State, p: State, t: State, r: string, deadline: real, served: bool)
    requires Advanced(s, p, r, deadline, served)
    requires IndexOf(t.queue, r) == IndexOf(p.queue, r)
    requires forall x :: x in Due(p, deadline) ==> x in Due(t, deadline)
    requires forall other :: Before(t, other, r) ==> Before(p, other, r)
    ensures Advanced(s, t, r, deadline, served)
  {
    SubsetSize(Due(p, deadline), Due(t, deadline));
  }

  lemma {:induction false} EditEntryIndex(q: seq<Entry>, i: nat, e: Entry, r: string)
    requires i < |q| && e.rental == q[i].rental
    ensures IndexOf(q[i := e], r) == IndexOf(q, r)
  {
    if i > 0 {
      assert q[i := e][1..] == q[1..][i - 1 := e];
      EditEntryIndex(q[1..], i - 1, e, r);
    } else {
      assert q[i := e][1..] == q[1..];
    }
  }

  lemma {:induction false} AppendIndex(q: seq<Entry>, e: Entry, r: string)
    ensures IndexOf(q, r) < |q| ==> IndexOf(q + [e], r) == IndexOf(q, r)
    ensures IndexOf(q, r) == |q| ==> IndexOf(q + [e], r) == if e.rental == r then |q| else |q| + 1
  {
    if q != [] {
      assert (q + [e])[1..] == q[1..] + [e];
      AppendIndex(q[1..], e, r);
    }
  }

  /** After its prune, `admit` leaves every waiting rental where it is. */
  lemma AdmitPrunedStays(cfg: Config, p: State, rental: string, customer: string, slot: int, claim: bool, now: real,
                         r: string)
    requires Valid(cfg, p) && IsQueued(p, r)
    ensures var t := AdmitPruned(cfg, p, rental, customer, slot, claim, now);
      && IsQueued(t, r) && IndexOf(t.queue, r) == IndexOf(p.queue, r)
      && (forall deadline, x :: x in Due(p, deadline) ==> x in Due(t, deadline))
      && (forall other :: Before(t, other, r) ==> Before(p, other, r))
  {
    var t := AdmitPruned(cfg, p, rental, customer, slot, claim, now);
    var i := IndexOf(p.queue, rental);
    if rental !in p.active {
      if i < |p.queue| {
        forall x ensures IndexOf(t.queue, x) == IndexOf(p.queue, x) {
          EditEntryIndex(p.queue, i, Refreshed(p.queue[i], customer, slot, claim, now), x);
        }
      } else {
        assert |p.active| == cfg.Capacity();
        forall x ensures IndexOf(p.queue, x) < |p.queue| ==> IndexOf(t.queue, x) == IndexOf(p.queue, x)
          ensures IndexOf(p.queue, x) == |p.queue| ==> IndexOf(t.queue, x) >= |p.queue|
        {
          AppendIndex(p.queue, Entry(rental, customer, slot, now, now, true), x);
        }
      }
    }
  }

  lemma ForgetStays(s: State, rental: string, r: string)
    requires NoRepeats(s.queue) && IsQueued(Forget(s, rental), r)
    ensures forall deadline :: Advanced(s, Forget(s, rental), r, deadline, false)
  {
    WithoutAt(s.queue, rental, r);
    assert forall deadline :: Due(s, deadline) == Due(Forget(s, rental), deadline);
    forall other | Before(Forget(s, rental), other, r) ensures Before(s, other, r) {
      if other !in s.active {
        WithoutOrder(s.queue, rental, other, r);
      }
    }
  }

  lemma {:induction false} WithoutOrder(q: seq<Entry>, x: string, a: string, b: string)
    requires IndexOf(Without(q, x), b) < |Without(q, x)|
    requires IndexOf(Without(q, x), a) < IndexOf(Without(q, x), b)
    ensures IndexOf(q, a) < IndexOf(q, b)
  {
    if q[0].rental != x {
      assert Without(q, x)[1..] == Without(q[1..], x);
      if q[0].rental != a {
        WithoutOrder(q[1..], x, a, b);
      }
    } else {
      assert Without(q, x) == Without(q[1..], x);
      WithoutAt(q, x, b);
      if q[0].rental != a {
        WithoutOrder(q[1..], x, a, b);
      }
    }
  }

  /** Two legs of one operation, the second of which alone may serve the deadline. */
  lemma AdvancedTrans(s: State, p: State, t: State, r: string, deadline: real, served: bool)
    requires Advanced(s, p, r, deadline, false) && Advanced(p, t, r, deadline, served)
    ensures Advanced(s, t, r, deadline, served && Due(s, deadline) == Due(p, deadline))
    ensures Advanced(s, t, r, deadline, false)
  {
  }

  /**
   One operation at `now` moves a rental that goes on waiting only forward: the
   count of leases due by any deadline that vanish bounds from below how far it
   moves, a prune at the deadline clears them all, and nobody new gets ahead.
   */
  lemma StepAdvances(cfg: Config, s: State, e: Event, now: real, r: string, deadline: real)
    requires Valid(cfg, s) && IsQueued(s, r) && IsQueued(Step(cfg, s, e, now), r)
    ensures Advanced(s, Step(cfg, s, e, now), r, deadline, Prunes(e) && deadline <= now)
  {
    hide Prune, AdmitPruned, IndexOf, Fill, Without, Advanced;
    match e
    case Admit(rental, customer, slot, claim, admin) =>
      if Prunes(e) {
        var p := Prune(cfg, s, now);
        PruneValid(cfg, s, now);
        WaitsThroughPrune(cfg, s, e, now, r);
        PruneAdvances(cfg, s, now, r, deadline);
        AdmitPrunedStays(cfg, p, rental, customer, slot, claim, now, r);
        AdvancedThen(s, p, Step(cfg, s, e, now), r, deadline, deadline <= now);
      } else {
        PublishOrSame(s, Step(cfg, s, e, now), r, deadline);
      }
    case MarkPrepared(rental, url) =>
      PreparedAdvances(cfg, s, rental, url, now, r, deadline);
    case Release(rental) =>
      var f := Forget(s, rental);
      ForgetOk(cfg, s, rental);
      WithoutAt(s.queue, rental, r);
      RefillMoves(cfg, f, {rental}, now, r);
      ForgetStays(s, rental, r);
      RefillAdvances(cfg, f, {rental}, now, r, deadline);
      PublishAdvances(f, Refill(cfg, f, {rental}, now), r, deadline, false);
      AdvancedTrans(s, f, Step(cfg, s, e, now), r, deadline, false);
    case MarkAdmin(slot, on) =>
      PublishOrSame(s, Step(cfg, s, e, now), r, deadline);
    case Poll =>
      PruneAdvances(cfg, s, now, r, deadline);
  }

  lemma PreparedAdvances(cfg: Config, s: State, rental: string, url: string, now: real, r: string, deadline: real)
    ensures Advanced(s, Step(cfg, s, MarkPrepared(rental, url), now), r, deadline, false)
  {
    assert Due(Step(cfg, s, MarkPrepared(rental, url), now), deadline) == Due(s, deadline);
  }

  lemma PublishOrSame(s: State, t: State, r: string, deadline: real)
    requires t.active == s.active && t.queue == s.queue
    ensures Advanced(s, t, r, deadline, false)
  {
    assert Due(t, deadline) == Due(s, deadline);
  }

  /** A rental that waits before and after `admit` also waits right after its prune. */
  lemma WaitsThroughPrune(cfg: Config, s: State, e: Event, now: real, r: string)
    requires Valid(cfg, s) && e.Admit? && Prunes(e)
    requires IsQueued(s, r) && IsQueued(Step(cfg, s, e, now), r)
    ensures IsQueued(Prune(cfg, s, now), r)
  {
    StepKeepsValid(cfg, s, e, now);
    if !IsQueued(Prune(cfg, s, now), r) {
      RefillGrants(cfg, s, Overdue(cfg, s, now), now, r);
      assert false;
    }
  }

  /** After its prune, `admit` keeps every lease's term; a fresh claim gets one full TTL. */
  lemma AdmitPrunedLeases(cfg: Config, p: State, rental: string, customer: string, slot: int, claim: bool, now: real,
                          r: string)
    ensures var t := AdmitPruned(cfg, p, rental, customer, slot, claim, now);
      && (r in p.active ==> r in t.active && t.active[r] == p.active[r].(lastSeenAt := t.active[r].lastSeenAt))
      && (r !in p.active && r in t.active ==> t.active[r].expiresAt == now + cfg.ttl)
  {
  }

  /** Refilling never brings in a rental that neither survives nor waits. */
  lemma RefillKeepsOut(cfg: Config, s: State, gone: set<string>, now: real, r: string)
    requires TableOk(cfg, s) && !IsQueued(s, r) && (r in s.active ==> r in gone)
    ensures r !in Refill(cfg, s, gone, now).active && !IsQueued(Refill(cfg, s, gone, now), r)
  {
    EvictOk(cfg, s, gone);
    var s1 := s.(active := s.active - gone);
    var k := FillIs(cfg, s1, now);
    assert FillKey(cfg, s1, Fill(cfg, s1, now), now, k, r);
    IndexOfTail(s.queue, k, r);
  }

  /** A released rental is gone: its entry is dropped, and nothing re-creates its lease. */
  lemma ReleasedIsGone(cfg: Config, s: State, r: string, now: real)
    requires Valid(cfg, s)
    ensures var t := Step(cfg, s, Release(r), now); r !in t.active && !IsQueued(t, r)
  {
    ForgetOk(cfg, s, r);
    WithoutShape(s.queue, r);
    RefillKeepsOut(cfg, Forget(s, r), {r}, now, r);
  }

  lemma ReleaseLeaves(cfg: Config, s: State, rental: string, now: real, r: string)
    requires Valid(cfg, s) && IsQueued(s, r) && !IsQueued(Step(cfg, s, Release(rental), now), r)
    ensures var t := Step(cfg, s, Release(rental), now);
      if rental == r then r !in t.active
      else r in t.active && t.active[r] == Granted(cfg, s.queue[IndexOf(s.queue, r)], now)
  {
    if rental != r {
      ForgetOk(cfg, s, rental);
      WithoutAt(s.queue, rental, r);
      RefillGrants(cfg, Forget(s, rental), {rental}, now, r);
    } else {
      ReleasedIsGone(cfg, s, r, now);
    }
  }

  lemma AdmitLeaves(cfg: Config, s: State, e: Event, now: real, r: string)
    requires Valid(cfg, s) && e.Admit? && Prunes(e) && IsQueued(s, r) && !IsQueued(Step(cfg, s, e, now), r)
    ensures var t := Step(cfg, s, e, now);
      && r in t.active
      && t.active[r] == Granted(cfg, s.queue[IndexOf(s.queue, r)], now).(lastSeenAt := t.active[r].lastSeenAt)
  {
    var p := Prune(cfg, s, now);
    PruneValid(cfg, s, now);
    if IsQueued(p, r) {
      AdmitPrunedStays(cfg, p, e.rental, e.customer, e.slot, e.claim, now, r);
    } else {
      RefillGrants(cfg, s, Overdue(cfg, s, now), now, r);
      AdmitPrunedLeases(cfg, p, e.rental, e.customer, e.slot, e.claim, now, r);
    }
  }

  /** A waiting rental stops waiting only by its own release or by being granted a full-length lease. */
  lemma {:induction false} LeavesByGrantOrRelease(cfg: Config, s: State, e: Event, now: real, r: string)
    requires Valid(cfg, s) && IsQueued(s, r) && !IsQueued(Step(cfg, s, e, now), r)
    ensures var t := Step(cfg, s, e, now);
      if e == Release(r) then r !in t.active
      else
        && r in t.active && t.active[r].startedAt == now && t.active[r].expiresAt == now + cfg.ttl
        && t.active[r].needsGrant == s.queue[IndexOf(s.queue, r)].needsGrant
  {
    match e
    case Admit(rental, customer, slot, claim, admin) =>
      AdmitLeaves(cfg, s, e, now, r);
    case Release(rental) =>
      ReleaseLeaves(cfg, s, rental, now, r);
    case Poll =>
      RefillGrants(cfg, s, Overdue(cfg, s, now), now, r);
    case _ =>
  }

  lemma AdmitWithin(cfg: Config, p: State, rental: string, customer: string, slot: int, claim: bool, now: real)
    requires LeasesWithin(cfg, p, now)
    ensures LeasesWithin(cfg, AdmitPruned(cfg, p, rental, customer, slot, claim, now), now)
  {
    var t := AdmitPruned(cfg, p, rental, customer, slot, claim, now);
    forall r | r in t.active ensures t.active[r].expiresAt <= now + cfg.ttl {
      AdmitPrunedLeases(cfg, p, rental, customer, slot, claim, now, r);
    }
  }

  lemma PruneWithin(cfg: Config, s: State, now: real)
    requires Valid(cfg, s) && LeasesWithin(cfg, s, now)
    ensures LeasesWithin(cfg, Prune(cfg, s, now), now)
  {
    RefillWithin(cfg, s, Overdue(cfg, s, now), now);
  }

  lemma ReleaseWithin(cfg: Config, s: State, rental: string, now: real)
    requires Valid(cfg, s) && LeasesWithin(cfg, s, now)
    ensures LeasesWithin(cfg, Step(cfg, s, Release(rental), now), now)
  {
    ForgetOk(cfg, s, rental);
    RefillWithin(cfg, Forget(s, rental), {rental}, now);
  }

  lemma {:induction false} StepWithin(cfg: Config, s: State, e: Event, before: real, now: real)
    requires Valid(cfg, s) && LeasesWithin(cfg, s, before) && before <= now
    ensures LeasesWithin(cfg, Step(cfg, s, e, now), now)
  {
    assert LeasesWithin(cfg, s, now);
    hide Valid, Prune, AdmitPruned;
    match e
    case Admit(rental, customer, slot, claim, admin) =>
      if Prunes(e) {
        PruneWithin(cfg, s, now);
        AdmitWithin(cfg, Prune(cfg, s, now), rental, customer, slot, claim, now);
      }
    case Release(rental) =>
      ReleaseWithin(cfg, s, rental, now);
    case Poll =>
      PruneWithin(cfg, s, now);
    case _ =>
  }

  lemma RefillKeepsLease(cfg: Config, s: State, gone: set<string>, now: real, r: string)
    requires TableOk(cfg, s) && r in s.active
    ensures var t := Refill(cfg, s, gone, now);
      (r in t.active <==> r !in gone) && (r !in gone ==> t.active[r] == s.active[r])
  {
    EvictOk(cfg, s, gone);
    var s1 := s.(active := s.active - gone);
    var k := FillIs(cfg, s1, now);
    assert FillKey(cfg, s1, Fill(cfg, s1, now), now, k, r);
  }

  /** A lease across one operation: the same term, whatever heartbeats it had. */
  ghost predicate SameTerm(a: Lease, b: Lease) {
    a.startedAt == b.startedAt && a.expiresAt == b.expiresAt
  }

  /**
   An operation that leaves a rental with a lease leaves its lease's term alone, heartbeats included;
   the one exception is the rental's own admission after its lease had run out, which starts a new term.
   */
  lemma TermsAreKept(cfg: Config, s: State, e: Event, now: real, r: string)
    requires Valid(cfg, s) && r in s.active && r in Step(cfg, s, e, now).active
    ensures var t := Step(cfg, s, e, now);
      SameTerm(s.active[r], t.active[r])
      || (Expired(cfg, s.active[r], now) && e.Admit? && e.rental == r && Prunes(e)
        && t.active[r].expiresAt == now + cfg.ttl)
  {
    hide Prune, AdmitPruned, Fill;
    match e
    case Admit(rental, customer, slot, claim, admin) =>
      if Prunes(e) {
        PruneKeepsLease(cfg, s, now, r);
        AdmitPrunedTerms(cfg, Prune(cfg, s, now), rental, customer, slot, claim, now, r);
      }
    case MarkPrepared(rental, url) =>
    case Release(rental) =>
      if rental == r {
        ReleasedIsGone(cfg, s, r, now);
        assert false;
      } else {
        ForgetOk(cfg, s, rental);
        RefillKeepsLease(cfg, Forget(s, rental), {rental}, now, r);
      }
    case MarkAdmin(slot, on) =>
    case Poll =>
      PruneKeepsLease(cfg, s, now, r);
  }

  lemma PruneKeepsLease(cfg: Config, s: State, now: real, r: string)
    requires Valid(cfg, s) && r in s.active
    ensures var p := Prune(cfg, s, now);
      (r in p.active <==> !Expired(cfg, s.active[r], now)) && (r in p.active ==> p.active[r] == s.active[r])
  {
    RefillKeepsLease(cfg, s, Overdue(cfg, s, now), now, r);
  }

  lemma AdmitPrunedTerms(cfg: Config, p: State, rental: string, customer: string, slot: int, claim: bool, now: real,
                         r: string)
    ensures var t := AdmitPruned(cfg, p, rental, customer, slot, claim, now);
      && (r in p.active ==> r in t.active && SameTerm(p.active[r], t.active[r]))
      && (r !in p.active && r in t.active ==> r == rental && t.active[r].expiresAt == now + cfg.ttl)
  {
  }
}
