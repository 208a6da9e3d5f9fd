/**
 The customer live-stream queue as a transition function on values: a bounded
 table of leases, a first-in-first-out wait queue, expiry, promotion, wait
 estimates and the edge-triggered busy callback.
 */
module StreamQueueModel {
  import opened Basics

  const MIN_WAIT_SECONDS := 15

  datatype Config = Config(maxConcurrent: int, ttl: real, idle: real) {
    function Capacity(): int {
      Max(1, maxConcurrent)
    }
  }

  datatype Lease = Lease(
    rental: string, customer: string, slot: int,
    startedAt: real, lastSeenAt: real, expiresAt: real,
    streamUrl: string, prepared: bool, needsGrant: bool)

  datatype Entry = Entry(
    rental: string, customer: string, slot: int,
    enqueuedAt: real, lastPolledAt: real, needsGrant: bool)

  /** `published` is the sequence of values passed to the busy callback so far. */
  datatype State = State(
    active: map<string, Lease>, queue: seq<Entry>,
    adminSlots: set<int>, busy: bool, published: seq<bool>)

  const INITIAL := State(map[], [], {}, false, [])

  datatype Event =
    | Admit(rental: string, customer: string, slot: int, claim: bool, admin: bool)
    | MarkPrepared(rental: string, streamUrl: string)
    | Release(rental: string)
    | MarkAdmin(slot: int, on: bool)
    | Poll // has_busy_streams and active_count

  datatype Decision =
    | Untracked
    | Active(lease: Lease)
    | Queued(position: int, seconds: int, minutes: int)

  // ----- one operation ---------------------------------------------------

  predicate Expired(cfg: Config, lease: Lease, now: real) {
    lease.expiresAt <= now || now - lease.lastSeenAt >= cfg.idle
  }

  function NewLease(cfg: Config, rental: string, customer: string, slot: int, now: real, needsGrant: bool): Lease {
    Lease(rental, customer, slot, now, now, now + cfg.ttl,
          "/rentals/" + rental + "/remote-access/stream", false, needsGrant)
  }

  function Granted(cfg: Config, e: Entry, now: real): Lease {
    NewLease(cfg, e.rental, e.customer, e.slot, now, e.needsGrant)
  }

  function Publish(s: State): State {
    var busy := s.active != map[] || s.adminSlots != {};
    if busy == s.busy then s else s.(busy := busy, published := s.published + [busy])
  }

  /** One promotion: the head of the queue becomes a lease. */
  function PopHead(cfg: Config, s: State, now: real): State
    requires s.queue != []
  {
    var e := s.queue[0];
    s.(queue := s.queue[1..], active := s.active[e.rental := Granted(cfg, e, now)])
  }

  /** The promotion loop, before the busy flag is published. */
  function Fill(cfg: Config, s: State, now: real): State
    decreases |s.queue|
  {
    if s.queue == [] || |s.active| >= cfg.Capacity() then s
    else Fill(cfg, PopHead(cfg, s, now), now)
  }

  function Promote(cfg: Config, s: State, now: real): State {
    Publish(Fill(cfg, s, now))
  }

  function Overdue(cfg: Config, s: State, now: real): set<string> {
    set r | r in s.active && Expired(cfg, s.active[r], now)
  }

  function Prune(cfg: Config, s: State, now: real): State {
    Promote(cfg, s.(active := s.active - Overdue(cfg, s, now)), now)
  }

  /** Index of the first entry for `rental`, or the length of the queue. */
  function IndexOf(queue: seq<Entry>, rental: string): (i: nat)
    ensures i <= |queue|
    ensures i < |queue| ==> queue[i].rental == rental
  {
    if queue == [] then 0
    else if queue[0].rental == rental then 0
    else 1 + IndexOf(queue[1..], rental)
  }

  function Refreshed(e: Entry, customer: string, slot: int, claim: bool, now: real): Entry {
    e.(lastPolledAt := now, customer := customer,
       slot := if slot != 0 then slot else e.slot,
       needsGrant := claim || e.needsGrant)
  }

  /** The part of `admit` after the prune. */
  function AdmitPruned(cfg: Config, p: State, rental: string, customer: string, slot: int, claim: bool,
                       now: real): State
  {
    var i := IndexOf(p.queue, rental);
    if rental in p.active then
      p.(active := p.active[rental := p.active[rental].(lastSeenAt := now)])
    else if i < |p.queue| then
      p.(queue := p.queue[i := Refreshed(p.queue[i], customer, slot, claim, now)])
    else if |p.active| < cfg.Capacity() then
      if !claim then p
      else Publish(p.(active := p.active[rental := NewLease(cfg, rental, customer, slot, now, false)]))
    else
      p.(queue := p.queue + [Entry(rental, customer, slot, now, now, true)])
  }

  function SetAdmin(s: State, slot: int, on: bool): State {
    Publish(s.(adminSlots := if on then s.adminSlots + {slot} else s.adminSlots - {slot}))
  }

  function Without(queue: seq<Entry>, rental: string): seq<Entry> {
    if queue == [] then []
    else (if queue[0].rental != rental then [queue[0]] else []) + Without(queue[1..], rental)
  }

  function Step(cfg: Config, s: State, e: Event, now: real): State {
    match e
    case Admit(rental, customer, slot, claim, admin) =>
      if admin then SetAdmin(s, slot, true)
      else if rental == "" || customer == "" then s
      else AdmitPruned(cfg, Prune(cfg, s, now), rental, customer, slot, claim, now)
    case MarkPrepared(rental, url) =>
      if rental !in s.active then s
      else
        var lease := s.active[rental];
        s.(active := s.active[rental := lease.(
          prepared := true, needsGrant := false, lastSeenAt := now,
          streamUrl := if url != "" then url else lease.streamUrl)])
    case Release(rental) =>
      Promote(cfg, s.(active := s.active - {rental}, queue := Without(s.queue, rental)), now)
    case MarkAdmin(slot, on) => SetAdmin(s, slot, on)
    case Poll => Prune(cfg, s, now)
  }

  /** The events that begin by pruning the table. */
  predicate Prunes(e: Event) {
    e.Poll? || (e.Admit? && !e.admin && e.rental != "" && e.customer != "")
  }

  // ----- wait estimates --------------------------------------------------

  function Remaining(lease: Lease, now: real): real {
    if lease.expiresAt - now > 0.0 then lease.expiresAt - now else 0.0
  }

  /** `ks` lists every lease once, soonest expiry first. */
  ghost predicate IsRanking(ks: seq<string>, active: map<string, Lease>, now: real) {
    && Distinct(ks)
    && (forall i :: 0 <= i < |ks| ==> ks[i] in active)
    && (forall r :: r in active ==> r in ks)
    && (forall i, j :: 0 <= i < j < |ks| ==> Remaining(active[ks[i]], now) <= Remaining(active[ks[j]], now))
  }

  function ClampWait(cfg: Config, pick: real): int {
    Max(MIN_WAIT_SECONDS, Min(Truncate(cfg.ttl), Ceil(pick)))
  }

  function WaitMinutes(seconds: int): int {
    Max(1, Ceil(seconds as real / 60.0))
  }

  ghost predicate RanksTo(cfg: Config, s: State, now: real, position: int, seconds: int, ks: seq<string>)
    requires 1 <= position
  {
    && IsRanking(ks, s.active, now) && ks != []
    && seconds == ClampWait(cfg, Remaining(s.active[ks[Min(position, |ks|) - 1]], now))
  }

  /** `seconds` is the wait quoted at `now` to the entry at 1-based `position`. */
  ghost predicate IsWaitEstimate(cfg: Config, s: State, now: real, position: int, seconds: int)
    requires 1 <= position
  {
    if s.active == map[] then seconds == ClampWait(cfg, cfg.ttl)
    else exists ks :: RanksTo(cfg, s, now, position, seconds, ks)
  }

  /** The answer `admit` gives, read off the state it leaves behind. */
  ghost predicate IsDecision(cfg: Config, after: State, e: Event, now: real, d: Decision)
    requires e.Admit?
  {
    if !Prunes(e) then d == Untracked
    else if e.rental in after.active then d == Active(after.active[e.rental])
    else if IndexOf(after.queue, e.rental) < |after.queue| then
      && d.Queued?
      && d.position == IndexOf(after.queue, e.rental) + 1
      && IsWaitEstimate(cfg, after, now, d.position, d.seconds)
      && d.minutes == WaitMinutes(d.seconds)
    else d == Untracked
  }

  // ----- invariant -------------------------------------------------------

  ghost predicate TableOk(cfg: Config, s: State) {
    && |s.active| <= cfg.Capacity()
    && (forall r :: r in s.active ==> s.active[r].rental == r)
    && NoRepeats(s.queue)
    && (forall i :: 0 <= i < |s.queue| ==> s.queue[i].rental !in s.active)
  }

  ghost predicate NoRepeats(queue: seq<Entry>) {
    forall i, j :: 0 <= i < j < |queue| ==> queue[i].rental != queue[j].rental
  }

  /** Somebody waits only while the table is full. */
  ghost predicate FullIfWaiting(cfg: Config, s: State) {
    s.queue != [] ==> |s.active| == cfg.Capacity()
  }

  /** The callback trace alternates, starts with true and ends at the current flag. */
  ghost predicate TraceOk(s: State) {
    && (forall i :: 0 <= i < |s.published| ==> s.published[i] == (i % 2 == 0))
    && s.busy == (|s.published| % 2 == 1)
  }

  ghost predicate Valid(cfg: Config, s: State) {
    && TableOk(cfg, s)
    && FullIfWaiting(cfg, s)
    && TraceOk(s)
    && s.busy == (s.active != map[] || s.adminSlots != {})
  }

  /** No lease outlives a full TTL from `now`. */
  ghost predicate LeasesWithin(cfg: Config, s: State, now: real) {
    forall r :: r in s.active ==> s.active[r].expiresAt <= now + cfg.ttl
  }

  // ----- shape of a promotion -------------------------------------------

  /** What filling free places does: pops the first `k` entries and grants exactly those. */
  ghost predicate FillShape(cfg: Config, s: State, t: State, now: real, k: nat) {
    && k == Min(Max(0, cfg.Capacity() - |s.active|), |s.queue|)
    && t == s.(queue := s.queue[k..], active := t.active)
    && |t.active| == |s.active| + k
    && forall r :: FillKey(cfg, s, t, now, k, r)
  }

  /** The same, for one rental. */
  ghost predicate FillKey(cfg: Config, s: State, t: State, now: real, k: nat, r: string)
    requires k <= |s.queue|
  {
    var i := IndexOf(s.queue, r);
    && (r in t.active <==> r in s.active || i < k)
    && (r in s.active ==> t.active[r] == s.active[r])
    && (r !in s.active && i < k ==> t.active[r] == Granted(cfg, s.queue[i], now))
  }

  lemma PopHeadOk(cfg: Config, s: State, now: real)
    requires TableOk(cfg, s) && s.queue != [] && |s.active| < cfg.Capacity()
    ensures TableOk(cfg, PopHead(cfg, s, now))
    ensures |PopHead(cfg, s, now).active| == |s.active| + 1
  {
    var t := PopHead(cfg, s, now);
    assert forall i :: 0 <= i < |t.queue| ==> t.queue[i] == s.queue[i + 1];
    assert t.active.Keys == s.active.Keys + {s.queue[0].rental};
  }

  lemma FillKeyStep(cfg: Config, s: State, t: State, now: real, k: nat, r: string)
    requires s.queue != [] && k < |s.queue| && s.queue[0].rental !in s.active
    requires FillKey(cfg, PopHead(cfg, s, now), t, now, k, r)
    ensures FillKey(cfg, s, t, now, k + 1, r)
  {
  }

  lemma {:induction false} FillIs(cfg: Config, s: State, now: real) returns (k: nat)
    requires TableOk(cfg, s)
    ensures FillShape(cfg, s, Fill(cfg, s, now), now, k)
    decreases |s.queue|
  {
    if s.queue == [] || |s.active| >= cfg.Capacity() {
      k := 0;
    } else {
      PopHeadOk(cfg, s, now);
      var k1 := FillIs(cfg, PopHead(cfg, s, now), now);
      k := k1 + 1;
      forall r ensures FillKey(cfg, s, Fill(cfg, s, now), now, k, r) {
        assert FillKey(cfg, PopHead(cfg, s, now), Fill(cfg, s, now), now, k1, r);
        FillKeyStep(cfg, s, Fill(cfg, s, now), now, k1, r);
      }
    }
  }
}
