/**
 Remote-access sessions: one row per rental, and at most one live session per slot.
 Every operation runs under the slot lock with the clock reading it takes inside.
 */
module RemoteSessions {
  import opened Basics

  type Rental = string

  datatype Status = Initialized | Active | Revoked | Released

  datatype Session = Session(
    slot: int, customer: string, device: string, status: Status, createdAt: real, expiresAt: real)

  type Sessions = map<Rental, Session>

  datatype Auth = Auth(customer: string, rental: Rental, slot: int, device: string, rentalEnd: Option<real>)

  /** What the outside answers while a session is being created: an error code, or when the platform's grant ends. */
  datatype Outside = NotReady(code: int) | NoWorkspace | NoGrant(code: int) | Granted(until: real)

  /** How a creation is answered: 409 busy, 200, 201, or the code of the step that refused it. */
  datatype Reply = Busy | Reused | Created | Refused(code: int)

  datatype Config = Config(ttlMinutes: int, devices: map<int, string>)

  predicate Live(x: Session, now: real) {
    x.status.Active? && now < x.expiresAt
  }

  ghost predicate LiveOn(sessions: Sessions, r: Rental, slot: int, now: real) {
    r in sessions && sessions[r].slot == slot && sessions[r].status.Active? && now < sessions[r].expiresAt
  }

  /** The answer of the slot query: a live session with the latest creation time, if any is live. */
  ghost predicate IsActiveForSlot(sessions: Sessions, slot: int, now: real, found: Option<Rental>) {
    match found
    case None => forall r :: !LiveOn(sessions, r, slot, now)
    case Some(r) =>
      && LiveOn(sessions, r, slot, now)
      && forall q :: LiveOn(sessions, q, slot, now) ==> sessions[q].createdAt <= sessions[r].createdAt
  }

  function TtlMinutes(ttl: int, rentalEnd: Option<real>, now: real): int {
    if rentalEnd.None? then ttl else Max(1, Min(ttl, ((rentalEnd.value - now) / 60.0).Floor))
  }

  function ExpiresAt(ttl: int, rentalEnd: Option<real>, now: real, until: real): real {
    var own := now + (TtlMinutes(ttl, rentalEnd, now) * 60) as real;
    if until < own then until else own
  }

  /** A rental's first row; never replaces one. */
  function Initialize(cfg: Config, sessions: Sessions, rental: Rental, customer: string, slot: int,
                      now: real): Sessions
  {
    if rental == "" || rental in sessions || slot < 1 then sessions
    else
      var device := if slot in cfg.devices then cfg.devices[slot] else "";
      sessions[rental := Session(slot, customer, device, Initialized, now, now)]
  }

  predicate Reusable(sessions: Sessions, auth: Auth, now: real) {
    && auth.rental in sessions
    && var x := sessions[auth.rental];
    && Live(x, now) && x.customer == auth.customer && x.slot == auth.slot && x.device == auth.device
  }

  function Create(cfg: Config, sessions: Sessions, auth: Auth, now: real, other: Option<Rental>,
                  outside: Outside): (Sessions, Reply)
  {
    if other.Some? && other.value != auth.rental then (sessions, Busy)
    else if Reusable(sessions, auth, now) then (sessions, Reused)
    else
      var ready := Initialize(cfg, sessions, auth.rental, auth.customer, auth.slot, now);
      match outside
      case NotReady(code) => (ready, Refused(code))
      case NoWorkspace => (ready, Refused(403))
      case NoGrant(code) => (ready, Refused(code))
      case Granted(until) =>
        var expiresAt := ExpiresAt(cfg.ttlMinutes, auth.rentalEnd, now, until);
        (ready[auth.rental := Session(auth.slot, auth.customer, auth.device, Active, now, expiresAt)], Created)
  }

  function End(sessions: Sessions, rental: Rental, slot: int, status: Status): (Sessions, int) {
    if rental !in sessions then (sessions, 404)
    else if sessions[rental].slot != slot then (sessions, 403)
    else (sessions[rental := sessions[rental].(status := status)], 200)
  }

  // ----- runs ------------------------------------------------------------

  datatype Event =
    | Creating(auth: Auth, now: real, other: Option<Rental>, outside: Outside)
    | Initializing(rental: Rental, customer: string, slot: int, now: real)
    | Ending(rental: Rental, slot: int, status: Status, now: real)

  /** The slot query answers truthfully, and sessions end with an ended status. */
  ghost predicate Possible(sessions: Sessions, ev: Event) {
    match ev
    case Creating(auth, now, other, _) => IsActiveForSlot(sessions, auth.slot, now, other)
    case Initializing(_, _, _, _) => true
    case Ending(_, _, status, _) => status.Revoked? || status.Released?
  }

  function Step(cfg: Config, sessions: Sessions, ev: Event): Sessions {
    match ev
    case Creating(auth, now, other, outside) => Create(cfg, sessions, auth, now, other, outside).0
    case Initializing(rental, customer, slot, now) => Initialize(cfg, sessions, rental, customer, slot, now)
    case Ending(rental, slot, status, _) => End(sessions, rental, slot, status).0
  }

  function Run(cfg: Config, sessions: Sessions, evs: seq<Event>): Sessions
    decreases |evs|
  {
    if evs == [] then sessions else Run(cfg, Step(cfg, sessions, evs[0]), evs[1..])
  }

  ghost predicate PossibleRun(cfg: Config, sessions: Sessions, evs: seq<Event>, since: real)
    decreases |evs|
  {
    evs == [] || (
      && since <= evs[0].now && Possible(sessions, evs[0])
      && PossibleRun(cfg, Step(cfg, sessions, evs[0]), evs[1..], evs[0].now))
  }

  function Clock(evs: seq<Event>, since: real): real {
    if evs == [] then since else evs[|evs| - 1].now
  }

  // ----- exclusivity -----------------------------------------------------

  ghost predicate Exclusive(sessions: Sessions, now: real) {
    forall slot, a, b :: LiveOn(sessions, a, slot, now) && LiveOn(sessions, b, slot, now) ==> a == b
  }

  lemma ExclusiveLater(sessions: Sessions, now: real, later: real)
    requires Exclusive(sessions, now) && now <= later
    ensures Exclusive(sessions, later)
  {
    forall slot, a, b | LiveOn(sessions, a, slot, later) && LiveOn(sessions, b, slot, later)
      ensures a == b
    {
      assert LiveOn(sessions, a, slot, now) && LiveOn(sessions, b, slot, now);
    }
  }

  lemma CreateKeepsExclusive(cfg: Config, sessions: Sessions, auth: Auth, now: real, other: Option<Rental>,
                             outside: Outside)
    requires Exclusive(sessions, now) && IsActiveForSlot(sessions, auth.slot, now, other)
    ensures Exclusive(Create(cfg, sessions, auth, now, other, outside).0, now)
  {
    var after := Create(cfg, sessions, auth, now, other, outside).0;
    hide ExpiresAt;
    forall slot, a, b | LiveOn(after, a, slot, now) && LiveOn(after, b, slot, now)
      ensures a == b
    {
      assert a != auth.rental || after == sessions ==> LiveOn(sessions, a, slot, now);
      assert b != auth.rental || after == sessions ==> LiveOn(sessions, b, slot, now);
      if a == auth.rental || b == auth.rental {
        assert other.Some? ==> LiveOn(sessions, other.value, auth.slot, now);
      }
    }
  }

  lemma StepKeepsExclusive(cfg: Config, sessions: Sessions, ev: Event, since: real)
    requires Exclusive(sessions, since) && since <= ev.now && Possible(sessions, ev)
    ensures Exclusive(Step(cfg, sessions, ev), ev.now)
  {
    ExclusiveLater(sessions, since, ev.now);
    if ev.Creating? {
      CreateKeepsExclusive(cfg, sessions, ev.auth, ev.now, ev.other, ev.outside);
    } else {
      var after := Step(cfg, sessions, ev);
      forall slot, a | LiveOn(after, a, slot, ev.now) ensures LiveOn(sessions, a, slot, ev.now) {
      }
    }
  }

  /** At every moment of every run with a clock that never goes back, a slot has at most one live session. */
  lemma {:induction false} AtMostOneLiveSession(cfg: Config, sessions: Sessions, evs: seq<Event>, since: real)
    requires Exclusive(sessions, since) && PossibleRun(cfg, sessions, evs, since)
    ensures forall now :: Clock(evs, since) <= now ==> Exclusive(Run(cfg, sessions, evs), now)
    decreases |evs|
  {
    if evs == [] {
      forall now | since <= now ensures Exclusive(sessions, now) {
        ExclusiveLater(sessions, since, now);
      }
    } else {
      StepKeepsExclusive(cfg, sessions, evs[0], since);
      AtMostOneLiveSession(cfg, Step(cfg, sessions, evs[0]), evs[1..], evs[0].now);
    }
  }

  /** Busy is answered exactly when another rental's session is live on the slot. */
  lemma BusyExactly(cfg: Config, sessions: Sessions, auth: Auth, now: real, other: Option<Rental>, outside: Outside)
    requires Exclusive(sessions, now) && IsActiveForSlot(sessions, auth.slot, now, other)
    ensures Create(cfg, sessions, auth, now, other, outside).1.Busy? <==>
      exists r :: r != auth.rental && LiveOn(sessions, r, auth.slot, now)
  {
    if other.Some? && other.value != auth.rental {
      assert LiveOn(sessions, other.value, auth.slot, now);
    }
  }

  /**
   A success leaves the caller's own session on the slot, and it is live
   unless it is new and the platform's grant is already over.
   */
  lemma SuccessMeansLive(cfg: Config, sessions: Sessions, auth: Auth, now: real, other: Option<Rental>,
                         outside: Outside)
    requires cfg.ttlMinutes >= 1
    ensures var (after, reply) := Create(cfg, sessions, auth, now, other, outside);
      reply.Reused? || reply.Created? ==>
        && auth.rental in after && after[auth.rental].status.Active?
        && after[auth.rental].slot == auth.slot && after[auth.rental].customer == auth.customer
        && after[auth.rental].device == auth.device
        && (reply.Created? ==> outside.Granted?)
        && (LiveOn(after, auth.rental, auth.slot, now) <==> reply.Reused? || now < outside.until)
  {
  }

  // ----- ended sessions stay ended ---------------------------------------

  lemma {:induction false} EndedStaysEnded(cfg: Config, sessions: Sessions, evs: seq<Event>, r: Rental)
    requires r in sessions && !sessions[r].status.Active?
    requires forall i :: 0 <= i < |evs| && evs[i].Creating? ==> evs[i].auth.rental != r
    requires forall i :: 0 <= i < |evs| && evs[i].Ending? ==> !evs[i].status.Active?
    ensures r in Run(cfg, sessions, evs) && !Run(cfg, sessions, evs)[r].status.Active?
    decreases |evs|
  {
    if evs != [] {
      EndedStaysEnded(cfg, Step(cfg, sessions, evs[0]), evs[1..], r);
    }
  }

  // ----- expiry against the rental's end ---------------------------------

  /**
   A new session expires less than a minute after its rental exactly when the slot lock was
   entered before the rental ended, or the platform's own grant is that short.
   */
  lemma ExpiryExact(ttl: int, end: real, now: real, until: real)
    requires ttl >= 1
    ensures ExpiresAt(ttl, Some(end), now, until) < end + 60.0 <==> now < end || until < end + 60.0
  {
    var minutes := ((end - now) / 60.0).Floor;
    assert (minutes * 60) as real <= end - now;
    if now >= end {
      assert TtlMinutes(ttl, Some(end), now) == 1;
    }
  }

  /**
   The whole minutes a session may run: all its time to live, but not past its rental's end as
   far as whole minutes go, and one minute at least.
   */
  ghost predicate RunsFor(ttl: int, rentalEnd: Option<real>, now: real, minutes: int) {
    match rentalEnd
    case None => minutes == ttl
    case Some(end) =>
      && 1 <= minutes && (minutes == 1 || (minutes <= ttl && now + (60 * minutes) as real <= end))
      && (minutes < ttl ==> end < now + (60 * (minutes + 1)) as real)
  }

  /** A session ends with these minutes, or with the platform's grant if that is sooner. */
  ghost predicate ExpiresWith(ttl: int, rentalEnd: Option<real>, now: real, until: real, expiresAt: real) {
    exists minutes :: RunsFor(ttl, rentalEnd, now, minutes) &&
      expiresAt == if until < now + (60 * minutes) as real then until else now + (60 * minutes) as real
  }

  lemma ExpiryIsThat(ttl: int, rentalEnd: Option<real>, now: real, until: real)
    ensures ExpiresWith(ttl, rentalEnd, now, until, ExpiresAt(ttl, rentalEnd, now, until))
  {
    var minutes := TtlMinutes(ttl, rentalEnd, now);
    if rentalEnd.Some? {
      var left := ((rentalEnd.value - now) / 60.0).Floor;
      assert (left * 60) as real <= rentalEnd.value - now < ((left + 1) * 60) as real;
    }
    assert RunsFor(ttl, rentalEnd, now, minutes);
    assert minutes * 60 == 60 * minutes;
  }

  /** No session outlives its rental by a minute. */
  ghost predicate WithinRental(sessions: Sessions, ends: map<Rental, real>) {
    forall r :: r in sessions && r in ends && sessions[r].status.Active? ==> sessions[r].expiresAt < ends[r] + 60.0
  }

  /** The rental's contractual end, as every creation reads it, still ahead once the lock is held. */
  predicate Prompt(ev: Event, ends: map<Rental, real>) {
    ev.Creating? && ev.auth.rental in ends ==>
      ev.auth.rentalEnd == Some(ends[ev.auth.rental]) && ev.now < ends[ev.auth.rental]
  }

  lemma {:induction false} SessionsEndWithTheirRental(cfg: Config, sessions: Sessions, evs: seq<Event>,
                                                      ends: map<Rental, real>)
    requires cfg.ttlMinutes >= 1 && WithinRental(sessions, ends)
    requires forall i :: 0 <= i < |evs| ==> Prompt(evs[i], ends)
    requires forall i :: 0 <= i < |evs| && evs[i].Ending? ==> !evs[i].status.Active?
    ensures WithinRental(Run(cfg, sessions, evs), ends)
    decreases |evs|
  {
    if evs != [] {
      var ev := evs[0];
      assert Prompt(ev, ends);
      if ev.Creating? && ev.outside.Granted? && ev.auth.rental in ends {
        ExpiryExact(cfg.ttlMinutes, ends[ev.auth.rental], ev.now, ev.outside.until);
      }
      hide ExpiresAt;
      SessionsEndWithTheirRental(cfg, Step(cfg, sessions, ev), evs[1..], ends);
    }
  }

  /** The authorisation's own check of the rental's end, at the moment it is made. */
  predicate Authorised(auth: Auth, at: real) {
    auth.rentalEnd.Some? ==> at < auth.rentalEnd.value
  }

  /**
   The very first creation of a rental: authorised at `at` with the rental's end ahead, the lock held
   later, after which the session runs a minute or more past that end.
   */
  ghost predicate Outlives(cfg: Config, at: real, ev: Event, ends: map<Rental, real>) {
    && cfg.ttlMinutes >= 1 && ev.Creating? && Possible(map[], ev)
    && ev.auth.rental in ends && ev.auth.rentalEnd == Some(ends[ev.auth.rental])
    && Authorised(ev.auth, at) && at <= ev.now
    && !WithinRental(Step(cfg, map[], ev), ends)
  }

  /**
   A creation authorised in time outlives its rental if and only if the
   lock came after the end and the grant does not stop it.
   */
  lemma OutlivesExactly(cfg: Config, at: real, auth: Auth, now: real, until: real, ends: map<Rental, real>)
    requires cfg.ttlMinutes >= 1 && auth.rental in ends && auth.rentalEnd == Some(ends[auth.rental])
    requires Authorised(auth, at) && at <= now
    ensures Outlives(cfg, at, Creating(auth, now, None, Granted(until)), ends)
      <==> ends[auth.rental] <= now && ends[auth.rental] + 60.0 <= until
  {
    var ev := Creating(auth, now, None, Granted(until));
    ExpiryExact(cfg.ttlMinutes, ends[auth.rental], now, until);
    hide ExpiresAt;
    var after := Step(cfg, map[], ev);
    assert after.Keys == {auth.rental};
    assert after[auth.rental].status.Active?;
    assert after[auth.rental].expiresAt == ExpiresAt(cfg.ttlMinutes, auth.rentalEnd, now, until);
  }

  /** Authorised in time, but the slot lock was free only after the rental's end. */
  lemma LateLockOutlivesRental()
    ensures exists cfg: Config, at: real, ev: Event, ends: map<Rental, real> :: Outlives(cfg, at, ev, ends)
  {
    var cfg := Config(60, map[1 := "d"]);
    var ends := map["r" := 1000.0];
    var auth := Auth("c", "r", 1, "d", Some(1000.0));
    OutlivesExactly(cfg, 999.0, auth, 1030.0, 9999.0, ends);
    assert Outlives(cfg, 999.0, Creating(auth, 1030.0, None, Granted(9999.0)), ends);
  }

  // ----- the service object ----------------------------------------------

  /** The rental's row as the tenant database has it: unreadable, gone, or owner and end. */
  datatype Row = Unreadable | Missing | Owned(owner: string, end: Option<real>)

  /** The rental is over, or belongs to somebody else now. */
  predicate Stale(row: Row, x: Session, now: real) {
    || row.Missing?
    || (row.Owned? && row.owner != "" && row.owner != x.customer)
    || (row.Owned? && row.end.Some? && row.end.value <= now)
  }

  /** A sweep ends this session: live, on an allowed slot whose device is known, and stale. */
  ghost predicate Swept(cfg: Config, allowed: set<int>, rows: map<Rental, Row>, r: Rental, x: Session, now: real) {
    && x.status.Active? && now < x.expiresAt && x.slot in allowed
    && (x.device != "" || (x.slot in cfg.devices && cfg.devices[x.slot] != ""))
    && RentalOver(rows, r, x.customer, now)
  }

  /** The row says so: it is gone, names another customer, or its end has passed; an unreadable row says nothing. */
  ghost predicate RentalOver(rows: map<Rental, Row>, r: Rental, customer: string, now: real) {
    r in rows && !rows[r].Missing? ==>
      && rows[r].Owned?
      && (rows[r].owner !in {"", customer} || (rows[r].end.Some? && rows[r].end.value <= now))
  }

  lemma StaleExact(rows: map<Rental, Row>, r: Rental, x: Session, now: real)
    ensures Stale(if r in rows then rows[r] else Missing, x, now) <==> RentalOver(rows, r, x.customer, now)
  {
  }

  lemma NeverStaleUnread(x: Session, now: real)
    ensures !Stale(Unreadable, x, now)
  {
  }

  ghost function SweptRow(cfg: Config, allowed: set<int>, rows: map<Rental, Row>, r: Rental, x: Session,
                          now: real): Session
  {
    if Swept(cfg, allowed, rows, r, x, now) then x.(status := Released) else x
  }

  predicate KnownDevice(cfg: Config, slot: int) {
    slot in cfg.devices && cfg.devices[slot] != ""
  }

  class RemoteAccessService {
    const cfg: Config
    const enabled: bool
    const allowed: set<int> // slots open to remote access
    var sessions: Sessions

    constructor (cfg: Config, enabled: bool, allowed: set<int>)
      ensures this.cfg == cfg && this.enabled == enabled && this.allowed == allowed && sessions == map[]
    {
      this.cfg, this.enabled, this.allowed, sessions := cfg, enabled, allowed, map[];
    }

    method ActiveForSlot(slot: int, now: real) returns (found: Option<Rental>)
      ensures IsActiveForSlot(sessions, slot, now, found)
    {
      found := None;
      var rest := sessions.Keys;
      while rest != {}
        invariant rest <= sessions.Keys
        invariant found.Some? ==> LiveOn(sessions, found.value, slot, now)
        invariant forall q :: LiveOn(sessions, q, slot, now) && q !in rest ==>
          found.Some? && sessions[q].createdAt <= sessions[found.value].createdAt
        decreases |rest|
      {
        var q :| q in rest;
        rest := rest - {q};
        var x := sessions[q];
        if x.slot == slot && Live(x, now) && (found.None? || sessions[found.value].createdAt <= x.createdAt) {
          found := Some(q);
        }
      }
    }

    /** The caller's own session is running, for the same customer, slot and device. */
    ghost predicate OwnAndLive(sessions: Sessions, auth: Auth, now: real) {
      && auth.rental in sessions
      && sessions[auth.rental].status.Active? && now < sessions[auth.rental].expiresAt
      && sessions[auth.rental].customer == auth.customer && sessions[auth.rental].slot == auth.slot
      && sessions[auth.rental].device == auth.device
    }

    /** The rental's first row, not active, with the device its slot is configured for. */
    ghost predicate Prepared(before: Sessions, after: Sessions, auth: Auth, now: real) {
      && auth.rental != "" && auth.rental !in before && auth.slot >= 1
      && after == before[auth.rental :=
           Session(auth.slot, auth.customer, if auth.slot in cfg.devices then cfg.devices[auth.slot] else "",
                   Initialized, now, now)]
    }

    method CreateLocked(auth: Auth, now: real, outside: Outside) returns (reply: Reply, ghost other: Option<Rental>)
      modifies this
      ensures IsActiveForSlot(old(sessions), auth.slot, now, other)
      ensures (sessions, reply) == Create(cfg, old(sessions), auth, now, other, outside)
      ensures reply.Busy? <==> other.Some? && other.value != auth.rental
      ensures reply.Reused? <==> !reply.Busy? && OwnAndLive(old(sessions), auth, now)
      ensures reply.Created? <==> !reply.Busy? && !reply.Reused? && outside.Granted?
      ensures reply.Busy? || reply.Reused? ==> sessions == old(sessions)
      ensures reply.Refused? ==> sessions == old(sessions) || Prepared(old(sessions), sessions, auth, now)
      ensures reply.Refused? && auth.rental != "" && auth.rental !in old(sessions) && auth.slot >= 1 ==>
        Prepared(old(sessions), sessions, auth, now)
      ensures reply.Created? ==> auth.rental in sessions && sessions - {auth.rental} == old(sessions) - {auth.rental}
      ensures reply.Created? ==>
        var x := sessions[auth.rental];
        && x == Session(auth.slot, auth.customer, auth.device, Active, now, x.expiresAt)
        && ExpiresWith(cfg.ttlMinutes, auth.rentalEnd, now, outside.until, x.expiresAt)
    {
      hide ExpiresAt, ExpiresWith;
      var active := ActiveForSlot(auth.slot, now);
      other := active;
      if active.Some? && active.value != auth.rental {
        return Busy, other;
      }
      if Reusable(sessions, auth, now) {
        return Reused, other;
      }
      sessions := Initialize(cfg, sessions, auth.rental, auth.customer, auth.slot, now);
      match outside {
        case NotReady(c) => return Refused(c), other;
        case NoWorkspace => return Refused(403), other;
        case NoGrant(c) => return Refused(c), other;
        case Granted(until) =>
          var expiresAt := ExpiresAt(cfg.ttlMinutes, auth.rentalEnd, now, until);
          ExpiryIsThat(cfg.ttlMinutes, auth.rentalEnd, now, until);
          sessions := sessions[auth.rental :=
            Session(auth.slot, auth.customer, auth.device, Active, now, expiresAt)];
          return Created, other;
      }
    }

    method EndLocked(rental: Rental, slot: int, status: Status) returns (code: int)
      modifies this
      ensures (sessions, code) == End(old(sessions), rental, slot, status)
      ensures code == 404 <==> rental !in old(sessions)
      ensures code == 200 <==> rental in old(sessions) && old(sessions)[rental].slot == slot
      ensures code == 403 || code == 404 || code == 200
      ensures sessions ==
        if code == 200 then old(sessions)[rental := old(sessions)[rental].(status := status)] else old(sessions)
    {
      if rental !in sessions {
        return 404;
      }
      if sessions[rental].slot != slot {
        return 403;
      }
      sessions := sessions[rental := sessions[rental].(status := status)];
      return 200;
    }

    /** A release succeeds, or answers 403 and changes nothing; it never touches another slot's session. */
    method ReleaseDevice(slot: int, rental: Rental) returns (code: int)
      modifies this
      ensures code == 200 || code == 403
      ensures code == 403 ==> sessions == old(sessions)
      ensures code == 200 ==> sessions == End(old(sessions), rental, slot, Released).0
      ensures code == 200 && rental !in old(sessions) ==> sessions == old(sessions)
      ensures code == 200 && rental in old(sessions) ==>
        sessions == old(sessions)[rental := old(sessions)[rental].(status := Released)]
      ensures code == 200 <==>
        && enabled
        && (if rental in old(sessions) then
              old(sessions)[rental].slot == slot && (KnownDevice(cfg, slot) || old(sessions)[rental].device != "")
            else slot in allowed && KnownDevice(cfg, slot))
    {
      if !enabled {
        return 403;
      }
      if rental in sessions && sessions[rental].slot != slot {
        return 403;
      }
      if rental !in sessions && slot !in allowed {
        return 403;
      }
      var device := if slot in cfg.devices then cfg.devices[slot] else "";
      if device == "" && rental in sessions {
        device := sessions[rental].device;
      }
      if device == "" {
        return 403;
      }
      code := EndLocked(rental, slot, Released);
      if code != 200 && code != 404 {
        return code;
      }
      return 200;
    }

    /** The sweep releases exactly the stale live sessions and leaves every other row alone. */
    method SweepStaleSessions(rows: map<Rental, Row>, now: real)
      modifies this
      ensures sessions.Keys == old(sessions.Keys)
      ensures forall r :: r in sessions ==>
        sessions[r] == if enabled then SweptRow(cfg, allowed, rows, r, old(sessions)[r], now) else old(sessions)[r]
    {
      if !enabled {
        return;
      }
      ghost var before := sessions;
      var active := map r | r in sessions && Live(sessions[r], now) :: sessions[r];
      var rest := active.Keys;
      assert forall r :: r in sessions && r !in rest ==> SweptRow(cfg, allowed, rows, r, before[r], now) == before[r];
      hide Stale, KnownDevice, Live, RentalOver;
      while rest != {}
        invariant rest <= active.Keys && sessions.Keys == before.Keys
        invariant forall r :: r in sessions ==>
          sessions[r] == if r in rest then before[r] else SweptRow(cfg, allowed, rows, r, before[r], now)
        decreases |rest|
      {
        var r :| r in rest;
        rest := rest - {r};
        var x := active[r];
        if x.slot !in allowed {
          continue;
        }
        var row := if r in rows then rows[r] else Missing;
        StaleExact(rows, r, x, now);
        if row.Unreadable? {
          assert !Stale(row, x, now) by {
            NeverStaleUnread(x, now);
          }
          continue;
        }
        if Stale(row, x, now) {
          ReleaseSwept(r, x);
        }
      }
    }

    /** Releasing a session the sweep found: the row was not touched since the list was read. */
    method ReleaseSwept(r: Rental, x: Session)
      requires enabled && r in sessions && sessions[r] == x
      modifies this
      ensures sessions == old(sessions)[r :=
        if KnownDevice(cfg, x.slot) || x.device != "" then x.(status := Released) else x]
    {
      var _ := ReleaseDevice(x.slot, r);
    }
  }
}
