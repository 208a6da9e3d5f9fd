/**
 The bounded cache of verified access tokens. Entries are keyed by token digest; validations
 run concurrently, each with the clock it read at its start, and meet at two lock sections,
 the lookup and the insertion; between them a validation asks the verifiers.
 */
module TokenCache {
  import opened Basics

  type Digest = string

  const TTL := 300.0
  const MAX_ENTRIES: nat := 4096

  datatype User = User(id: string, active: bool)

  /** `exp` is the token's own expiry claim, when the token was verified locally and has a numeric one. */
  datatype Cached = Cached(user: User, exp: Option<real>, verifiedAt: real, expiresAt: real)

  datatype Verification = Verification(digest: Digest, user: User, exp: Option<real>, at: real)

  /** `exp` is the expiry claim of the record or answer it rests on. */
  datatype Serving = Serving(digest: Digest, user: string, at: real, exp: Option<real>)

  type Table = map<Digest, Cached>

  /**
   Where a slow validation stands: asking the verifiers, with the live record it found too old to serve
   at once, if any; or past them, with the active user it is about to insert and serve.
   */
  datatype Stage = Asking(held: Option<Cached>) | Ready(user: User, exp: Option<real>)

  datatype Validation = Validation(digest: Digest, now: real, stage: Stage)

  datatype State = State(
    table: Table,
    running: map<nat, Validation>, // validations between their two lock sections
    nextId: nat,
    verified: seq<Verification>,   // what the token verifiers answered
    served: seq<Serving>,
    fallbacks: set<Digest>)        // tokens whose record ever stood in for an unreachable verifier

  const EMPTY := State(map[], map[], 0, [], [], {})

  function ExpiryFor(exp: Option<real>, now: real): real {
    if exp.Some? && exp.value > now + TTL then exp.value else now + TTL
  }

  predicate Expired(rec: Cached, now: real) {
    rec.expiresAt <= now
  }

  function Unexpired(table: Table, now: real): Table {
    map k | k in table && !Expired(table[k], now) :: table[k]
  }

  /** The insertion section; `victim` is the entry with the smallest verification time if one must go. */
  function Remember(table: Table, digest: Digest, rec: Cached, victim: Digest): Table {
    var now := rec.verifiedAt;
    if |table| < MAX_ENTRIES then table[digest := rec]
    else
      var kept := Unexpired(table, now);
      if |kept| < MAX_ENTRIES then kept[digest := rec] else (kept - {victim})[digest := rec]
  }

  ghost predicate IsOldest(table: Table, victim: Digest) {
    victim in table && forall k :: k in table ==> table[victim].verifiedAt <= table[k].verifiedAt
  }

  ghost predicate VictimOk(table: Table, now: real, victim: Digest) {
    var kept := Unexpired(table, now);
    |table| >= MAX_ENTRIES && |kept| >= MAX_ENTRIES ==> IsOldest(kept, victim)
  }

  lemma SizeWithout(table: Table, victim: Digest)
    requires victim in table
    ensures |table - {victim}| == |table| - 1
  {
    assert (table - {victim}).Keys == table.Keys - {victim};
  }

  lemma SizeWith(table: Table, digest: Digest, rec: Cached)
    ensures |table[digest := rec]| <= |table| + 1
  {
    assert table[digest := rec].Keys == table.Keys + {digest};
  }

  lemma StaysBounded(table: Table, digest: Digest, rec: Cached, victim: Digest)
    requires |table| <= MAX_ENTRIES && VictimOk(table, rec.verifiedAt, victim)
    ensures |Remember(table, digest, rec, victim)| <= MAX_ENTRIES
  {
    var kept := Unexpired(table, rec.verifiedAt);
    assert kept.Keys <= table.Keys;
    SubsetSize(kept.Keys, table.Keys);
    SizeWith(table, digest, rec);
    SizeWith(kept, digest, rec);
    if |kept| >= MAX_ENTRIES && |table| >= MAX_ENTRIES {
      SizeWithout(kept, victim);
      SizeWith(kept - {victim}, digest, rec);
    }
  }

  /**
   What an insertion removes: nothing while there is room; of a full table the expired entries;
   a live entry only from a full table with nothing expired, and then one no older than which is left.
   */
  lemma EvictionExact(table: Table, digest: Digest, rec: Cached, victim: Digest, k: Digest)
    requires |table| <= MAX_ENTRIES && VictimOk(table, rec.verifiedAt, victim) && k in table && k != digest
    ensures k !in Remember(table, digest, rec, victim) <==>
      && |table| == MAX_ENTRIES
      && (Expired(table[k], rec.verifiedAt)
        || (k == victim && forall q :: q in table ==> !Expired(table[q], rec.verifiedAt)))
    ensures k !in Remember(table, digest, rec, victim) && !Expired(table[k], rec.verifiedAt) ==> IsOldest(table, k)
    ensures k in Remember(table, digest, rec, victim) ==> Remember(table, digest, rec, victim)[k] == table[k]
  {
    var now := rec.verifiedAt;
    var kept := Unexpired(table, now);
    assert kept.Keys <= table.Keys;
    SubsetSize(kept.Keys, table.Keys);
    if forall q :: q in table ==> !Expired(table[q], now) {
      assert kept == table;
    } else {
      var q :| q in table && Expired(table[q], now);
      assert kept.Keys <= table.Keys - {q};
      SubsetSize(kept.Keys, table.Keys - {q});
    }
  }

  // ----- steps -----------------------------------------------------------

  /** `Answer` is a verifier naming a user, `GiveUp` the end of a validation without one. */
  datatype Event =
    | Lookup(digest: Digest, now: real)
    | Answer(v: nat, user: User, exp: Option<real>)
    | FallBack(v: nat)
    | GiveUp(v: nat)
    | Insert(v: nat, victim: Digest)
    | Logout(digest: Digest)

  /** Served without asking a verifier. */
  predicate Fresh(rec: Cached, now: real) {
    !Expired(rec, now) && now - rec.verifiedAt < TTL
  }

  predicate IsAsking(s: State, v: nat) {
    v in s.running && s.running[v].stage.Asking?
  }

  predicate IsReady(s: State, v: nat) {
    v in s.running && s.running[v].stage.Ready?
  }

  ghost predicate Enabled(s: State, ev: Event) {
    match ev
    case Lookup(_, _) => true
    case Logout(_) => true
    case Answer(v, _, _) => IsAsking(s, v)
    case FallBack(v) => IsAsking(s, v) && s.running[v].stage.held.Some?
    case GiveUp(v) => v in s.running
    case Insert(v, victim) => IsReady(s, v) && VictimOk(s.table, s.running[v].now, victim)
  }

  function Started(s: State, digest: Digest, now: real, held: Option<Cached>): State {
    s.(running := s.running[s.nextId := Validation(digest, now, Asking(held))], nextId := s.nextId + 1)
  }

  function LookUp(s: State, digest: Digest, now: real): State {
    if digest !in s.table then Started(s, digest, now, None)
    else
      var rec := s.table[digest];
      if Expired(rec, now) then Started(s.(table := s.table - {digest}), digest, now, None)
      else if Fresh(rec, now) then s.(served := s.served + [Serving(digest, rec.user.id, now, rec.exp)])
      else Started(s, digest, now, Some(rec))
  }

  /** An active user goes on to the insertion, an inactive one ends the validation. */
  function Named(s: State, v: nat, user: User, exp: Option<real>): State
    requires v in s.running
  {
    s.(running := if user.active then s.running[v := s.running[v].(stage := Ready(user, exp))] else s.running - {v})
  }

  function RecordOf(v: Validation): Cached
    requires v.stage.Ready?
  {
    Cached(v.stage.user, v.stage.exp, v.now, ExpiryFor(v.stage.exp, v.now))
  }

  function ServingOf(v: Validation): Serving
    requires v.stage.Ready?
  {
    Serving(v.digest, v.stage.user.id, v.now, v.stage.exp)
  }

  function Inserted(s: State, v: nat, victim: Digest): State
    requires IsReady(s, v)
  {
    var val := s.running[v];
    s.(table := Remember(s.table, val.digest, RecordOf(val), victim),
       served := s.served + [ServingOf(val)], running := s.running - {v})
  }

  ghost function Step(s: State, ev: Event): State {
    if !Enabled(s, ev) then s
    else
      match ev
      case Lookup(digest, now) => LookUp(s, digest, now)
      case Answer(v, user, exp) =>
        var answer := Verification(s.running[v].digest, user, exp, s.running[v].now);
        Named(s.(verified := s.verified + [answer]), v, user, exp)
      case FallBack(v) =>
        var rec := s.running[v].stage.held.value;
        Named(s.(fallbacks := s.fallbacks + {s.running[v].digest}), v, rec.user, rec.exp)
      case GiveUp(v) => s.(running := s.running - {v})
      case Insert(v, victim) => Inserted(s, v, victim)
      case Logout(digest) => s.(table := s.table - {digest})
  }

  ghost function Run(s: State, evs: seq<Event>): State
    decreases |evs|
  {
    if evs == [] then s else Run(Step(s, evs[0]), evs[1..])
  }

  // ----- what is served was verified -------------------------------------

  /** The verifier's answer a record goes back to; only a fallback moves the record's time on, and only before `exp`. */
  ghost predicate Backs(s: State, i: nat, digest: Digest, rec: Cached) {
    && i < |s.verified| && s.verified[i].digest == digest
    && s.verified[i].user == rec.user && s.verified[i].exp == rec.exp
    && (s.verified[i].at == rec.verifiedAt
        || (digest in s.fallbacks && rec.exp.Some? && rec.verifiedAt < rec.exp.value))
  }

  ghost predicate RecordOk(s: State, digest: Digest, rec: Cached) {
    && rec.user.active && rec.expiresAt == ExpiryFor(rec.exp, rec.verifiedAt)
    && exists i: nat :: Backs(s, i, digest, rec)
  }

  /** A serving rests on an answer for the same token, given at most a cache lifetime ago or not long past `exp`. */
  ghost predicate Justifies(s: State, i: nat, served: Serving) {
    && i < |s.verified| && s.verified[i].digest == served.digest
    && s.verified[i].user.id == served.user && s.verified[i].user.active
    && s.verified[i].exp == served.exp
    && (served.at < s.verified[i].at + TTL
        || (served.digest in s.fallbacks && served.exp.Some? && served.at < served.exp.value + TTL))
  }

  ghost predicate ServingOk(s: State, served: Serving) {
    exists i: nat :: Justifies(s, i, served)
  }

  ghost predicate RunningOk(s: State, v: Validation) {
    match v.stage
    case Asking(held) =>
      held.Some? ==> RecordOk(s, v.digest, held.value) && !Expired(held.value, v.now) && !Fresh(held.value, v.now)
    case Ready(user, exp) => RecordOk(s, v.digest, RecordOf(v)) && ServingOk(s, ServingOf(v))
  }

  ghost predicate Valid(s: State) {
    && |s.table| <= MAX_ENTRIES
    && (forall k :: k in s.table ==> RecordOk(s, k, s.table[k]))
    && (forall v :: v in s.running ==> v < s.nextId && RunningOk(s, s.running[v]))
    && (forall i :: 0 <= i < |s.served| ==> ServingOk(s, s.served[i]))
  }

  /** Later states know every earlier answer. */
  ghost predicate Extends(s: State, t: State) {
    s.verified <= t.verified && s.fallbacks <= t.fallbacks && s.nextId <= t.nextId
  }

  lemma RecordKept(s: State, t: State, digest: Digest, rec: Cached)
    requires Extends(s, t) && RecordOk(s, digest, rec)
    ensures RecordOk(t, digest, rec)
  {
    var i: nat :| Backs(s, i, digest, rec);
    assert Backs(t, i, digest, rec);
  }

  lemma ServingKept(s: State, t: State, served: Serving)
    requires Extends(s, t) && ServingOk(s, served)
    ensures ServingOk(t, served)
  {
    var i: nat :| Justifies(s, i, served);
    assert Justifies(t, i, served);
  }

  lemma RunningKept(s: State, t: State, v: Validation)
    requires Extends(s, t) && RunningOk(s, v)
    ensures RunningOk(t, v)
  {
    if v.stage.Ready? {
      RecordKept(s, t, v.digest, RecordOf(v));
      ServingKept(s, t, ServingOf(v));
    } else if v.stage.held.Some? {
      RecordKept(s, t, v.digest, v.stage.held.value);
    }
  }

  /** What a step leaves as it was stays backed; it is enough that what it adds is. */
  lemma AddsKeepValid(s: State, t: State)
    requires Valid(s) && Extends(s, t) && |t.table| <= MAX_ENTRIES
    requires forall k :: k in t.table ==> (k in s.table && t.table[k] == s.table[k]) || RecordOk(t, k, t.table[k])
    requires forall v :: v in t.running ==>
      (v in s.running && t.running[v] == s.running[v]) || (v < t.nextId && RunningOk(t, t.running[v]))
    requires forall i :: 0 <= i < |t.served| ==>
      (i < |s.served| && t.served[i] == s.served[i]) || ServingOk(t, t.served[i])
    ensures Valid(t)
  {
    hide RecordOk, ServingOk, RunningOk;
    forall k | k in t.table ensures RecordOk(t, k, t.table[k]) {
      if k in s.table && t.table[k] == s.table[k] {
        RecordKept(s, t, k, s.table[k]);
      }
    }
    forall v | v in t.running ensures v < t.nextId && RunningOk(t, t.running[v]) {
      if v in s.running && t.running[v] == s.running[v] {
        RunningKept(s, t, s.running[v]);
      }
    }
    forall i | 0 <= i < |t.served| ensures ServingOk(t, t.served[i]) {
      if i < |s.served| && t.served[i] == s.served[i] {
        ServingKept(s, t, s.served[i]);
      }
    }
  }

  lemma FreshIsJustified(s: State, digest: Digest, rec: Cached, now: real)
    requires RecordOk(s, digest, rec) && Fresh(rec, now)
    ensures ServingOk(s, Serving(digest, rec.user.id, now, rec.exp))
  {
    var i: nat :| Backs(s, i, digest, rec);
    assert Justifies(s, i, Serving(digest, rec.user.id, now, rec.exp));
  }

  lemma LookUpKeepsValid(s: State, digest: Digest, now: real)
    requires Valid(s)
    ensures Valid(LookUp(s, digest, now))
  {
    hide RecordOk, ServingOk;
    var t := LookUp(s, digest, now);
    SubsetSize(t.table.Keys, s.table.Keys);
    if digest in s.table {
      var rec := s.table[digest];
      RecordKept(s, t, digest, rec);
      if Fresh(rec, now) {
        FreshIsJustified(t, digest, rec, now);
      }
    }
    AddsKeepValid(s, t);
  }

  lemma AnswerKeepsValid(s: State, ev: Event)
    requires Valid(s) && ev.Answer? && Enabled(s, ev)
    ensures Valid(Step(s, ev))
  {
    var t, val := Step(s, ev), s.running[ev.v];
    if ev.user.active {
      var next := val.(stage := Ready(ev.user, ev.exp));
      assert Backs(t, |s.verified|, val.digest, RecordOf(next));
      assert Justifies(t, |s.verified|, ServingOf(next));
      assert RunningOk(t, next);
    }
    hide RecordOk, ServingOk, RunningOk;
    AddsKeepValid(s, t);
  }

  lemma FallBackKeepsValid(s: State, ev: Event)
    requires Valid(s) && ev.FallBack? && Enabled(s, ev)
    ensures Valid(Step(s, ev))
  {
    var t, val := Step(s, ev), s.running[ev.v];
    var rec := val.stage.held.value;
    assert RunningOk(s, val);
    assert rec.exp.Some? && val.now < rec.exp.value;
    if rec.user.active {
      var next := val.(stage := Ready(rec.user, rec.exp));
      var i: nat :| Backs(s, i, val.digest, rec);
      assert Backs(t, i, val.digest, RecordOf(next));
      assert Justifies(t, i, ServingOf(next));
      assert RunningOk(t, next);
    }
    hide RecordOk, ServingOk, RunningOk;
    AddsKeepValid(s, t);
  }

  lemma InsertKeepsValid(s: State, ev: Event)
    requires Valid(s) && ev.Insert? && Enabled(s, ev)
    ensures Valid(Step(s, ev))
  {
    var t, val := Step(s, ev), s.running[ev.v];
    assert RunningOk(s, val);
    hide RecordOk, ServingOk, RunningOk, VictimOk;
    StaysBounded(s.table, val.digest, RecordOf(val), ev.victim);
    RecordKept(s, t, val.digest, RecordOf(val));
    ServingKept(s, t, ServingOf(val));
    forall k | k in t.table && k != val.digest ensures k in s.table && t.table[k] == s.table[k] {
    }
    AddsKeepValid(s, t);
  }

  lemma StepKeepsValid(s: State, ev: Event)
    requires Valid(s)
    ensures Valid(Step(s, ev))
  {
    hide VictimOk, RecordOk, ServingOk, RunningOk;
    if Enabled(s, ev) {
      match ev
      case Lookup(digest, now) => LookUpKeepsValid(s, digest, now);
      case Answer(_, _, _) => AnswerKeepsValid(s, ev);
      case FallBack(_) => FallBackKeepsValid(s, ev);
      case Insert(_, _) => InsertKeepsValid(s, ev);
      case GiveUp(_) => AddsKeepValid(s, Step(s, ev));
      case Logout(digest) =>
        SubsetSize((s.table - {digest}).Keys, s.table.Keys);
        AddsKeepValid(s, Step(s, ev));
    }
  }

  lemma {:induction false} RunKeepsValid(s: State, evs: seq<Event>)
    requires Valid(s)
    ensures Valid(Run(s, evs))
    decreases |evs|
  {
    hide Valid, Step;
    if evs != [] {
      StepKeepsValid(s, evs[0]);
      RunKeepsValid(Step(s, evs[0]), evs[1..]);
    }
  }

  /**
   Every user ever served was produced by a verifier for that same token, while active: less than
   a cache lifetime earlier, or, if a record of this token ever stood in for an unreachable verifier,
   less than a cache lifetime after the token's own expiry.
   */
  lemma ServedWasVerified(evs: seq<Event>, k: nat)
    requires k < |Run(EMPTY, evs).served|
    ensures var s := Run(EMPTY, evs); |s.table| <= MAX_ENTRIES && exists i: nat :: Justifies(s, i, s.served[k])
  {
    RunKeepsValid(EMPTY, evs);
    assert ServingOk(Run(EMPTY, evs), Run(EMPTY, evs).served[k]);
  }

  // ----- runs known state by state ---------------------------------------

  lemma {:induction false} RunAll(s: State, evs: seq<Event>, states: seq<State>)
    requires |evs| == |states| > 0 && states[0] == Step(s, evs[0])
    requires forall i :: 0 < i < |evs| ==> states[i] == Step(states[i - 1], evs[i])
    ensures Run(s, evs) == states[|states| - 1]
    decreases |evs|
  {
    hide Step;
    if |evs| > 1 {
      RunAll(states[0], evs[1..], states[1..]);
    } else {
      assert evs[1..] == [];
    }
  }

  const USER := User("u", true)
  const CLAIM: Option<real> := Some(1000.0)
  const FIRST := Cached(USER, CLAIM, 0.0, 1000.0)

  /** A token of user "u" with its claim at 1000: verified and inserted at 0, looked up again at 999. */
  const RENEWAL: seq<Event> := [Lookup("t", 0.0), Answer(0, USER, CLAIM), Insert(0, ""), Lookup("t", 999.0)]

  const RENEWING := State(
    map["t" := FIRST], map[1 := Validation("t", 999.0, Asking(Some(FIRST)))], 2,
    [Verification("t", USER, CLAIM, 0.0)], [Serving("t", "u", 0.0, CLAIM)], {})

  lemma SmallTable(table: Table, now: real)
    requires |table| < MAX_ENTRIES
    ensures VictimOk(table, now, "")
  {
  }

  lemma RenewalReached()
    ensures Run(EMPTY, RENEWAL) == RENEWING
  {
    var s1 := EMPTY.(running := map[0 := Validation("t", 0.0, Asking(None))], nextId := 1);
    var s2 := s1.(running := map[0 := Validation("t", 0.0, Ready(USER, CLAIM))],
                  verified := [Verification("t", USER, CLAIM, 0.0)]);
    var s3 := s2.(running := map[], table := map["t" := FIRST], served := [Serving("t", "u", 0.0, CLAIM)]);
    SmallTable(map[], 0.0);
    hide VictimOk;
    assert Step(EMPTY, RENEWAL[0]) == s1;
    assert Step(s1, RENEWAL[1]) == s2;
    assert Step(s2, RENEWAL[2]) == s3;
    assert Step(s3, RENEWAL[3]) == RENEWING;
    RunAll(EMPTY, RENEWAL, [s1, s2, s3, RENEWING]);
  }

  lemma {:induction false} RunAppend(s: State, a: seq<Event>, b: seq<Event>)
    ensures Run(s, a + b) == Run(Run(s, a), b)
    decreases |a|
  {
    hide Step;
    if a == [] {
      assert a + b == b;
    } else {
      assert (a + b)[1..] == a[1..] + b;
      RunAppend(Step(s, a[0]), a[1..], b);
    }
  }

  /** The validation under way in `RENEWING` falls back, renews the record, and that record is served. */
  lemma RenewedIsServed() returns (end: State)
    ensures end == Run(RENEWING, RENEWED) && PastExpiry(end)
  {
    var s1 := RENEWING.(running := map[1 := Validation("t", 999.0, Ready(USER, CLAIM))], fallbacks := {"t"});
    var s2 := s1.(running := map[], table := map["t" := Cached(USER, CLAIM, 999.0, 1299.0)],
                  served := s1.served + [Serving("t", "u", 999.0, CLAIM)]);
    end := s2.(served := s2.served + [Serving("t", "u", 1298.0, CLAIM)]);
    assert |s1.table| == 1;
    SmallTable(s1.table, 999.0);
    hide VictimOk;
    assert Step(RENEWING, RENEWED[0]) == s1;
    assert Step(s1, RENEWED[1]) == s2;
    assert Step(s2, RENEWED[2]) == end;
    hide Step;
    RunAll(RENEWING, RENEWED, [s1, s2, end]);
  }

  const RENEWED: seq<Event> := [FallBack(1), Insert(1, ""), Lookup("t", 1298.0)]

  /** The second bound is nearly reached: a fallback just before a token's expiry renews an answer of long ago. */
  lemma ServedPastItsExpiry()
    ensures exists evs: seq<Event> :: PastExpiry(Run(EMPTY, evs))
  {
    hide Step, PastExpiry;
    var end := RenewedIsServed();
    RenewalReached();
    RunAppend(EMPTY, RENEWAL, RENEWED);
  }

  ghost predicate PastExpiry(s: State) {
    && |s.served| > 0 && |s.verified| == 1 && s.verified[0].exp.Some?
    && s.served[|s.served| - 1].at >= s.verified[0].exp.value + TTL - 2.0
  }

  // ----- served past the token's own expiry ------------------------------

  /**
   A record inserted at `now` can be served at or after its claim if
   and only if the claim falls within one lifetime.
   */
  lemma RecordServesPastExactly(user: User, exp: real, now: real)
    ensures (exists x :: exp <= x && Fresh(Cached(user, Some(exp), now, ExpiryFor(Some(exp), now)), x))
      <==> exp < now + TTL
  {
    var rec := Cached(user, Some(exp), now, ExpiryFor(Some(exp), now));
    if exp < now + TTL {
      assert Fresh(rec, LaterOf(exp, now));
    }
  }

  function LaterOf(a: real, b: real): real {
    if a < b then b else a
  }

  /** The step inserts a record whose claim falls within one lifetime. */
  ghost predicate InsertsLate(s: State, ev: Event) {
    && ev.Insert? && Enabled(s, ev)
    && var v := s.running[ev.v]; v.stage.exp.Some? && v.stage.exp.value < v.now + TTL
  }

  ghost predicate InsertionsEarly(s: State, evs: seq<Event>)
    decreases |evs|
  {
    evs == [] || (!InsertsLate(s, evs[0]) && InsertionsEarly(Step(s, evs[0]), evs[1..]))
  }

  ghost predicate NonePast(s: State) {
    forall k :: 0 <= k < |s.served| && s.served[k].exp.Some? ==> s.served[k].at < s.served[k].exp.value
  }

  predicate ClaimFar(rec: Cached) {
    rec.exp.Some? ==> rec.exp.value >= rec.verifiedAt + TTL
  }

  ghost predicate AllFar(s: State) {
    NonePast(s) && forall k :: k in s.table ==> ClaimFar(s.table[k])
  }

  lemma StepKeepsFar(s: State, ev: Event)
    requires AllFar(s) && !InsertsLate(s, ev)
    ensures AllFar(Step(s, ev))
  {
    hide VictimOk;
  }

  lemma {:induction false} EarlyKeepsFar(s: State, evs: seq<Event>)
    requires AllFar(s) && InsertionsEarly(s, evs)
    ensures AllFar(Run(s, evs))
    decreases |evs|
  {
    if evs != [] {
      StepKeepsFar(s, evs[0]);
      hide AllFar, Step, InsertsLate;
      EarlyKeepsFar(Step(s, evs[0]), evs[1..]);
    }
  }

  lemma RunSnoc(s: State, evs: seq<Event>, last: Event)
    ensures Run(s, evs + [last]) == Step(Run(s, evs), last)
  {
    hide Step;
    RunAppend(s, evs, [last]);
    assert [last][1..] == [];
    assert Run(Step(Run(s, evs), last), []) == Step(Run(s, evs), last);
  }

  lemma {:induction false} EarlyPrefix(s: State, evs: seq<Event>, i: nat)
    requires i <= |evs| && InsertionsEarly(s, evs)
    ensures InsertionsEarly(s, evs[..i])
    decreases i
  {
    hide Step, InsertsLate;
    if i > 0 {
      assert evs[..i][1..] == evs[1..][..i - 1];
      EarlyPrefix(Step(s, evs[0]), evs[1..], i - 1);
    }
  }

  lemma {:induction false} FirstLate(s: State, evs: seq<Event>) returns (i: nat)
    requires !InsertionsEarly(s, evs)
    ensures i < |evs| && InsertsLate(Run(s, evs[..i]), evs[i])
    decreases |evs|
  {
    hide Step, InsertsLate;
    if InsertsLate(s, evs[0]) {
      i := 0;
      assert evs[..0] == [];
    } else {
      var j := FirstLate(Step(s, evs[0]), evs[1..]);
      i := j + 1;
      assert evs[..i][1..] == evs[1..][..j];
    }
  }

  /** After a late insertion a lookup is served at or past the claim, with no fallback needed. */
  lemma LateInsertionServesPast(s: State, ev: Event)
    requires InsertsLate(s, ev)
    ensures var v := s.running[ev.v];
      !NonePast(Step(Step(s, ev), Lookup(v.digest, LaterOf(v.stage.exp.value, v.now))))
  {
    hide VictimOk;
    var v := s.running[ev.v];
    var x := LaterOf(v.stage.exp.value, v.now);
    var t := Step(s, ev);
    assert t.table[v.digest] == RecordOf(v) && Fresh(t.table[v.digest], x);
    var u := Step(t, Lookup(v.digest, x));
    assert u.served[|t.served|].at == x;
  }

  /**
   A lookup of this token at this clock after the first `i` events,
   and all before it, are served before their claim.
   */
  ghost predicate BeforeClaim(evs: seq<Event>, i: nat, digest: Digest, x: real)
    requires i <= |evs|
  {
    NonePast(Run(EMPTY, evs[..i] + [Lookup(digest, x)]))
  }

  lemma EarlyMeansBefore(evs: seq<Event>, i: nat, digest: Digest, x: real)
    requires i <= |evs| && InsertionsEarly(EMPTY, evs)
    ensures BeforeClaim(evs, i, digest, x)
  {
    assert AllFar(EMPTY) && !InsertsLate(Run(EMPTY, evs[..i]), Lookup(digest, x));
    hide Step, Run, InsertsLate, NonePast, InsertionsEarly;
    EarlyPrefix(EMPTY, evs, i);
    EarlyKeepsFar(EMPTY, evs[..i]);
    StepKeepsFar(Run(EMPTY, evs[..i]), Lookup(digest, x));
    RunSnoc(EMPTY, evs[..i], Lookup(digest, x));
  }

  lemma LateMeansPast(evs: seq<Event>, i: nat) returns (digest: Digest, x: real)
    requires i < |evs| && InsertsLate(Run(EMPTY, evs[..i]), evs[i])
    ensures !BeforeClaim(evs, i + 1, digest, x)
  {
    hide Step, Run, NonePast;
    var s, ev := Run(EMPTY, evs[..i]), evs[i];
    LateInsertionServesPast(s, ev);
    digest, x := s.running[ev.v].digest, LaterOf(s.running[ev.v].stage.exp.value, s.running[ev.v].now);
    assert evs[..i + 1] == evs[..i] + [ev];
    RunSnoc(EMPTY, evs[..i], ev);
    RunSnoc(EMPTY, evs[..i + 1], Lookup(digest, x));
  }

  /**
   Over every run: at no moment could any lookup be served at or after its token's own expiry claim,
   if and only if every record was inserted, after a verifier's answer or a fallback, at least one cache
   lifetime before its claim.
   */
  lemma ServedBeforeClaimExactly(evs: seq<Event>)
    ensures (forall i, digest, x :: 0 <= i <= |evs| ==> BeforeClaim(evs, i, digest, x)) <==> InsertionsEarly(EMPTY, evs)
  {
    hide Step, Run, InsertsLate, BeforeClaim, InsertionsEarly;
    if InsertionsEarly(EMPTY, evs) {
      forall i, digest, x | 0 <= i <= |evs| ensures BeforeClaim(evs, i, digest, x) {
        EarlyMeansBefore(evs, i, digest, x);
      }
    } else {
      var i := FirstLate(EMPTY, evs);
      var digest, x := LateMeansPast(evs, i);
    }
  }

  // ----- logout ----------------------------------------------------------

  /** The token is in the cache at no moment of the run, and is not served. */
  ghost predicate StaysOut(s: State, evs: seq<Event>, digest: Digest)
    decreases |evs|
  {
    digest !in s.table &&
    (evs != [] ==>
      var t := Step(s, evs[0]);
      && (forall k :: |s.served| <= k < |t.served| ==> t.served[k].digest != digest)
      && StaysOut(t, evs[1..], digest))
  }

  /** A verifier accepts the token of some validation under way. */
  ghost predicate Accepts(s: State, ev: Event, digest: Digest) {
    ev.Answer? && Enabled(s, ev) && s.running[ev.v].digest == digest && ev.user.active
  }

  ghost predicate Unaccepted(s: State, evs: seq<Event>, digest: Digest)
    decreases |evs|
  {
    evs == [] || (!Accepts(s, evs[0], digest) && Unaccepted(Step(s, evs[0]), evs[1..], digest))
  }

  /**
   This validation can bring the token back by itself: it is past
   the verifiers, or holds a record to fall back on.
   */
  predicate Carries(v: Validation, digest: Digest) {
    && v.digest == digest
    && (v.stage.Ready? || (v.stage.held.Some? && v.stage.held.value.user.active))
  }

  /** No validation under way carries the token. */
  ghost predicate NoneCarries(s: State, digest: Digest) {
    forall v :: v in s.running ==> !Carries(s.running[v], digest)
  }

  lemma StepWhileOut(s: State, ev: Event, digest: Digest)
    requires digest !in s.table && NoneCarries(s, digest) && !Accepts(s, ev, digest)
    ensures var t := Step(s, ev);
      && digest !in t.table && NoneCarries(t, digest)
      && forall k :: |s.served| <= k < |t.served| ==> t.served[k].digest != digest
  {
    if ev.Insert? {
      InsertWhileOut(s, ev, digest);
    } else {
      hide VictimOk, Remember;
      if (ev.Answer? || ev.FallBack?) && Enabled(s, ev) {
        assert !Carries(s.running[ev.v], digest);
      }
    }
  }

  lemma InsertWhileOut(s: State, ev: Event, digest: Digest)
    requires ev.Insert? && digest !in s.table && NoneCarries(s, digest)
    ensures var t := Step(s, ev);
      && digest !in t.table && NoneCarries(t, digest)
      && forall k :: |s.served| <= k < |t.served| ==> t.served[k].digest != digest
  {
    hide VictimOk;
    if Enabled(s, ev) {
      assert !Carries(s.running[ev.v], digest);
      hide Carries;
      assert forall u :: u in Step(s, ev).running ==> u in s.running && Step(s, ev).running[u] == s.running[u];
    }
  }

  lemma {:induction false} OutWhileUncarried(s: State, evs: seq<Event>, digest: Digest)
    requires digest !in s.table && NoneCarries(s, digest) && Unaccepted(s, evs, digest)
    ensures StaysOut(s, evs, digest)
    decreases |evs|
  {
    if evs != [] {
      StepWhileOut(s, evs[0], digest);
      hide Step, Accepts, NoneCarries;
      OutWhileUncarried(Step(s, evs[0]), evs[1..], digest);
    }
  }

  /** A validation that carries the token inserts it without another word from a verifier. */
  lemma CarrierReturns(s: State, v: nat, digest: Digest) returns (evs: seq<Event>)
    requires v in s.running && Carries(s.running[v], digest) && digest !in s.table
    ensures Unaccepted(s, evs, digest) && !StaysOut(s, evs, digest) && digest in Run(s, evs).table
  {
    var insert := Insert(v, Sacrifice(s.table, s.running[v].now));
    hide VictimOk;
    assert [insert][1..] == [];
    if s.running[v].stage.Ready? {
      evs := [insert];
      InsertReturns(s, insert, digest);
    } else {
      evs := [FallBack(v), insert];
      assert evs[1..] == [insert];
      var t := Step(s, FallBack(v));
      assert t.running[v].stage.Ready? && t.table == s.table;
      InsertReturns(t, insert, digest);
      assert !Accepts(s, FallBack(v), digest);
    }
  }

  lemma InsertReturns(s: State, insert: Event, digest: Digest)
    requires insert.Insert? && Enabled(s, insert) && s.running[insert.v].digest == digest
    ensures Unaccepted(s, [insert], digest) && !StaysOut(s, [insert], digest) && digest in Run(s, [insert]).table
  {
    hide VictimOk;
    assert [insert][1..] == [];
    var t := Step(s, insert);
    assert digest in t.table;
    assert !StaysOut(t, [], digest);
    assert Unaccepted(t, [], digest) && Run(t, []) == t;
  }

  /**
   After a logout the token stays out of the cache, and unserved, in every continuation in which no verifier
   accepts it again, if and only if no validation under way at the logout carries it.
   */
  lemma LoggedOutExactly(s: State, digest: Digest)
    ensures var t := Step(s, Logout(digest));
      (forall evs :: Unaccepted(t, evs, digest) ==> StaysOut(t, evs, digest)) <==> NoneCarries(s, digest)
  {
    var t := Step(s, Logout(digest));
    hide Step, Carries;
    if NoneCarries(s, digest) {
      forall evs | Unaccepted(t, evs, digest) ensures StaysOut(t, evs, digest) {
        LogoutDrops(s, digest);
        OutWhileUncarried(t, evs, digest);
      }
    } else {
      var v :| v in s.running && Carries(s.running[v], digest);
      LogoutDrops(s, digest);
      var evs := CarrierReturns(t, v, digest);
    }
  }

  lemma LogoutDrops(s: State, digest: Digest)
    ensures Step(s, Logout(digest)) == s.(table := s.table - {digest})
  {
  }

  /** A token logged out at the end of `past` is back after `later`, in which no verifier accepts it. */
  ghost predicate UndoesLogout(past: seq<Event>, later: seq<Event>, digest: Digest) {
    var t := Step(Run(EMPTY, past), Logout(digest));
    Unaccepted(t, later, digest) && digest in Run(t, later).table
  }

  /** Such a run: a renewal has fetched the record, the user logs out, and then the verifier cannot be reached. */
  lemma FallbackUndoesLogout()
    ensures exists past, later :: UndoesLogout(past, later, "t")
  {
    RenewalReached();
    var t := Step(RENEWING, Logout("t"));
    assert Carries(t.running[1], "t") && "t" !in t.table;
    var later := CarrierReturns(t, 1, "t");
    assert UndoesLogout(RENEWAL, later, "t");
  }

  // ----- the service object ----------------------------------------------

  /** The remote verifier's answer: a user, or nobody; `transient` when it could not be reached. */
  datatype Reply = Reply(user: Option<User>, transient: bool)

  /**
   Who a slow validation ends up with: the local check, else the remote
   one (asked twice if unreachable), else the old record.
   */
  datatype Outcome = Verified(user: User, exp: Option<real>) | StandIn(rec: Cached) | Nobody

  function Ask(local: Option<(User, Option<real>)>, first: Reply, second: Reply, held: Option<Cached>): Outcome {
    if local.Some? then Verified(local.value.0, local.value.1)
    else
      var last := if first.user.None? && first.transient then second else first;
      if last.user.Some? then Verified(last.user.value, None)
      else if last.transient && held.Some? then StandIn(held.value)
      else Nobody
  }

  function Live(table: Table, digest: Digest, now: real): Option<Cached> {
    if digest in table && !Expired(table[digest], now) then Some(table[digest]) else None
  }

  function ActiveUser(outcome: Outcome): Option<string> {
    match outcome
    case Nobody => None
    case Verified(user, _) => if user.active then Some(user.id) else None
    case StandIn(rec) => if rec.user.active then Some(rec.user.id) else None
  }

  ghost function IfActive(user: User): Option<string> {
    if user.active then Some(user.id) else None
  }

  /** The first reply decides unless it came from an unreachable verifier and names nobody; then the second does. */
  ghost function Deciding(first: Reply, second: Reply): Reply {
    if first.user.None? && first.transient then second else first
  }

  /**
   Whom a validation serves that the cache could not: a definite
   answer counts, and only silence brings in the old record.
   */
  ghost predicate ServesRightly(local: Option<(User, Option<real>)>, first: Reply, second: Reply, held: Option<Cached>,
                                served: Option<string>)
  {
    && (local.Some? ==> served == IfActive(local.value.0))
    && (local.None? && Deciding(first, second).user.Some? ==> served == IfActive(Deciding(first, second).user.value))
    && (local.None? && Deciding(first, second).user.None? && !Deciding(first, second).transient ==> served.None?)
    && (local.None? && first.user.None? && second.user.None? && first.transient && second.transient ==>
          served == if held.Some? then IfActive(held.value.user) else None)
  }

  /**
   The expiry claim that goes with it: the local check's own, none
   with a remote answer, the old one with the old record.
   */
  ghost function ClaimBehind(local: Option<(User, Option<real>)>, first: Reply, second: Reply,
                             held: Option<Cached>): Option<real>
  {
    if local.Some? then local.value.1
    else if Deciding(first, second).user.Some? || held.None? then None
    else held.value.exp
  }

  function ClaimOf(outcome: Outcome): Option<real> {
    match outcome
    case Nobody => None
    case Verified(_, exp) => exp
    case StandIn(rec) => rec.exp
  }

  lemma AskExact(local: Option<(User, Option<real>)>, first: Reply, second: Reply, held: Option<Cached>)
    ensures ServesRightly(local, first, second, held, ActiveUser(Ask(local, first, second, held)))
    ensures var outcome := Ask(local, first, second, held);
      outcome.Nobody? || ClaimOf(outcome) == ClaimBehind(local, first, second, held)
  {
  }

  /** The record kept for a user served at `now`: good for a lifetime, or to the token's own expiry if that is later. */
  ghost predicate KeptFor(rec: Cached, user: string, exp: Option<real>, now: real) {
    && rec.user.id == user && rec.user.active && rec.exp == exp && rec.verifiedAt == now
    && (if rec.exp.Some? && rec.exp.value > now + 300.0 then rec.expiresAt == rec.exp.value
        else rec.expiresAt == now + 300.0)
  }

  ghost predicate AddsServing(before: seq<Serving>, after: seq<Serving>, digest: Digest, user: string, now: real) {
    exists exp :: after == before + [Serving(digest, user, now, exp)]
  }

  /** Whom a validation serves and what it keeps, for a token the cache could not serve at once. */
  ghost predicate Decided(before: Table, after: Table, digest: Digest, now: real, local: Option<(User, Option<real>)>,
                          first: Reply, second: Reply, served: Option<string>)
  {
    var held := Unended(before, digest, now);
    && ServesRightly(local, first, second, held, served)
    && (served.Some? ==>
          && digest in after
          && KeptFor(after[digest], served.value, ClaimBehind(local, first, second, held), now))
    && (served.Some? && |before| < 4096 ==> after - {digest} == before - {digest})
    && (served.None? ==> after == if held.Some? then before else before - {digest})
  }

  lemma StandInIsHeld(local: Option<(User, Option<real>)>, first: Reply, second: Reply, held: Option<Cached>)
    ensures var outcome := Ask(local, first, second, held); outcome.StandIn? ==> held == Some(outcome.rec)
  {
  }

  /** `found` is the table after the lookup that dropped a record that was over. */
  lemma DecidedByOutcome(before: Table, found: Table, after: Table, digest: Digest, now: real,
                         local: Option<(User, Option<real>)>, first: Reply, second: Reply, served: Option<string>)
    requires found == if Unended(before, digest, now).Some? then before else before - {digest}
    requires var outcome := Ask(local, first, second, Unended(before, digest, now));
      && served == ActiveUser(outcome)
      && (served.None? ==> after == found)
      && (served.Some? ==>
            !outcome.Nobody? && digest in after && KeptFor(after[digest], served.value, ClaimOf(outcome), now))
      && (served.Some? && |found| < 4096 ==> after - {digest} == found - {digest})
    ensures Decided(before, after, digest, now, local, first, second, served)
  {
    hide KeptFor, ServesRightly, ClaimBehind, ActiveUser, Ask;
    SmallerTable(before, digest);
    AskExact(local, first, second, Unended(before, digest, now));
  }

  lemma SmallerTable(table: Table, digest: Digest)
    ensures |table - {digest}| <= |table| && (table - {digest}) - {digest} == table - {digest}
  {
    assert (table - {digest}).Keys == table.Keys - {digest};
    SubsetSize((table - {digest}).Keys, table.Keys);
  }

  /**
   The lookup of a validation that meets no other: a record served at
   once, or the validation goes on with what is held.
   */
  lemma LookUpAlone(s: State, digest: Digest, now: real)
    requires s.running == map[]
    ensures var t := LookUp(s, digest, now);
      if Serveable(s.table, digest, now) then
        && Fresh(s.table[digest], now) && t.running == map[] && t.table == s.table
        && AddsServing(s.served, t.served, digest, s.table[digest].user.id, now)
        && |t.served| == |s.served| + 1
      else
        && !(digest in s.table && Fresh(s.table[digest], now))
        && t.running == map[s.nextId := Validation(digest, now, Asking(Unended(s.table, digest, now)))]
        && t.served == s.served
  {
    if Serveable(s.table, digest, now) {
      var rec := s.table[digest];
      assert LookUp(s, digest, now).served == s.served + [Serving(digest, rec.user.id, now, rec.exp)];
    }
  }

  lemma HeldIsLive(table: Table, digest: Digest, now: real)
    ensures Live(table, digest, now) == Unended(table, digest, now)
  {
  }

  /** The record was made less than a lifetime ago, and its end is to come. */
  ghost predicate Serveable(table: Table, digest: Digest, now: real) {
    digest in table && now < table[digest].expiresAt && now - table[digest].verifiedAt < 300.0
  }

  ghost function Unended(table: Table, digest: Digest, now: real): Option<Cached> {
    if digest in table && now < table[digest].expiresAt then Some(table[digest]) else None
  }

  class AuthService {
    var table: Table
    ghost var world: State

    ghost predicate Coupled()
      reads this
    {
      world.table == table && Valid(world) && world.running == map[]
    }

    constructor ()
      ensures Coupled() && world == EMPTY
    {
      table, world := map[], EMPTY;
    }

    method CachedToken(digest: Digest, now: real) returns (rec: Option<Cached>)
      requires Coupled()
      modifies this
      ensures world.table == table && Valid(world) && world == LookUp(old(world), digest, now)
      ensures rec == Live(old(table), digest, now)
      ensures rec.Some? <==> digest in old(table) && now < old(table)[digest].expiresAt
      ensures rec.Some? ==> rec.value == old(table)[digest] && table == old(table)
      ensures rec.None? ==> table == old(table) - {digest}
    {
      LookUpKeepsValid(world, digest, now);
      world := LookUp(world, digest, now);
      if digest !in table {
        return None;
      }
      if now >= table[digest].expiresAt {
        table := table - {digest};
        return None;
      }
      return Some(table[digest]);
    }

    method Logout(digest: Digest)
      requires Coupled()
      modifies this
      ensures Coupled() && world == Step(old(world), Event.Logout(digest))
      ensures table == old(table) - {digest}
    {
      hide Valid, VictimOk;
      Advance(Event.Logout(digest));
      table := table - {digest};
    }

    /** The key with the smallest verification time. */
    method Oldest() returns (victim: Digest)
      requires table != map[]
      ensures IsOldest(table, victim)
    {
      var rest := table.Keys;
      assert rest != {};
      victim :| victim in rest;
      while rest != {}
        invariant rest <= table.Keys && victim in table
        invariant forall k :: k in table && k !in rest ==> table[victim].verifiedAt <= table[k].verifiedAt
        decreases |rest|
      {
        var k :| k in rest;
        rest := rest - {k};
        if table[k].verifiedAt < table[victim].verifiedAt {
          victim := k;
        }
      }
    }

    method DropExpired(now: real)
      modifies this`table
      ensures table == Unexpired(old(table), now)
    {
      var rest := table.Keys;
      while rest != {}
        invariant rest <= old(table).Keys
        invariant table == map k | k in old(table) && (k in rest || !Expired(old(table)[k], now)) :: old(table)[k]
        decreases |rest|
      {
        var k :| k in rest;
        rest := rest - {k};
        if table[k].expiresAt <= now {
          table := table - {k};
        }
      }
    }

    method RememberToken(digest: Digest, user: User, exp: Option<real>, now: real) returns (ghost victim: Digest)
      requires |table| <= MAX_ENTRIES
      modifies this`table
      ensures VictimOk(old(table), now, victim)
      ensures table == Remember(old(table), digest, Cached(user, exp, now, ExpiryFor(exp, now)), victim)
    {
      victim := "";
      if |table| >= MAX_ENTRIES {
        DropExpired(now);
        if |table| >= MAX_ENTRIES {
          var oldest := Oldest();
          victim := oldest;
          table := table - {oldest};
        }
      }
      table := table[digest := Cached(user, exp, now, ExpiryFor(exp, now))];
    }

    /** A validation that meets no other between its two sections. */
    method ValidateUserToken(digest: Option<Digest>, now: real, local: Option<(User, Option<real>)>,
                             first: Reply, second: Reply) returns (served: Option<string>)
      requires Coupled()
      modifies this
      ensures Coupled()
      ensures served.Some? <==> |world.served| == |old(world.served)| + 1
      ensures served.Some? ==>
        digest.Some? && AddsServing(old(world.served), world.served, digest.value, served.value, now)
      ensures served.None? ==> world.served == old(world.served)
      ensures digest.Some? && digest.value in old(table) && Fresh(old(table)[digest.value], now) ==>
        served == Some(old(table)[digest.value].user.id) && table == old(table)
      ensures digest.Some? && !(digest.value in old(table) && Fresh(old(table)[digest.value], now)) ==>
        served == ActiveUser(Ask(local, first, second, Live(old(table), digest.value, now)))
      // a record is served at once while it is young and not over
      ensures digest.None? ==> served.None? && table == old(table)
      ensures digest.Some? && Serveable(old(table), digest.value, now) ==>
        served == Some(old(table)[digest.value].user.id) && table == old(table)
      // otherwise the verifiers decide, and what they decide is kept
      ensures digest.Some? && !Serveable(old(table), digest.value, now) ==>
        Decided(old(table), table, digest.value, now, local, first, second, served)
    {
      if digest.None? {
        return None;
      }
      hide Valid, RunningOk, VictimOk, Decided, Ask, KeptFor, ClaimOf, ActiveUser, AddsServing;
      hide LookUp, Live, Fresh, Started;
      LookUpAlone(world, digest.value, now);
      HeldIsLive(table, digest.value, now);
      ghost var id := world.nextId;
      var cached := CachedToken(digest.value, now);
      if cached.Some? && now - cached.value.verifiedAt < TTL {
        return Some(cached.value.user.id);
      }
      assert world.running == map[id := Validation(digest.value, now, Asking(cached))];
      assert world.served == old(world.served);
      StandInIsHeld(local, first, second, cached);
      var outcome := Ask(local, first, second, cached);
      ghost var found := table;
      served := AskVerifiers(digest.value, now, outcome, cached, id);
      DecidedByOutcome(old(table), found, table, digest.value, now, local, first, second, served);
    }

    /** A validation that the cache could not serve at once. */
    method AskVerifiers(digest: Digest, now: real, outcome: Outcome, ghost held: Option<Cached>, ghost id: nat)
      returns (served: Option<string>)
      requires world.table == table && Valid(world)
      requires world.running == map[id := Validation(digest, now, Asking(held))]
      requires outcome.StandIn? ==> held == Some(outcome.rec)
      modifies this
      ensures Coupled()
      ensures served == ActiveUser(outcome)
      ensures served.Some? ==> AddsServing(old(world.served), world.served, digest, served.value, now)
      ensures served.None? ==> world.served == old(world.served) && table == old(table)
      ensures served.Some? ==>
        !outcome.Nobody? && digest in table && KeptFor(table[digest], served.value, ClaimOf(outcome), now)
      ensures served.Some? && |old(table)| < 4096 ==> table - {digest} == old(table) - {digest}
    {
      hide Valid, VictimOk, KeptFor;
      match outcome {
        case Nobody =>
          Advance(GiveUp(id));
          assert world.running == map[];
          return None;
        case Verified(user, exp) =>
          Advance(Event.Answer(id, user, exp));
          assert world.running == if user.active then map[id := Validation(digest, now, Ready(user, exp))] else map[];
          served := Conclude(digest, user, exp, now, id);
        case StandIn(rec) =>
          Advance(FallBack(id));
          served := Conclude(digest, rec.user, rec.exp, now, id);
      }
    }

    /** The verifiers, or the record that stands in for them, have named a user. */
    method Conclude(digest: Digest, user: User, exp: Option<real>, now: real, ghost id: nat)
      returns (served: Option<string>)
      requires world.table == table && Valid(world)
      requires world.running == if user.active then map[id := Validation(digest, now, Ready(user, exp))] else map[]
      modifies this
      ensures Coupled()
      ensures served == if user.active then Some(user.id) else None
      ensures world.served == old(world.served) + if user.active then [Serving(digest, user.id, now, exp)] else []
      ensures user.active ==> digest in table && KeptFor(table[digest], user.id, exp, now)
      ensures user.active && |old(table)| < 4096 ==> table - {digest} == old(table) - {digest}
      ensures !user.active ==> table == old(table)
    {
      if !user.active {
        return None;
      }
      TableBounded(world);
      hide Valid, VictimOk, Remember, LookUp, Named, ExpiryFor, KeptFor;
      ghost var before := world;
      ghost var victim := RememberToken(digest, user, exp, now);
      RememberKeeps(before.table, digest, user, exp, now, victim);
      InsertsNow(before, id, victim);
      Advance(Event.Insert(id, victim));
      return Some(user.id);
    }

    ghost method Advance(ev: Event)
      requires Valid(world)
      modifies this`world
      ensures world == Step(old(world), ev) && Valid(world)
    {
      StepKeepsValid(world, ev);
      world := Step(world, ev);
    }
  }

  lemma RememberKeeps(table: Table, digest: Digest, user: User, exp: Option<real>, now: real, victim: Digest)
    requires user.active
    ensures var after := Remember(table, digest, Cached(user, exp, now, ExpiryFor(exp, now)), victim);
      && digest in after && KeptFor(after[digest], user.id, exp, now)
      && (|table| < 4096 ==> after - {digest} == table - {digest})
  {
  }

  lemma TableBounded(s: State)
    requires Valid(s)
    ensures |s.table| <= MAX_ENTRIES
  {
  }

  /** The insertion of the only validation under way. */
  lemma InsertsNow(s: State, id: nat, victim: Digest)
    requires IsReady(s, id) && s.running.Keys == {id} && VictimOk(s.table, s.running[id].now, victim)
    ensures var v := s.running[id];
      Step(s, Event.Insert(id, victim)) ==
        s.(table := Remember(s.table, v.digest, RecordOf(v), victim),
           served := s.served + [ServingOf(v)], running := map[])
  {
    hide VictimOk, Remember, LookUp, Named;
    assert s.running - {id} == map[];
  }

  /** Some entry an insertion could take, whether or not it needs one. */
  ghost function Sacrifice(table: Table, now: real): (victim: Digest)
    ensures VictimOk(table, now, victim)
  {
    var kept := Unexpired(table, now);
    if kept == map[] then
      ""
    else
      OldestExists(kept);
      var victim :| IsOldest(kept, victim);
      victim
  }

  lemma {:induction false} OldestExists(table: Table)
    requires table != map[]
    ensures exists victim :: IsOldest(table, victim)
    decreases |table|
  {
    var k :| k in table.Keys;
    var rest := table - {k};
    SizeWithout(table, k);
    if rest == map[] {
      assert forall q :: q in table ==> q == k;
      assert IsOldest(table, k);
    } else {
      OldestExists(rest);
      var v :| IsOldest(rest, v);
      assert forall q :: q in table ==> q == k || (q in rest && rest[q] == table[q]);
      assert IsOldest(table, if table[k].verifiedAt < table[v].verifiedAt then k else v);
    }
  }
}
