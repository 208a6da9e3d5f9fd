/**
 The VPS-to-Farm SMS protocol as a transition system: any number of requests in
 flight, interleaved at the outbox operations, with lost and repeated requests,
 lost responses, failing store writes and Farm restarts.

 Two arrangements of the Farm are covered. In the shared one every request uses
 one outbox object. In the rebuilt one, which the Farm command uses, each request
 builds its own service and so works on its own copy of the durable table.
 */
module SmsProtocol {

  /** `maxAttempts` is at least one. */
  datatype Config = Config(shared: bool, maxAttempts: int)

  /** Where a request stands: service built, first lookup passed, second lookup passed, reserved with `made` calls. */
  datatype Phase = Built | Looked | Passed | Trying(made: nat)

  /** `view` is the request's own copy of the durable keys; it is read only in the rebuilt arrangement. */
  datatype Request = Request(key: string, view: set<string>, phase: Phase)

  datatype Outcome = Accepted | SafeFailure | UnsafeFailure

  datatype Attempt = Attempt(request: nat, outcome: Outcome)

  /** The answer to one request; a request is answered at most once. */
  datatype Response = Response(request: nat, key: string, ok: bool)

  /**
   `disk` maps each durable key to the request that last reserved it. `calls` is the
   provider's log by key. `unsaved` collects keys whose reservation failed to reach
   the store, and `acked` the keys some VPS has been told are fine.
   */
  datatype State = State(
    mem: set<string>, disk: map<string, nat>, requests: map<nat, Request>, nextId: nat,
    calls: map<string, seq<Attempt>>, wire: set<Response>, acked: set<string>, unsaved: set<string>)

  const INITIAL := State({}, map[], map[], 0, map[], {}, {}, {})

  datatype Step =
    | Arrive(key: string)
    | Lookup(q: nat)
    | LookupAgain(q: nat)
    | Reserve(q: nat, stored: bool, admitted: bool)
    | Call(q: nat, outcome: Outcome, confirmed: bool)
    | Crash
    | Deliver(response: Response)

  function Log(s: State, key: string): seq<Attempt> {
    if key in s.calls then s.calls[key] else []
  }

  function Seen(cfg: Config, s: State, r: Request): set<string> {
    if cfg.shared then s.mem else r.view
  }

  function Finish(s: State, q: nat, ok: bool): State
    requires q in s.requests
  {
    s.(requests := s.requests - {q}, wire := s.wire + {Response(q, s.requests[q].key, ok)})
  }

  function Advance(s: State, q: nat, phase: Phase): State
    requires q in s.requests
  {
    s.(requests := s.requests[q := s.requests[q].(phase := phase)])
  }

  /** A lookup that finds the key reports a duplicate, which the VPS reads as accepted. */
  function AfterLookup(cfg: Config, s: State, q: nat, next: Phase): State
    requires q in s.requests
  {
    if s.requests[q].key in Seen(cfg, s, s.requests[q]) then Finish(s, q, true) else Advance(s, q, next)
  }

  function AfterReserve(cfg: Config, s: State, q: nat, stored: bool, admitted: bool): State
    requires q in s.requests
  {
    var r := s.requests[q];
    if r.key in Seen(cfg, s, r) then Finish(s, q, false) // the reserve-time duplicate is worded differently
    else if !stored then
      s.(mem := s.mem + {r.key}, unsaved := s.unsaved + {r.key}, requests := s.requests - {q})
    else
      var t := s.(mem := s.mem + {r.key}, disk := s.disk[r.key := q]);
      if admitted then Advance(t, q, Trying(0)) else Finish(t, q, false)
  }

  /** `confirmed` says whether an accepted message was also reported as a success. */
  function AfterCall(cfg: Config, s: State, q: nat, outcome: Outcome, confirmed: bool): State
    requires q in s.requests && s.requests[q].phase.Trying?
  {
    var r := s.requests[q];
    var t := s.(calls := s.calls[r.key := Log(s, r.key) + [Attempt(q, outcome)]]);
    if outcome.SafeFailure? && r.phase.made + 1 < cfg.maxAttempts then Advance(t, q, Trying(r.phase.made + 1))
    else Finish(t, q, outcome.Accepted? && confirmed)
  }

  /** A step that is not enabled changes nothing. */
  function Next(cfg: Config, s: State, step: Step): State {
    match step
    case Arrive(key) =>
      s.(requests := s.requests[s.nextId := Request(key, s.disk.Keys, Built)], nextId := s.nextId + 1)
    case Lookup(q) =>
      if q in s.requests && s.requests[q].phase.Built? then AfterLookup(cfg, s, q, Looked) else s
    case LookupAgain(q) =>
      if q in s.requests && s.requests[q].phase.Looked? then AfterLookup(cfg, s, q, Passed) else s
    case Reserve(q, stored, admitted) =>
      if q in s.requests && s.requests[q].phase.Passed? then AfterReserve(cfg, s, q, stored, admitted) else s
    case Call(q, outcome, confirmed) =>
      if q in s.requests && s.requests[q].phase.Trying? then AfterCall(cfg, s, q, outcome, confirmed) else s
    case Crash => s.(requests := map[], mem := s.disk.Keys)
    case Deliver(response) =>
      if response in s.wire && response.ok then s.(acked := s.acked + {response.key}) else s
  }

  function Run(cfg: Config, s: State, steps: seq<Step>): State
    decreases |steps|
  {
    if steps == [] then s else Run(cfg, Next(cfg, s, steps[0]), steps[1..])
  }

  // ----- what is claimed -------------------------------------------------

  /** A log of one execution: bounded, and nothing after a success or an unsafe outcome. */
  ghost predicate OneExecution(cfg: Config, log: seq<Attempt>) {
    && |log| <= cfg.maxAttempts
    && (forall i :: 0 <= i < |log| - 1 ==> log[i].outcome.SafeFailure?)
    && (forall i, j :: 0 <= i < j < |log| ==> log[i].request == log[j].request)
  }

  ghost predicate AtMostOnce(cfg: Config, s: State) {
    forall k :: OneExecution(cfg, Log(s, k))
  }

  ghost predicate AcksAreDurable(s: State) {
    forall k :: k in s.acked ==> k in s.disk
  }

  /** Between building its service and reserving, a request relies on its copy of the table. */
  predicate InWindow(r: Request) {
    !r.phase.Trying?
  }

  /** No request on this key is between building its service and reserving. */
  ghost predicate WindowFree(s: State, key: string) {
    forall q :: q in s.requests && s.requests[q].key == key ==> !InWindow(s.requests[q])
  }

  /** A request may be let in: the table it copies has the key already, or nobody is about to reserve it. */
  ghost predicate MayArrive(cfg: Config, s: State, key: string) {
    cfg.shared || key in s.disk || WindowFree(s, key)
  }

  /** Every arrival of the run passes the guard. */
  ghost predicate Disciplined(cfg: Config, s: State, steps: seq<Step>)
    decreases |steps|
  {
    steps != [] ==>
      && (steps[0].Arrive? ==> MayArrive(cfg, s, steps[0].key))
      && Disciplined(cfg, Next(cfg, s, steps[0]), steps[1..])
  }

  // ----- invariant, one key at a time ------------------------------------

  /** The key's log is one execution, and it is the execution of whoever holds the durable row. */
  ghost predicate LogOk(cfg: Config, s: State, k: string) {
    && OneExecution(cfg, Log(s, k))
    && (Log(s, k) != [] ==> k in s.disk && Log(s, k)[0].request == s.disk[k])
  }

  ghost predicate RequestOk(cfg: Config, s: State, q: nat, k: string)
    requires q in s.requests
  {
    var r := s.requests[q];
    && q < s.nextId
    && r.view <= s.disk.Keys
    && (r.key == k ==>
          && (InWindow(r) ==> cfg.shared || (k in s.disk ==> k in r.view))
          && (r.phase.Trying? ==>
                && k in s.disk && s.disk[k] == q
                && |Log(s, k)| == r.phase.made < cfg.maxAttempts
                && forall i :: 0 <= i < |Log(s, k)| ==> Log(s, k)[i].outcome.SafeFailure?))
  }

  /** In the rebuilt arrangement at most one request is about to reserve a key that is not durable yet. */
  ghost predicate WindowsApart(cfg: Config, s: State, k: string) {
    cfg.shared || k in s.disk ||
    forall p, q :: p in s.requests && q in s.requests && p != q && s.requests[p].key == s.requests[q].key == k
                   ==> !InWindow(s.requests[p]) || !InWindow(s.requests[q])
  }

  ghost predicate KeySafe(cfg: Config, s: State, k: string) {
    && cfg.maxAttempts >= 1
    && (cfg.shared ==> s.disk.Keys <= s.mem)
    && LogOk(cfg, s, k)
    && WindowsApart(cfg, s, k)
    && (forall q :: q in s.requests ==> RequestOk(cfg, s, q, k))
  }

  ghost predicate Inv(cfg: Config, s: State) {
    forall k :: KeySafe(cfg, s, k)
  }

  lemma FinishKeeps(cfg: Config, s: State, q: nat, ok: bool, k: string)
    requires KeySafe(cfg, s, k) && q in s.requests
    ensures KeySafe(cfg, Finish(s, q, ok), k)
  {
    var t := Finish(s, q, ok);
    forall p | p in t.requests ensures RequestOk(cfg, t, p, k) {
      assert RequestOk(cfg, s, p, k);
    }
  }

  lemma ArriveKeeps(cfg: Config, s: State, key: string, k: string)
    requires KeySafe(cfg, s, k) && (key == k ==> MayArrive(cfg, s, k))
    ensures KeySafe(cfg, Next(cfg, s, Arrive(key)), k)
  {
    var t := Next(cfg, s, Arrive(key));
    forall p | p in t.requests ensures RequestOk(cfg, t, p, k) {
      if p in s.requests {
        assert RequestOk(cfg, s, p, k);
      }
    }
  }

  lemma LookupKeeps(cfg: Config, s: State, q: nat, next: Phase, k: string)
    requires KeySafe(cfg, s, k) && q in s.requests && InWindow(s.requests[q]) && !next.Trying?
    ensures KeySafe(cfg, AfterLookup(cfg, s, q, next), k)
  {
    if s.requests[q].key in Seen(cfg, s, s.requests[q]) {
      FinishKeeps(cfg, s, q, true, k);
    } else {
      var t := AfterLookup(cfg, s, q, next);
      forall p | p in t.requests ensures RequestOk(cfg, t, p, k) {
        assert RequestOk(cfg, s, p, k);
      }
    }
  }

  function Claimed(s: State, q: nat): State
    requires q in s.requests
  {
    s.(mem := s.mem + {s.requests[q].key}, disk := s.disk[s.requests[q].key := q])
  }

  /** The reservation itself: the key is new on disk, so its log is empty and nobody else is trying it. */
  lemma ClaimKeeps(cfg: Config, s: State, q: nat, k: string)
    requires KeySafe(cfg, s, k) && q in s.requests && InWindow(s.requests[q])
    requires s.requests[q].key !in Seen(cfg, s, s.requests[q])
    ensures KeySafe(cfg, Advance(Claimed(s, q), q, Trying(0)), k)
  {
    var t := Advance(Claimed(s, q), q, Trying(0));
    assert RequestOk(cfg, s, q, k);
    assert s.requests[q].key == k ==> k !in s.disk;
    forall p | p in t.requests ensures RequestOk(cfg, t, p, k) {
      assert RequestOk(cfg, s, p, k);
    }
  }

  /** A reservation whose write failed: the key may be remembered, but nothing else moved. */
  lemma UnsavedKeeps(cfg: Config, s: State, q: nat, key: string, k: string)
    requires KeySafe(cfg, s, k) && q in s.requests
    ensures KeySafe(cfg, s.(mem := s.mem + {key}, unsaved := s.unsaved + {key}, requests := s.requests - {q}), k)
  {
    var t := s.(mem := s.mem + {key}, unsaved := s.unsaved + {key}, requests := s.requests - {q});
    forall p | p in t.requests ensures RequestOk(cfg, t, p, k) {
      assert RequestOk(cfg, s, p, k);
    }
  }

  lemma ReserveKeeps(cfg: Config, s: State, q: nat, stored: bool, admitted: bool, k: string)
    requires KeySafe(cfg, s, k) && q in s.requests && InWindow(s.requests[q])
    ensures KeySafe(cfg, AfterReserve(cfg, s, q, stored, admitted), k)
  {
    hide KeySafe;
    var r := s.requests[q];
    if r.key in Seen(cfg, s, r) {
      FinishKeeps(cfg, s, q, false, k);
    } else if !stored {
      UnsavedKeeps(cfg, s, q, r.key, k);
    } else {
      ClaimKeeps(cfg, s, q, k);
      if !admitted {
        FinishKeeps(cfg, Advance(Claimed(s, q), q, Trying(0)), q, false, k);
        assert Finish(Claimed(s, q), q, false) == Finish(Advance(Claimed(s, q), q, Trying(0)), q, false);
      }
    }
  }

  lemma CallKeeps(cfg: Config, s: State, q: nat, outcome: Outcome, confirmed: bool, k: string)
    requires KeySafe(cfg, s, k) && q in s.requests && s.requests[q].phase.Trying?
    ensures KeySafe(cfg, AfterCall(cfg, s, q, outcome, confirmed), k)
  {
    var t := AfterCall(cfg, s, q, outcome, confirmed);
    assert RequestOk(cfg, s, q, k);
    assert s.requests[q].key != k ==> Log(t, k) == Log(s, k);
    forall p | p in t.requests ensures RequestOk(cfg, t, p, k) {
      assert RequestOk(cfg, s, p, k);
    }
  }

  /** One step keeps a key safe; only an arrival on that very key has to pass the guard. */
  lemma NextKeepsKey(cfg: Config, s: State, step: Step, k: string)
    requires KeySafe(cfg, s, k)
    requires step == Arrive(k) ==> MayArrive(cfg, s, k)
    ensures KeySafe(cfg, Next(cfg, s, step), k)
  {
    match step
    case Arrive(key) => ArriveKeeps(cfg, s, key, k);
    case Lookup(q) =>
      if q in s.requests && s.requests[q].phase.Built? {
        LookupKeeps(cfg, s, q, Looked, k);
      }
    case LookupAgain(q) =>
      if q in s.requests && s.requests[q].phase.Looked? {
        LookupKeeps(cfg, s, q, Passed, k);
      }
    case Reserve(q, stored, admitted) =>
      if q in s.requests && s.requests[q].phase.Passed? {
        ReserveKeeps(cfg, s, q, stored, admitted, k);
      }
    case Call(q, outcome, confirmed) =>
      if q in s.requests && s.requests[q].phase.Trying? {
        CallKeeps(cfg, s, q, outcome, confirmed, k);
      }
    case Crash => SameKeys(cfg, s, Next(cfg, s, step), k);
    case Deliver(response) =>
      SameKeys(cfg, s, Next(cfg, s, step), k);
  }

  lemma SameKeys(cfg: Config, s: State, t: State, k: string)
    requires KeySafe(cfg, s, k)
    requires t.disk == s.disk && t.calls == s.calls && t.nextId == s.nextId && (t.mem == s.mem || t.mem == s.disk.Keys)
    requires t.requests == s.requests || t.requests == map[]
    ensures KeySafe(cfg, t, k)
  {
    forall p | p in t.requests ensures RequestOk(cfg, t, p, k) {
      assert RequestOk(cfg, s, p, k);
    }
  }

  /**
   End-to-end at-most-once: over every run, with any retries, losses and crashes, each
   key has at most one execution, bounded and never continued past an unsafe outcome,
   provided no rebuilt service starts while another is about to reserve the same new key.
   */
  lemma {:induction false} AtMostOnceOverRuns(cfg: Config, s: State, steps: seq<Step>)
    requires Inv(cfg, s) && Disciplined(cfg, s, steps)
    ensures Inv(cfg, Run(cfg, s, steps)) && AtMostOnce(cfg, Run(cfg, s, steps))
    decreases |steps|
  {
    if steps != [] {
      hide KeySafe, Next;
      forall k ensures KeySafe(cfg, Next(cfg, s, steps[0]), k) {
        NextKeepsKey(cfg, s, steps[0], k);
      }
      AtMostOnceOverRuns(cfg, Next(cfg, s, steps[0]), steps[1..]);
    } else {
      forall k ensures OneExecution(cfg, Log(s, k)) {
        assert KeySafe(cfg, s, k);
      }
    }
  }
}
