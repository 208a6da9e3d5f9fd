/**
 Exactly which guarantee each arrangement of the Farm gives on every run, disciplined
 or not: the shared outbox gives at-most-once, the rebuilt one gives durable acks.
 */
module SmsProtocolLimits {
  import opened SmsProtocol

  lemma {:induction false} RunSnoc(cfg: Config, s: State, steps: seq<Step>, last: Step)
    ensures Run(cfg, s, steps + [last]) == Next(cfg, Run(cfg, s, steps), last)
    decreases |steps|
  {
    hide Next;
    if steps == [] {
      assert steps + [last] == [last] && [last][1..] == [];
      assert Run(cfg, Next(cfg, s, last), []) == Next(cfg, s, last);
    } else {
      assert (steps + [last])[1..] == steps[1..] + [last];
      RunSnoc(cfg, Next(cfg, s, steps[0]), steps[1..], last);
    }
  }

  // ----- delivery --------------------------------------------------------

  /** The table a request reads when it arrives. */
  function KnownKeys(cfg: Config, s: State): set<string> {
    if cfg.shared then s.mem else s.disk.Keys
  }

  /**
   A request left alone: with a key the outbox knows it is told that all is well and nothing is sent; with a
   new one it sends its message, keeps it, and its sender hears of it.
   */
  lemma AloneIsServed(cfg: Config, s: State, k: string)
    requires cfg.maxAttempts >= 1
    ensures var q := s.nextId;
      if k in KnownKeys(cfg, s) then
        var t := Next(cfg, Next(cfg, s, Arrive(k)), Lookup(q));
        q !in t.requests && Response(q, k, true) in t.wire && t.calls == s.calls && t.disk == s.disk
      else
        var t := Run(cfg, s, [Arrive(k), Lookup(q), LookupAgain(q), Reserve(q, true, true)]);
        var u := Next(cfg, Next(cfg, t, Call(q, Accepted, true)), Deliver(Response(q, k, true)));
        && Log(u, k) == Log(s, k) + [Attempt(q, Accepted)]
        && k in u.disk && u.disk[k] == q && k in u.acked
  {
    var q := s.nextId;
    var s1 := Next(cfg, s, Arrive(k));
    assert s1.requests[q] == Request(k, s.disk.Keys, Built) && s1.mem == s.mem && s1.calls == s.calls;
    if k !in KnownKeys(cfg, s) {
      FourSteps(cfg, s, Arrive(k), Lookup(q), LookupAgain(q), Reserve(q, true, true));
      var s2 := Next(cfg, s1, Lookup(q));
      assert s2 == Advance(s1, q, Looked);
      var s3 := Next(cfg, s2, LookupAgain(q));
      assert s3 == Advance(s2, q, Passed);
      var t := Next(cfg, s3, Reserve(q, true, true));
      assert t.requests[q].phase == Trying(0) && t.requests[q].key == k;
      assert t.disk == s.disk[k := q] && t.calls == s.calls;
      assert Response(q, k, true) in Next(cfg, t, Call(q, Accepted, true)).wire;
    }
  }

  /** `n` calls of the request that all fail in a way that is safe to retry. */
  function Failures(q: nat, n: nat): seq<Step> {
    if n == 0 then [] else [Call(q, SafeFailure, false)] + Failures(q, n - 1)
  }

  lemma CallExact(cfg: Config, s: State, q: nat, outcome: Outcome, confirmed: bool)
    requires q in s.requests && s.requests[q].phase.Trying?
    ensures var t := Next(cfg, s, Call(q, outcome, confirmed)); var r := s.requests[q];
      && (q in t.requests <==> outcome == SafeFailure && r.phase.made + 1 < cfg.maxAttempts)
      && (q in t.requests ==> t.requests[q].phase == Trying(r.phase.made + 1))
      && (q !in t.requests ==> Response(q, r.key, outcome == Accepted && confirmed) in t.wire)
  {
  }

  /** A request goes on calling through failures that are safe to retry exactly as long as its attempts last. */
  lemma {:induction false} RetriesExactly(cfg: Config, s: State, q: nat, n: nat)
    requires q in s.requests && s.requests[q].phase.Trying? && s.requests[q].phase.made < cfg.maxAttempts
    requires s.requests[q].phase.made + n <= cfg.maxAttempts
    ensures var t := Run(cfg, s, Failures(q, n));
      && (q in t.requests <==> s.requests[q].phase.made + n < cfg.maxAttempts)
      && (q in t.requests ==> t.requests[q].phase == Trying(s.requests[q].phase.made + n))
    decreases n
  {
    if n > 0 {
      CallExact(cfg, s, q, SafeFailure, false);
      var t := Next(cfg, s, Call(q, SafeFailure, false));
      assert Failures(q, n)[1..] == Failures(q, n - 1);
      hide Next;
      if q in t.requests {
        RetriesExactly(cfg, t, q, n - 1);
      } else {
        assert n == 1;
      }
    }
  }

  // ----- at-most-once ----------------------------------------------------

  lemma {:induction false} SharedIsDisciplined(cfg: Config, s: State, steps: seq<Step>)
    requires cfg.shared
    ensures Disciplined(cfg, s, steps)
    decreases |steps|
  {
    if steps != [] {
      SharedIsDisciplined(cfg, Next(cfg, s, steps[0]), steps[1..]);
    }
  }

  lemma FourSteps(cfg: Config, s: State, a: Step, b: Step, c: Step, d: Step)
    ensures Run(cfg, s, [a, b, c, d]) == Next(cfg, Next(cfg, Next(cfg, Next(cfg, s, a), b), c), d)
  {
    hide Next;
    var steps := [a, b, c, d];
    assert Run(cfg, s, []) == s;
    RunSnoc(cfg, s, [], a);
    RunSnoc(cfg, s, [a], b);
    RunSnoc(cfg, s, [a, b], c);
    RunSnoc(cfg, s, [a, b, c], d);
    assert [] + [a] == [a] && [a] + [b] == [a, b] && [a, b] + [c] == [a, b, c] && [a, b, c] + [d] == steps;
  }

  lemma {:induction false} RunAppend(cfg: Config, s: State, a: seq<Step>, b: seq<Step>)
    ensures Run(cfg, s, a + b) == Run(cfg, Run(cfg, s, a), b)
    decreases |a|
  {
    hide Next;
    if a == [] {
      assert a + b == b;
    } else {
      assert (a + b)[1..] == a[1..] + b;
      RunAppend(cfg, Next(cfg, s, a[0]), a[1..], b);
    }
  }

  /** No request on this key arrives in these steps. */
  predicate NoArrivals(steps: seq<Step>, k: string) {
    Arrive(k) !in steps
  }

  lemma {:induction false} KeySafeWithoutArrivals(cfg: Config, s: State, steps: seq<Step>, k: string)
    requires KeySafe(cfg, s, k) && NoArrivals(steps, k)
    ensures OneExecution(cfg, Log(Run(cfg, s, steps), k))
    decreases |steps|
  {
    hide Next;
    if steps != [] {
      NextKeepsKey(cfg, s, steps[0], k);
      hide KeySafe;
      KeySafeWithoutArrivals(cfg, Next(cfg, s, steps[0]), steps[1..], k);
    }
  }

  /** A request that does not see its key passes both lookups, however far it has come already. */
  lemma PassesLookups(cfg: Config, s: State, q: nat)
    requires q in s.requests && InWindow(s.requests[q]) && s.requests[q].key !in Seen(cfg, s, s.requests[q])
    ensures Run(cfg, s, [Lookup(q), LookupAgain(q)]) == Advance(s, q, Passed)
  {
    var mid := Next(cfg, s, Lookup(q));
    var end := Next(cfg, mid, LookupAgain(q));
    assert [Lookup(q), LookupAgain(q)][1..] == [LookupAgain(q)] && [LookupAgain(q)][1..] == [];
    assert end == Advance(s, q, Passed);
    assert Run(cfg, end, []) == end;
    assert Run(cfg, mid, [LookupAgain(q)]) == end;
  }

  /** Two rebuilt services that both passed their lookups on a key nobody has called for: both reserve, both call. */
  lemma RacersSendTwice(cfg: Config, s: State, p: nat, q: nat, k: string)
    requires !cfg.shared && cfg.maxAttempts >= 1 && p != q && p in s.requests && q in s.requests && Log(s, k) == []
    requires s.requests[p].key == s.requests[q].key == k && k !in s.requests[p].view && k !in s.requests[q].view
    requires s.requests[p].phase.Passed? && s.requests[q].phase.Passed?
    ensures var steps := [Reserve(p, true, true), Reserve(q, true, true), Call(p, Accepted, true),
                          Call(q, Accepted, true)];
      !OneExecution(cfg, Log(Run(cfg, s, steps), k))
  {
    FourSteps(cfg, s, Reserve(p, true, true), Reserve(q, true, true), Call(p, Accepted, true), Call(q, Accepted, true));
    var s1 := Next(cfg, s, Reserve(p, true, true));
    assert s1.requests[q] == s.requests[q] && s1.requests[p] == s.requests[p].(phase := Trying(0));
    var s2 := Next(cfg, s1, Reserve(q, true, true));
    assert s2.requests[p].phase == Trying(0) && s2.requests[q].phase == Trying(0);
    assert Log(s2, k) == [];
    var s3 := Next(cfg, s2, Call(p, Accepted, true));
    assert Log(s3, k) == [Attempt(p, Accepted)];
    assert q in s3.requests && s3.requests[q].phase == Trying(0) && s3.requests[q].key == k;
    var s4 := Next(cfg, s3, Call(q, Accepted, true));
    assert Log(s4, k) == [Attempt(p, Accepted)] + [Attempt(q, Accepted)];
    assert Log(s4, k)[0] == Attempt(p, Accepted) && Log(s4, k)[1] == Attempt(q, Accepted);
  }

  /** An arrival that overlaps another request about to reserve the same new key can end in two executions. */
  lemma OverlapSendsTwice(cfg: Config, s: State, k: string) returns (steps: seq<Step>)
    requires KeySafe(cfg, s, k) && !MayArrive(cfg, s, k)
    ensures NoArrivals(steps, k) && !OneExecution(cfg, Log(Run(cfg, Next(cfg, s, Arrive(k)), steps), k))
  {
    var p: nat :| p in s.requests && s.requests[p].key == k && InWindow(s.requests[p]);
    assert RequestOk(cfg, s, p, k);
    var q := s.nextId;
    var t := Next(cfg, s, Arrive(k));
    assert Log(t, k) == Log(s, k) == [];
    PassesLookups(cfg, t, p);
    var t1 := Advance(t, p, Passed);
    PassesLookups(cfg, t1, q);
    var t2 := Advance(t1, q, Passed);
    assert Log(t2, k) == [];
    RacersSendTwice(cfg, t2, p, q, k);
    hide Next, KeySafe, OneExecution, Log;
    var race := [Reserve(p, true, true), Reserve(q, true, true), Call(p, Accepted, true), Call(q, Accepted, true)];
    var first, second := [Lookup(p), LookupAgain(p)], [Lookup(q), LookupAgain(q)];
    RunAppend(cfg, t, first, second);
    RunAppend(cfg, t, first + second, race);
    steps := first + second + race;
  }

  /**
   The guard is exact, in both arrangements and every state the invariant allows: after an arrival on a key
   no continuation without further arrivals on it executes twice, if and only if the outbox is shared, the key
   is durable already, or no other request is about to reserve it.
   */
  lemma ArrivalIsSafeExactly(cfg: Config, s: State, k: string)
    requires KeySafe(cfg, s, k)
    ensures (forall steps :: NoArrivals(steps, k) ==>
      OneExecution(cfg, Log(Run(cfg, Next(cfg, s, Arrive(k)), steps), k)))
      <==> MayArrive(cfg, s, k)
  {
    if MayArrive(cfg, s, k) {
      NextKeepsKey(cfg, s, Arrive(k), k);
      hide KeySafe, Next, OneExecution, NoArrivals;
      forall steps | NoArrivals(steps, k)
        ensures OneExecution(cfg, Log(Run(cfg, Next(cfg, s, Arrive(k)), steps), k))
      {
        KeySafeWithoutArrivals(cfg, Next(cfg, s, Arrive(k)), steps, k);
      }
    } else {
      var steps := OverlapSendsTwice(cfg, s, k);
    }
  }

  /** Every run from the start is at-most-once exactly when the requests share one outbox. */
  lemma AtMostOnceExactlyWhenShared(cfg: Config)
    requires cfg.maxAttempts >= 1
    ensures (forall steps :: AtMostOnce(cfg, Run(cfg, INITIAL, steps))) <==> cfg.shared
  {
    if cfg.shared {
      forall steps ensures AtMostOnce(cfg, Run(cfg, INITIAL, steps)) {
        SharedIsDisciplined(cfg, INITIAL, steps);
        AtMostOnceOverRuns(cfg, INITIAL, steps);
      }
    } else {
      var s := Next(cfg, INITIAL, Arrive("k"));
      assert s.requests[0].key == "k" && InWindow(s.requests[0]);
      NextKeepsKey(cfg, INITIAL, Arrive("k"), "k");
      var steps := OverlapSendsTwice(cfg, s, "k");
      hide Next, OneExecution, Log;
      assert Run(cfg, s, []) == s;
      assert [Arrive("k"), Arrive("k")][1..] == [Arrive("k")] && [Arrive("k")][1..] == [];
      assert Run(cfg, Next(cfg, s, Arrive("k")), []) == Next(cfg, s, Arrive("k"));
      assert Run(cfg, s, [Arrive("k")]) == Next(cfg, s, Arrive("k"));
      assert Run(cfg, INITIAL, [Arrive("k"), Arrive("k")]) == Next(cfg, s, Arrive("k"));
      RunAppend(cfg, INITIAL, [Arrive("k"), Arrive("k")], steps);
      assert !AtMostOnce(cfg, Run(cfg, INITIAL, [Arrive("k"), Arrive("k")] + steps));
    }
  }

  // ----- losing the race at the reservation itself -----------------------

  ghost predicate Unanswered(s: State, q: nat) {
    forall w :: w in s.wire ==> w.request != q
  }

  /** Ids grow, and only requests that are gone have been answered. */
  ghost predicate IdsOk(s: State) {
    && (forall q :: q in s.requests ==> q < s.nextId && Unanswered(s, q))
    && (forall w :: w in s.wire ==> w.request < s.nextId)
  }

  lemma {:induction false} RunKeepsIds(cfg: Config, s: State, steps: seq<Step>)
    requires IdsOk(s)
    ensures IdsOk(Run(cfg, s, steps))
    decreases |steps|
  {
    if steps != [] {
      NextKeepsIds(cfg, s, steps[0]);
      hide IdsOk, Next;
      RunKeepsIds(cfg, Next(cfg, s, steps[0]), steps[1..]);
    }
  }

  lemma NextKeepsIds(cfg: Config, s: State, step: Step)
    requires IdsOk(s)
    ensures IdsOk(Next(cfg, s, step))
  {
    var t := Next(cfg, s, step);
    forall q | q in t.requests ensures q < t.nextId && Unanswered(t, q) {
      assert q in s.requests ==> Unanswered(s, q);
    }
  }

  ghost predicate ReadyToReserve(s: State, q: nat) {
    q < s.nextId && q in s.requests && s.requests[q].phase.Passed? && Unanswered(s, q)
  }

  /** This step puts the key into the table: its request passed both lookups and does not see the key. */
  predicate Reserves(cfg: Config, s: State, step: Step, k: string) {
    && step.Reserve? && step.q in s.requests && s.requests[step.q].phase.Passed?
    && s.requests[step.q].key == k && k !in Seen(cfg, s, s.requests[step.q])
  }

  /** Some step of the run reserves the key. */
  predicate ReservedMeanwhile(cfg: Config, s: State, steps: seq<Step>, k: string)
    decreases |steps|
  {
    steps != [] && (Reserves(cfg, s, steps[0], k) || ReservedMeanwhile(cfg, Next(cfg, s, steps[0]), steps[1..], k))
  }

  /** The request has reserved, or is gone; either way it never stands before its reservation again. */
  predicate Past(s: State, q: nat) {
    q < s.nextId && (q !in s.requests || s.requests[q].phase.Trying?)
  }

  lemma {:induction false} PastStays(cfg: Config, s: State, steps: seq<Step>, q: nat)
    requires Past(s, q)
    ensures Past(Run(cfg, s, steps), q)
    decreases |steps|
  {
    if steps != [] {
      PastStays(cfg, Next(cfg, s, steps[0]), steps[1..], q);
    }
  }

  /** What one step does to a request that is about to reserve. */
  lemma WaitingStep(cfg: Config, s: State, step: Step, q: nat)
    requires ReadyToReserve(s, q)
    ensures var t := Next(cfg, s, step); var r := s.requests[q];
      || Past(t, q)
      || (ReadyToReserve(t, q) && t.requests[q] == r
          && (r.key in Seen(cfg, t, r) <==> r.key in Seen(cfg, s, r) || (cfg.shared && Reserves(cfg, s, step, r.key))))
  {
    var t := Next(cfg, s, step);
    if q in t.requests && !Past(t, q) {
      assert Unanswered(t, q);
    }
  }

  lemma {:induction false} SeenMeanwhile(cfg: Config, s: State, steps: seq<Step>, q: nat)
    requires ReadyToReserve(s, q) && ReadyToReserve(Run(cfg, s, steps), q)
    ensures var u := Run(cfg, s, steps); var r := s.requests[q];
      && u.requests[q] == r
      && (r.key in Seen(cfg, u, r)
        <==> r.key in Seen(cfg, s, r) || (cfg.shared && ReservedMeanwhile(cfg, s, steps, r.key)))
    decreases |steps|
  {
    hide Next, Seen, Reserves;
    if steps != [] {
      var t := Next(cfg, s, steps[0]);
      WaitingStep(cfg, s, steps[0], q);
      if Past(t, q) {
        PastStays(cfg, t, steps[1..], q);
        assert false;
      }
      SeenMeanwhile(cfg, t, steps[1..], q);
    }
  }

  /** A request that sees its key is answered not-ok by one step only: its own reservation, past both lookups. */
  lemma NotOkOnSeenKey(cfg: Config, s: State, step: Step, q: nat)
    requires q in s.requests && Unanswered(s, q) && InWindow(s.requests[q])
    requires s.requests[q].key in Seen(cfg, s, s.requests[q])
    ensures Response(q, s.requests[q].key, false) in Next(cfg, s, step).wire
      <==> step.Reserve? && step.q == q && s.requests[q].phase.Passed?
  {
  }

  /**
   After any history, a request that looked twice and did not see its key, and whose reservation every gate would
   admit and the store accept, is nonetheless answered "failed" if and only if the outbox is shared and another
   request reserved the key in between.
   */
  lemma RefusedAtReserveExactly(cfg: Config, past: seq<Step>, q: nat, steps: seq<Step>)
    requires var s := Run(cfg, INITIAL, past);
      q in s.requests && s.requests[q].phase.Looked? && s.requests[q].key !in Seen(cfg, s, s.requests[q])
    requires var u := Run(cfg, Next(cfg, Run(cfg, INITIAL, past), LookupAgain(q)), steps);
      q in u.requests && u.requests[q].phase.Passed?
    ensures var s := Run(cfg, INITIAL, past); var k := s.requests[q].key;
      var t := Next(cfg, s, LookupAgain(q));
      Response(q, k, false) in Next(cfg, Run(cfg, t, steps), Reserve(q, true, true)).wire
      <==> cfg.shared && ReservedMeanwhile(cfg, t, steps, k)
  {
    var s := Run(cfg, INITIAL, past);
    RunKeepsIds(cfg, INITIAL, past);
    var t := Next(cfg, s, LookupAgain(q));
    NextKeepsIds(cfg, s, LookupAgain(q));
    RunKeepsIds(cfg, t, steps);
    SeenMeanwhile(cfg, t, steps, q);
    hide Run, ReservedMeanwhile;
    assert t.requests[q] == s.requests[q].(phase := Passed);
  }

  /** The message went out under this key, and a request for it is told that it failed. */
  ghost predicate ToldFailed(s: State, q: nat, k: string) {
    && k in s.disk && Response(q, k, false) in s.wire
    && Log(s, k) != [] && forall i :: 0 <= i < |Log(s, k)| ==>
      Log(s, k)[i].outcome.Accepted? && Log(s, k)[i].request != q
  }

  /** Two requests past their lookups in the shared arrangement: one sends, the other is told that it failed. */
  lemma LoserIsToldFailed(cfg: Config, s: State, p: nat, q: nat, k: string)
    requires cfg.shared && cfg.maxAttempts >= 1 && p != q && p in s.requests && q in s.requests && Log(s, k) == []
    requires s.requests[p].key == s.requests[q].key == k && k !in s.mem
    requires s.requests[p].phase.Passed? && s.requests[q].phase.Passed?
    ensures var race := [Reserve(p, true, true), Reserve(q, true, true), Call(p, Accepted, true),
                         Deliver(Response(p, k, true))];
      ToldFailed(Run(cfg, s, race), q, k)
  {
    FourSteps(cfg, s, Reserve(p, true, true), Reserve(q, true, true), Call(p, Accepted, true),
              Deliver(Response(p, k, true)));
    var s1 := Next(cfg, s, Reserve(p, true, true));
    var s2 := Next(cfg, s1, Reserve(q, true, true));
    assert Response(q, k, false) in s2.wire && s2.requests[p].phase == Trying(0);
    assert Log(s2, k) == [];
    var s3 := Next(cfg, s2, Call(p, Accepted, true));
    assert Log(s3, k) == [Attempt(p, Accepted)];
  }

  /** Such a run from the start. */
  lemma RaceFromTheStart(cfg: Config) returns (steps: seq<Step>)
    requires cfg.shared && cfg.maxAttempts >= 1
    ensures ToldFailed(Run(cfg, INITIAL, steps), 1, "k")
  {
    var s1 := Next(cfg, INITIAL, Arrive("k"));
    var s2 := Next(cfg, s1, Arrive("k"));
    assert s2.requests[0].key == "k" && s2.requests[1].key == "k";
    assert s2.requests[0].phase.Built? && s2.requests[1].phase.Built?;
    assert s2.mem == {} && s2.calls == map[];
    PassesLookups(cfg, s2, 0);
    var s3 := Advance(s2, 0, Passed);
    PassesLookups(cfg, s3, 1);
    var s4 := Advance(s3, 1, Passed);
    LoserIsToldFailed(cfg, s4, 0, 1, "k");
    var arrivals := [Arrive("k"), Arrive("k")];
    hide Next, ToldFailed;
    assert arrivals[1..] == [Arrive("k")] && [Arrive("k")][1..] == [];
    assert Run(cfg, s2, []) == s2;
    assert Run(cfg, s1, [Arrive("k")]) == s2;
    assert Run(cfg, INITIAL, arrivals) == s2;
    var race := [Reserve(0, true, true), Reserve(1, true, true), Call(0, Accepted, true),
                 Deliver(Response(0, "k", true))];
    var first, second := [Lookup(0), LookupAgain(0)], [Lookup(1), LookupAgain(1)];
    RunAppend(cfg, INITIAL, arrivals, first);
    RunAppend(cfg, INITIAL, arrivals + first, second);
    RunAppend(cfg, INITIAL, arrivals + first + second, race);
    steps := arrivals + first + second + race;
  }

  // ----- what an ok answer means -----------------------------------------

  /** Keys a positive answer may name: durable ones, and in the shared arrangement also unsaved ones. */
  function Answerable(cfg: Config, s: State): set<string> {
    s.disk.Keys + (if cfg.shared then s.unsaved else {})
  }

  ghost predicate AckInv(cfg: Config, s: State) {
    && (cfg.shared ==> s.mem <= Answerable(cfg, s))
    && s.acked <= Answerable(cfg, s)
    && (forall w :: w in s.wire && w.ok ==> w.key in Answerable(cfg, s))
    && (forall q :: q in s.requests ==> AckRequestOk(cfg, s, q))
  }

  ghost predicate AckRequestOk(cfg: Config, s: State, q: nat)
    requires q in s.requests
  {
    && s.requests[q].view <= s.disk.Keys
    && (s.requests[q].phase.Trying? ==> s.requests[q].key in s.disk)
  }

  lemma AckReserveKeeps(cfg: Config, s: State, q: nat, stored: bool, admitted: bool)
    requires AckInv(cfg, s) && q in s.requests
    ensures AckInv(cfg, AfterReserve(cfg, s, q, stored, admitted))
  {
    var t := AfterReserve(cfg, s, q, stored, admitted);
    forall p | p in t.requests ensures AckRequestOk(cfg, t, p) {
      assert AckRequestOk(cfg, s, p);
    }
  }

  lemma AckCallKeeps(cfg: Config, s: State, q: nat, outcome: Outcome, confirmed: bool)
    requires AckInv(cfg, s) && q in s.requests && s.requests[q].phase.Trying?
    ensures AckInv(cfg, AfterCall(cfg, s, q, outcome, confirmed))
  {
    var t := AfterCall(cfg, s, q, outcome, confirmed);
    assert AckRequestOk(cfg, s, q);
    forall p | p in t.requests ensures AckRequestOk(cfg, t, p) {
      assert AckRequestOk(cfg, s, p);
    }
  }

  lemma AckLookupKeeps(cfg: Config, s: State, q: nat, next: Phase)
    requires AckInv(cfg, s) && q in s.requests && !next.Trying?
    ensures AckInv(cfg, AfterLookup(cfg, s, q, next))
  {
    var t := AfterLookup(cfg, s, q, next);
    assert AckRequestOk(cfg, s, q);
    forall p | p in t.requests ensures AckRequestOk(cfg, t, p) {
      assert AckRequestOk(cfg, s, p);
    }
  }

  lemma AckNextKeeps(cfg: Config, s: State, step: Step)
    requires AckInv(cfg, s)
    ensures AckInv(cfg, Next(cfg, s, step))
  {
    var t := Next(cfg, s, step);
    match step
    case Lookup(q) =>
      if q in s.requests && s.requests[q].phase.Built? {
        AckLookupKeeps(cfg, s, q, Looked);
      }
    case LookupAgain(q) =>
      if q in s.requests && s.requests[q].phase.Looked? {
        AckLookupKeeps(cfg, s, q, Passed);
      }
    case Reserve(q, stored, admitted) =>
      if q in s.requests && s.requests[q].phase.Passed? {
        AckReserveKeeps(cfg, s, q, stored, admitted);
      }
    case Call(q, outcome, confirmed) =>
      if q in s.requests && s.requests[q].phase.Trying? {
        AckCallKeeps(cfg, s, q, outcome, confirmed);
      }
    case Crash =>
    case Deliver(response) =>
    case Arrive(key) =>
      forall p | p in t.requests ensures AckRequestOk(cfg, t, p) {
        if p in s.requests {
          assert AckRequestOk(cfg, s, p);
        }
      }
  }

  /** Over every run a positive answer names a key the outbox holds durably, or one whose write failed. */
  lemma {:induction false} AcksOverRuns(cfg: Config, s: State, steps: seq<Step>)
    requires AckInv(cfg, s)
    ensures AckInv(cfg, Run(cfg, s, steps))
    ensures Run(cfg, s, steps).unsaved == {} ==> AcksAreDurable(Run(cfg, s, steps))
    decreases |steps|
  {
    if steps != [] {
      AckNextKeeps(cfg, s, steps[0]);
      AcksOverRuns(cfg, Next(cfg, s, steps[0]), steps[1..]);
    }
  }

  /** A reservation that fails to reach the store. */
  lemma UnsavedReservation(cfg: Config) returns (steps: seq<Step>)
    requires cfg.shared
    ensures Run(cfg, INITIAL, steps) == INITIAL.(mem := {"k"}, unsaved := {"k"}, nextId := 1)
  {
    var r := Request("k", {}, Passed);
    var s1 := INITIAL.(requests := map[0 := r.(phase := Built)], nextId := 1);
    var s2 := INITIAL.(requests := map[0 := r.(phase := Looked)], nextId := 1);
    var s3 := INITIAL.(requests := map[0 := r], nextId := 1);
    assert INITIAL.disk.Keys == {};
    assert Next(cfg, INITIAL, Arrive("k")) == s1;
    assert Next(cfg, s1, Lookup(0)) == s2;
    assert Next(cfg, s2, LookupAgain(0)) == s3;
    FourSteps(cfg, INITIAL, Arrive("k"), Lookup(0), LookupAgain(0), Reserve(0, false, true));
    steps := [Arrive("k"), Lookup(0), LookupAgain(0), Reserve(0, false, true)];
  }

  /** A retry of the unsaved key is told that it is a duplicate; then the process ends. */
  lemma RetryIsAcked(cfg: Config, s: State) returns (steps: seq<Step>)
    requires cfg.shared && s == INITIAL.(mem := {"k"}, unsaved := {"k"}, nextId := 1)
    ensures !AcksAreDurable(Run(cfg, s, steps))
  {
    var s1 := Next(cfg, s, Arrive("k"));
    var s2 := Next(cfg, s1, Lookup(1));
    assert Response(1, "k", true) in s2.wire;
    var s3 := Next(cfg, s2, Deliver(Response(1, "k", true)));
    assert "k" in s3.acked && "k" !in s3.disk;
    FourSteps(cfg, s, Arrive("k"), Lookup(1), Deliver(Response(1, "k", true)), Crash);
    steps := [Arrive("k"), Lookup(1), Deliver(Response(1, "k", true)), Crash];
  }

  lemma UnsavedKeyIsAcked(cfg: Config)
    requires cfg.shared
    ensures exists steps :: !AcksAreDurable(Run(cfg, INITIAL, steps))
  {
    hide Next, AcksAreDurable;
    var first := UnsavedReservation(cfg);
    var second := RetryIsAcked(cfg, Run(cfg, INITIAL, first));
    RunAppend(cfg, INITIAL, first, second);
  }

  /** With store failures possible, every ok answer names a durable key exactly when services are rebuilt. */
  lemma AcksDurableExactlyWhenRebuilt(cfg: Config)
    ensures (forall steps :: AcksAreDurable(Run(cfg, INITIAL, steps))) <==> !cfg.shared
  {
    hide Next;
    if cfg.shared {
      UnsavedKeyIsAcked(cfg);
    } else {
      forall steps ensures AcksAreDurable(Run(cfg, INITIAL, steps)) {
        AcksOverRuns(cfg, INITIAL, steps);
      }
    }
  }
}
