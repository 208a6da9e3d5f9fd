/**
 The provider ids of the durable SMS table. A store write replaces the whole row of its key, so with
 rebuilt services a row written from a copy taken earlier can wipe out an accepted message's provider id.
 */
module SmsProviderIds {
  import opened SmsProtocol
  import opened SmsProtocolLimits

  /** A step, and whether the store accepts what the outcome of a provider call makes the request write. */
  datatype Write = Write(step: Step, saved: bool)

  /**
   `ids` maps the key of each durable row that has a provider id to the request whose accepted call gave it.
   A reservation writes a fresh row; a request that gives up writes its own record, which has no id, and in
   the shared arrangement that record is the one every request patches.
   */
  function IdsAfter(cfg: Config, s: State, ids: map<string, nat>, w: Write): map<string, nat> {
    match w.step
    case Reserve(q, stored, _) =>
      if q in s.requests && stored && Reserves(cfg, s, w.step, s.requests[q].key) then ids - {s.requests[q].key}
      else ids
    case Call(q, outcome, _) =>
      if q !in s.requests || !s.requests[q].phase.Trying? || !w.saved then ids
      else if outcome.Accepted? then ids[s.requests[q].key := q]
      else if q in Next(cfg, s, w.step).requests || cfg.shared then ids
      else ids - {s.requests[q].key}
    case _ => ids
  }

  /** Along these writes the key's provider id, once there, is never lost or replaced. */
  ghost predicate Keeps(cfg: Config, s: State, ids: map<string, nat>, writes: seq<Write>, k: string)
    decreases |writes|
  {
    writes != [] ==>
      var after := IdsAfter(cfg, s, ids, writes[0]);
      && (k in ids ==> k in after && after[k] == ids[k])
      && Keeps(cfg, Next(cfg, s, writes[0].step), after, writes[1..], k)
  }

  ghost predicate NoneArrives(writes: seq<Write>, k: string) {
    forall i :: 0 <= i < |writes| ==> writes[i].step != Arrive(k)
  }

  /** A provider id belongs to the request that holds the row, and that request's last call was accepted. */
  ghost predicate IdOk(s: State, ids: map<string, nat>, k: string) {
    k in ids ==>
      && k in s.disk && ids[k] == s.disk[k]
      && Log(s, k) != [] && Log(s, k)[|Log(s, k)| - 1].outcome.Accepted?
  }

  lemma RequestSafe(cfg: Config, s: State, q: nat, k: string)
    requires KeySafe(cfg, s, k) && q in s.requests && s.requests[q].key == k
    ensures RequestOk(cfg, s, q, k) && (cfg.shared ==> s.disk.Keys <= s.mem)
  {
  }

  /** One write keeps the id of a safe key; only an arrival on that very key has to pass the guard. */
  lemma WriteKeepsId(cfg: Config, s: State, ids: map<string, nat>, w: Write, k: string)
    requires KeySafe(cfg, s, k) && IdOk(s, ids, k)
    ensures IdOk(Next(cfg, s, w.step), IdsAfter(cfg, s, ids, w), k)
    ensures k in ids ==> k in IdsAfter(cfg, s, ids, w) && IdsAfter(cfg, s, ids, w)[k] == ids[k]
  {
    match w.step
    case Reserve(q, _, _) =>
      if q in s.requests && s.requests[q].key == k {
        RequestSafe(cfg, s, q, k);
      }
      hide KeySafe, RequestOk;
    case Call(q, outcome, _) =>
      if q in s.requests && s.requests[q].key == k {
        RequestSafe(cfg, s, q, k);
      }
      hide KeySafe;
    case _ =>
  }

  /** Every arrival on the key passes the guard. */
  ghost predicate Guarded(cfg: Config, s: State, writes: seq<Write>, k: string)
    decreases |writes|
  {
    writes != [] ==>
      && (writes[0].step == Arrive(k) ==> MayArrive(cfg, s, k))
      && Guarded(cfg, Next(cfg, s, writes[0].step), writes[1..], k)
  }

  /** Over every run whose arrivals on the key pass the guard, in both arrangements, the key's provider id is kept. */
  lemma {:induction false} IdsKeptOverRuns(cfg: Config, s: State, ids: map<string, nat>, writes: seq<Write>, k: string)
    requires KeySafe(cfg, s, k) && IdOk(s, ids, k) && Guarded(cfg, s, writes, k)
    ensures Keeps(cfg, s, ids, writes, k)
    decreases |writes|
  {
    hide KeySafe, IdOk, IdsAfter, Next, MayArrive;
    if writes != [] {
      WriteKeepsId(cfg, s, ids, writes[0], k);
      NextKeepsKey(cfg, s, writes[0].step, k);
      IdsKeptOverRuns(cfg, Next(cfg, s, writes[0].step), IdsAfter(cfg, s, ids, writes[0]), writes[1..], k);
    }
  }

  lemma {:induction false} NoneIsGuarded(cfg: Config, s: State, writes: seq<Write>, k: string)
    requires NoneArrives(writes, k)
    ensures Guarded(cfg, s, writes, k)
    decreases |writes|
  {
    hide Next, MayArrive;
    if writes != [] {
      NoneIsGuarded(cfg, Next(cfg, s, writes[0].step), writes[1..], k);
    }
  }

  // ----- two copies ------------------------------------------------------

  /** Two rebuilt services that both passed their lookups: the first is accepted, the second reserves over its row. */
  lemma OverwriteLoses(cfg: Config, s: State, ids: map<string, nat>, p: nat, q: nat, k: string)
    requires !cfg.shared && p != q && p in s.requests && q in s.requests
    requires s.requests[p].key == s.requests[q].key == k && k !in s.requests[p].view && k !in s.requests[q].view
    requires s.requests[p].phase.Passed? && s.requests[q].phase.Passed?
    ensures !Keeps(cfg, s, ids, Overwrite(p, q), k)
  {
    var ws := Overwrite(p, q);
    assert ws[1..] == [ws[1], ws[2]] && ws[1..][1..] == [ws[2]];
    var s1 := Next(cfg, s, ws[0].step);
    assert s1.requests[p] == s.requests[p].(phase := Trying(0)) && s1.requests[q] == s.requests[q];
    var ids1 := IdsAfter(cfg, s, ids, ws[0]);
    var s2 := Next(cfg, s1, ws[1].step);
    assert s2.requests[q] == s.requests[q];
    var ids2 := IdsAfter(cfg, s1, ids1, ws[1]);
    assert k in ids2 && k !in IdsAfter(cfg, s2, ids2, ws[2]);
    hide Next, IdsAfter;
    assert !Keeps(cfg, s2, ids2, [ws[2]], k);
    assert !Keeps(cfg, s1, ids1, ws[1..], k);
  }

  function Overwrite(p: nat, q: nat): seq<Write> {
    [Write(Reserve(p, true, true), true), Write(Call(p, Accepted, true), true), Write(Reserve(q, true, true), true)]
  }

  /** What is lost after a request's two lookups is lost before them. */
  lemma LookupsFirst(cfg: Config, s: State, ids: map<string, nat>, q: nat, writes: seq<Write>, k: string)
    requires q in s.requests && InWindow(s.requests[q]) && s.requests[q].key !in Seen(cfg, s, s.requests[q])
    requires !Keeps(cfg, Advance(s, q, Passed), ids, writes, k)
    ensures !Keeps(cfg, s, ids, [Write(Lookup(q), true), Write(LookupAgain(q), true)] + writes, k)
  {
    var w0, w1 := Write(Lookup(q), true), Write(LookupAgain(q), true);
    var all := [w0, w1] + writes;
    var mid := Next(cfg, s, w0.step);
    assert Next(cfg, mid, w1.step) == Advance(s, q, Passed);
    assert all[1..] == [w1] + writes && all[1..][1..] == writes;
    hide Next, Advance;
    assert !Keeps(cfg, mid, ids, all[1..], k);
  }

  lemma OverlapLoses(cfg: Config, s: State, ids: map<string, nat>, k: string) returns (writes: seq<Write>)
    requires KeySafe(cfg, s, k) && !MayArrive(cfg, s, k)
    ensures NoneArrives(writes, k) && !Keeps(cfg, Next(cfg, s, Arrive(k)), ids, writes, k)
  {
    var p: nat :| p in s.requests && s.requests[p].key == k && InWindow(s.requests[p]);
    assert RequestOk(cfg, s, p, k);
    hide KeySafe;
    var q := s.nextId;
    var t := Next(cfg, s, Arrive(k));
    var t1 := Advance(t, p, Passed);
    var t2 := Advance(t1, q, Passed);
    OverwriteLoses(cfg, t2, ids, p, q, k);
    hide Keeps;
    LookupsFirst(cfg, t1, ids, q, Overwrite(p, q), k);
    var tail := [Write(Lookup(q), true), Write(LookupAgain(q), true)] + Overwrite(p, q);
    LookupsFirst(cfg, t, ids, p, tail, k);
    writes := [Write(Lookup(p), true), Write(LookupAgain(p), true)] + tail;
  }

  /**
   With any number of copies of the table: after an arrival on a key, no continuation without further arrivals on
   it ever loses or replaces the key's provider id, if and only if the arrival passed the guard.
   */
  lemma ProviderIdsKeptExactly(cfg: Config, s: State, ids: map<string, nat>, k: string)
    requires KeySafe(cfg, s, k) && IdOk(s, ids, k)
    ensures (forall writes :: NoneArrives(writes, k) ==> Keeps(cfg, Next(cfg, s, Arrive(k)), ids, writes, k))
      <==> MayArrive(cfg, s, k)
  {
    if MayArrive(cfg, s, k) {
      NextKeepsKey(cfg, s, Arrive(k), k);
      WriteKeepsId(cfg, s, ids, Write(Arrive(k), true), k);
      hide KeySafe, IdOk, Next, NoneArrives, Keeps, Guarded;
      forall writes | NoneArrives(writes, k) ensures Keeps(cfg, Next(cfg, s, Arrive(k)), ids, writes, k) {
        NoneIsGuarded(cfg, Next(cfg, s, Arrive(k)), writes, k);
        IdsKeptOverRuns(cfg, Next(cfg, s, Arrive(k)), ids, writes, k);
      }
    } else {
      var writes := OverlapLoses(cfg, s, ids, k);
    }
  }
}
