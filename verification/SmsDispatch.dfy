/**
 Slot-scoped SMS dispatch on the Farm: the guard chain, the reservation, the
 bounded retry loop, delivery polling and the resume after a restart.
 */
module SmsDispatch {
  import opened Basics
  import opened SmsOutboxes

  datatype Outcome = Success | Failure | UnknownOutcome

  datatype SendResult = SendResult(
    success: bool, providerId: Option<string>, error: Option<string>, outcome: Outcome,
    simSlot: Option<int>, sentDate: Option<string>, errorCode: Option<string>)

  datatype Call = Call(to: string, text: string, device: string, simSlot: Option<int>, reply: SendResult)

  // ----- which failures may be retried -----------------------------------

  /**
   The message cannot have reached the provider: a transport error, by its
   first words, that nowhere speaks of a timeout, in whatever case.
   */
  ghost predicate NeverSubmitted(r: SendResult) {
    && !r.success && r.outcome != UnknownOutcome && r.error.Some? && "request_error:" <= r.error.value
    && !exists i :: SaysAt(r.error.value, "timeout", i)
  }

  lemma SafeToRetryMeaning(r: SendResult)
    ensures SafeToRetry(r) <==> NeverSubmitted(r)
  {
    if r.error.Some? {
      ContainsInAnyCase(r.error.value, "timeout");
    }
  }

  lemma SuccessIsLast(r: SendResult)
    ensures r.success ==> !NeverSubmitted(r)
  {
  }

  /** Only a transport failure before submission, and never a timeout, may be tried again. */
  predicate SafeToRetry(r: SendResult) {
    && !r.success && r.outcome != UnknownOutcome && HasText(r.error)
    && StartsWith(r.error.value, "request_error:") && !Contains(Lower(r.error.value), "timeout")
  }

  function Replies(calls: seq<Call>): seq<SendResult> {
    seq(|calls|, i requires 0 <= i < |calls| => calls[i].reply)
  }

  /** At most `max` attempts, and none after a success or an unsafe outcome. */
  ghost predicate AttemptsOk(replies: seq<SendResult>, max: int) {
    |replies| <= max && forall i :: 0 <= i < |replies| - 1 ==> SafeToRetry(replies[i])
  }

  /** The provider; `replies(n)` is its answer to the n-th send. */
  class Gateway {
    const replies: nat -> SendResult
    var calls: seq<Call>

    constructor (replies: nat -> SendResult)
      ensures this.replies == replies && calls == []
    {
      this.replies := replies;
      calls := [];
    }

    method Send(to: string, text: string, device: string, simSlot: Option<int>) returns (r: SendResult)
      modifies this
      ensures r == replies(|old(calls)|)
      ensures calls == old(calls) + [Call(to, text, device, simSlot, r)]
    {
      r := replies(|calls|);
      calls := calls + [Call(to, text, device, simSlot, r)];
    }
  }

  // ----- delivery polling ------------------------------------------------

  datatype SnapStatus = SnapFailed | SnapSentOrPending | SnapOther

  datatype Snap = Snap(
    sentDate: Option<string>, deliveredDate: Option<string>, errorCode: Option<string>,
    deviceId: Option<string>, simSlot: Option<int>, delivered: bool, status: SnapStatus)

  /** What the poller reports for one provider id: each poll, then the verdict, or None if it raised. */
  datatype PollTrace = PollTrace(polls: seq<Option<Snap>>, verdict: Option<Verdict>)

  datatype Verdict = VDelivered | VFailed | VTimeout

  function VerdictStatus(v: Verdict): Status {
    match v case VDelivered => Delivered case VFailed => Failed case VTimeout => TimedOut
  }

  function VerdictFinal(v: Verdict): Final {
    match v case VDelivered => FinalDelivered case VFailed => FinalFailed case VTimeout => FinalTimeout
  }

  function SnapPatch(status: Status, final: Option<Final>, snap: Option<Snap>, now: real): Patch {
    var base := StatusOnly(status).(final := final, lastPolledAt := Some(now));
    match snap
    case None => base
    case Some(s) =>
      base.(sentDate := s.sentDate, deliveredDate := s.deliveredDate, errorCode := s.errorCode,
            deviceId := s.deviceId, simSlot := s.simSlot)
  }

  /** The update made after each poll. */
  function OnPollPatch(current: Record, snap: Option<Snap>, now: real): Patch {
    match snap
    case None => SnapPatch(current.status, current.final, snap, now)
    case Some(s) =>
      if s.delivered then SnapPatch(Delivered, Some(FinalDelivered), snap, now)
      else if s.status.SnapFailed? then SnapPatch(Failed, Some(FinalFailed), snap, now)
      else if s.status.SnapSentOrPending? then SnapPatch(Sent, Some(FinalSent), snap, now)
      else SnapPatch(current.status, current.final, snap, now)
  }

  function LastSnap(polls: seq<Option<Snap>>): Option<Snap> {
    if polls == [] then None else polls[|polls| - 1]
  }

  function VerdictPatch(polls: seq<Option<Snap>>, v: Verdict, now: real): Patch {
    SnapPatch(VerdictStatus(v), Some(VerdictFinal(v)), LastSnap(polls), now).(
      error := if v.VTimeout? then Some("delivery poll timed out before confirmation") else None)
  }

  /** What one poll leaves of a record: the state the snapshot names, if it names one, and what else it brings. */
  lemma PollExact(r: Record, snap: Option<Snap>, now: real)
    ensures var t := Patched(r, OnPollPatch(r, snap, now), now);
      && t.providerId == r.providerId && t.lastPolledAt == Some(now) && t.error == r.error
      && (if snap.None? || (!snap.value.delivered && snap.value.status.SnapOther?) then
            t.status == r.status && t.final == r.final
          else if snap.value.delivered then t.status == Delivered && t.final == Some(FinalDelivered)
          else if snap.value.status.SnapFailed? then t.status == Failed && t.final == Some(FinalFailed)
          else t.status == Sent && t.final == Some(FinalSent))
      && (snap.None? ==> t.sentDate == r.sentDate && t.deliveredDate == r.deliveredDate && t.errorCode == r.errorCode
                         && t.deviceId == r.deviceId && t.simSlot == r.simSlot)
      && (snap.Some? ==> Brings(r, snap.value, t))
  {
  }

  /** The record has what the snapshot says, and keeps what it does not say. */
  ghost predicate Brings(r: Record, snap: Snap, t: Record) {
    && TextOver(r.sentDate, snap.sentDate, t.sentDate) && TextOver(r.deliveredDate, snap.deliveredDate, t.deliveredDate)
    && TextOver(r.errorCode, snap.errorCode, t.errorCode) && TextOver(r.deviceId, snap.deviceId, t.deviceId)
    && Over(r.simSlot, snap.simSlot, t.simSlot)
  }

  /** The record after these polls, oldest first. */
  function Polled(r: Record, polls: seq<Option<Snap>>, now: real): Record {
    if polls == [] then r
    else
      var before := Polled(r, polls[..|polls| - 1], now);
      Patched(before, OnPollPatch(before, polls[|polls| - 1], now), now)
  }

  ghost predicate EndsAs(v: Verdict, r: Record) {
    match v
    case VDelivered => r.status == Delivered && r.final == Some(FinalDelivered)
    case VFailed => r.status == Failed && r.final == Some(FinalFailed)
    case VTimeout =>
      && r.status == TimedOut && r.final == Some(FinalTimeout)
      && r.error == Some("delivery poll timed out before confirmation")
  }

  /** The verdict is the last word, on top of what the polls brought. */
  lemma VerdictExact(r: Record, polls: seq<Option<Snap>>, v: Verdict, now: real)
    ensures var t := Patched(r, VerdictPatch(polls, v, now), now);
      && t.providerId == r.providerId && t.lastPolledAt == Some(now) && EndsAs(v, t)
      && (!v.VTimeout? ==> t.error == r.error)
      && (polls != [] && polls[|polls| - 1].Some? ==> Brings(r, polls[|polls| - 1].value, t))
  {
  }

  // ----- the service -----------------------------------------------------

  datatype SlotLock = Free | Busy | Unmapped

  /** The request's surroundings: identity and isolation guards, the slot lock, the clock. */
  datatype Env = Env(guard: Option<string>, lock: SlotLock, now: real)

  datatype Reply = Answer(result: SendResult) | Raised

  function Refusal(error: string): SendResult {
    SendResult(false, None, Some(error), Failure, None, None, None)
  }

  /** An accepted message whose delivery was not confirmed. */
  function Unhappy(accepted: SendResult, error: string, outcome: Outcome): SendResult {
    SendResult(false, accepted.providerId, Some(error), outcome, None, None, None)
  }

  function StatusOfResult(r: SendResult): Status {
    if r.success && HasText(r.providerId) then Confirmed
    else if r.outcome == UnknownOutcome then Unknown
    else if r.success then Submitted
    else Failed
  }

  lemma NoAttempts(max: int)
    requires max >= 0
    ensures AttemptsOk(Replies([]), max)
  {
  }

  /** How a last call that was not an accepted message is remembered. */
  ghost predicate StoredAs(status: Status, last: SendResult) {
    && (status == Unknown <==> last.outcome == UnknownOutcome)
    && (status == Submitted <==> last.success && last.outcome != UnknownOutcome)
    && (status == Failed <==> !last.success && last.outcome != UnknownOutcome)
  }

  class SmsDispatchService {
    const outbox: SmsOutbox
    const gateway: Gateway
    const deviceMap: map<int, string>
    const simSlots: map<int, int>
    const allowlist: set<string>
    const normalize: string -> string
    const liveAuthorized: bool
    const dryRun: bool
    const maxAttempts: int
    const poller: Option<string -> PollTrace>

    constructor (outbox: SmsOutbox, gateway: Gateway, deviceMap: map<int, string>, simSlots: map<int, int>,
                 allowlist: set<string>, normalize: string -> string, liveAuthorized: bool, dryRun: bool,
                 maxAttempts: int, poller: Option<string -> PollTrace>)
      requires 1 <= maxAttempts <= 3
      ensures this.outbox == outbox && this.gateway == gateway && this.deviceMap == deviceMap
      ensures this.maxAttempts == maxAttempts && this.poller == poller
      ensures this.liveAuthorized == liveAuthorized && this.dryRun == dryRun
    {
      this.outbox, this.gateway, this.deviceMap, this.simSlots := outbox, gateway, deviceMap, simSlots;
      this.allowlist, this.normalize := allowlist, normalize;
      this.liveAuthorized, this.dryRun, this.maxAttempts, this.poller := liveAuthorized, dryRun, maxAttempts, poller;
    }

    ghost predicate Ready()
      reads outbox, outbox.store
    {
      maxAttempts >= 1 && Sound(outbox.View())
    }

    /** Since the snapshots `rows0` and `mem0` only `key` was written, and nothing was lost. */
    ghost predicate Grew(rows0: map<string, Record>, mem0: map<string, Record>, key: string)
      reads outbox, outbox.store
    {
      && Ready() && key in outbox.records
      && Extends(rows0, outbox.store.rows) && Extends(mem0, outbox.records)
      && forall k :: k != key && k in mem0 ==> outbox.records[k] == mem0[k]
    }

    function BlockReason(slot: int, to: string, expectedDevice: string, guard: Option<string>): Option<string> {
      if guard.Some? then guard
      else if slot !in deviceMap || deviceMap[slot] == "" then Some("slot has no VoidFix device_id in the device map")
      else if expectedDevice != "" && expectedDevice != deviceMap[slot] then
        Some("slot VoidFix device_id does not match the expected id")
      else if to == "" then Some("recipient number is empty")
      else if allowlist == {} then Some("recipient allowlist is empty")
      else if normalize(to) !in allowlist then Some("recipient is not on the allowlist")
      else if !liveAuthorized && !dryRun then Some("live SMS is not authorized")
      else None
    }

    /**
     No guard refuses, the slot has a device, the expected one if
     one is expected, and the recipient may be texted.
     */
    ghost predicate PassesGuards(slot: int, to: string, expectedDevice: string, guard: Option<string>) {
      && guard.None? && slot in deviceMap && deviceMap[slot] != ""
      && (expectedDevice == "" || expectedDevice == deviceMap[slot])
      && to != "" && normalize(to) in allowlist
    }

    lemma BlockReasonMeaning(slot: int, to: string, expectedDevice: string, guard: Option<string>)
      ensures BlockReason(slot, to, expectedDevice, guard).None? <==>
        PassesGuards(slot, to, expectedDevice, guard) && (liveAuthorized || dryRun)
      ensures PassesGuards(slot, to, expectedDevice, guard) ==> slot in deviceMap
    {
    }

    /** Sends until a success, an unsafe outcome or the attempt limit; `made` are the calls it makes. */
    method SubmitWithRetries(to: string, text: string, device: string, simSlot: Option<int>)
      returns (last: SendResult, ghost made: seq<Call>)
      requires maxAttempts >= 1
      modifies gateway
      ensures gateway.calls == old(gateway.calls) + made
      ensures made != [] && AttemptsOk(Replies(made), maxAttempts)
      ensures forall c :: c in made ==> c.to == to && c.text == text && c.device == device && c.simSlot == simSlot
      ensures last == made[|made| - 1].reply
      // it goes on exactly while the message cannot have been submitted
      ensures forall i :: 0 <= i < |made| - 1 ==> NeverSubmitted(made[i].reply)
      ensures |made| <= maxAttempts && (|made| < maxAttempts ==> !NeverSubmitted(last))
    {
      hide SafeToRetry, NeverSubmitted;
      last := SendResult(false, None, Some("no attempt"), Failure, None, None, None);
      made := [];
      var attempt := 1;
      while attempt <= maxAttempts
        invariant attempt == |made| + 1 && |made| < maxAttempts
        invariant gateway.calls == old(gateway.calls) + made
        invariant forall c :: c in made ==> c.to == to && c.text == text && c.device == device && c.simSlot == simSlot
        invariant forall i :: 0 <= i < |made| ==> SafeToRetry(made[i].reply) && NeverSubmitted(made[i].reply)
        decreases maxAttempts - attempt
      {
        last := gateway.Send(to, text, device, simSlot);
        made := made + [Call(to, text, device, simSlot, last)];
        SafeToRetryMeaning(last);
        SuccessIsLast(last);
        if last.success || !SafeToRetry(last) || attempt >= maxAttempts {
          return;
        }
        attempt := attempt + 1;
      }
    }

    /** One outbox update. */
    method Touch(key: string, patch: Patch, now: real, ghost rows0: map<string, Record>,
                 ghost mem0: map<string, Record>)
      returns (ok: bool)
      requires Grew(rows0, mem0, key)
      modifies outbox`records, outbox.store
      ensures Grew(rows0, mem0, key)
      ensures outbox.records[key] == Patched(old(outbox.records)[key], patch, now)
      ensures UpdatedBy(old(outbox.records)[key], patch, now, outbox.records[key])
      ensures ok || key in old(outbox.store.rows) ==> key in outbox.store.rows
    {
      ghost var before := outbox.View();
      ok := outbox.UpdateKey(key, patch, now);
      ghost var op := Update(key, patch, now, ok);
      ApplyKeeps(before, op);
      ExtendsThrough(rows0, before, op);
      MemExtendsThrough(mem0, before, op);
    }

    /** Runs the poller for one accepted message. False means an exception reached the caller. */
    method PollDelivery(key: string, trace: PollTrace, now: real, ghost rows0: map<string, Record>,
                        ghost mem0: map<string, Record>)
      returns (ok: bool)
      requires Grew(rows0, mem0, key)
      modifies outbox`records, outbox.store
      ensures Grew(rows0, mem0, key)
      ensures outbox.records[key].providerId == old(outbox.records)[key].providerId
      ensures key in old(outbox.store.rows) ==> key in outbox.store.rows
      ensures ok ==> trace.verdict.Some? && EndsAs(trace.verdict.value, outbox.records[key])
      ensures ok ==>
        var polled := Polled(old(outbox.records)[key], trace.polls, now);
        outbox.records[key] == Patched(polled, VerdictPatch(trace.polls, trace.verdict.value, now), now)
    {
      hide Patched, OnPollPatch, VerdictPatch, Sound, Extends, EndsAs;
      ok := true;
      for i := 0 to |trace.polls|
        invariant Grew(rows0, mem0, key)
        invariant outbox.records[key].providerId == old(outbox.records)[key].providerId
        invariant outbox.records[key] == Polled(old(outbox.records)[key], trace.polls[..i], now)
        invariant key in old(outbox.store.rows) ==> key in outbox.store.rows
      {
        PollExact(outbox.records[key], trace.polls[i], now);
        assert trace.polls[..i + 1][..i] == trace.polls[..i];
        ok := Touch(key, OnPollPatch(outbox.records[key], trace.polls[i], now), now, rows0, mem0);
        if !ok {
          return;
        }
      }
      if trace.verdict.None? {
        return false;
      }
      assert trace.polls[..|trace.polls|] == trace.polls;
      VerdictExact(outbox.records[key], trace.polls, trace.verdict.value, now);
      ok := Touch(key, VerdictPatch(trace.polls, trace.verdict.value, now), now, rows0, mem0);
    }

    method ReserveFresh(key: string, job: string, slot: int, to: string, now: real) returns (ok: bool)
      requires Ready() && key !in outbox.records
      modifies outbox`records, outbox.store
      ensures Grew(old(outbox.store.rows), old(outbox.records), key)
      ensures ok <==> key in outbox.store.rows
      ensures outbox.records[key].slot == slot && outbox.records[key].toRedacted == outbox.redact(to)
      ensures outbox.records[key].jobId == if job == "" then key else job
    {
      ghost var before := outbox.View();
      assert key !in before.disk;
      var r := outbox.ReserveKey(slot, to, key, job, now);
      ok := r.Reserved?;
      ApplyKeeps(before, Reserve(key, job, slot, outbox.redact(to), now, ok));
    }

    /** Reserves the key for a request the guards refuse, and marks it blocked. */
    method RecordBlocked(key: string, job: string, slot: int, to: string, reason: string, now: real) returns (ok: bool)
      requires Ready() && key !in outbox.records
      modifies outbox`records, outbox.store
      ensures Grew(old(outbox.store.rows), old(outbox.records), key)
      ensures ok ==> outbox.records[key].status == Blocked && key in outbox.store.rows
      ensures ok ==> outbox.records[key].blockedReason == Some(reason) && outbox.records[key].error == Some(reason)
    {
      ok := ReserveFresh(key, job, slot, to, now);
      if ok {
        ok := Touch(key, StatusOnly(Blocked).(blockedReason := Some(reason), error := Some(reason)), now,
                    old(outbox.store.rows), old(outbox.records));
      }
    }

    method Refuse(key: string, status: Status, reason: string, now: real,
                  ghost rows0: map<string, Record>, ghost mem0: map<string, Record>) returns (reply: Reply)
      requires Grew(rows0, mem0, key)
      modifies outbox`records, outbox.store
      ensures Grew(rows0, mem0, key)
      ensures key in old(outbox.store.rows) ==> key in outbox.store.rows
      ensures reply.Answer? ==> !reply.result.success && outbox.records[key].status == status
      ensures reply.Answer? ==> reply.result.error == Some(reason) && outbox.records[key].blockedReason == Some(reason)
    {
      var ok := Touch(key, StatusOnly(status).(blockedReason := Some(reason)), now, rows0, mem0);
      reply := if ok then Answer(Refusal(reason)) else Raised;
    }

    /** Writes down a last provider call that was not an accepted message. */
    method RecordUnaccepted(key: string, last: SendResult, now: real,
                            ghost rows0: map<string, Record>, ghost mem0: map<string, Record>) returns (reply: Reply)
      requires Grew(rows0, mem0, key) && key in outbox.store.rows
      modifies outbox`records, outbox.store
      ensures Grew(rows0, mem0, key) && key in outbox.store.rows
      requires !(last.success && HasText(last.providerId))
      ensures reply.Answer? ==> reply.result == last && StoredAs(outbox.records[key].status, last)
    {
      var status := StatusOfResult(last);
      var ok := Touch(key, StatusOnly(status).(
        providerId := last.providerId, error := last.error,
        final := if status == Failed then Some(FinalFailed) else None), now, rows0, mem0);
      reply := if ok then Answer(last) else Raised;
    }

    /** Writes down an accepted message and follows it to its verdict. */
    method RecordAccepted(key: string, device: string, simSlot: Option<int>, last: SendResult, now: real,
                          ghost rows0: map<string, Record>, ghost mem0: map<string, Record>) returns (reply: Reply)
      requires Grew(rows0, mem0, key) && key in outbox.store.rows
      requires last.success && HasText(last.providerId)
      modifies outbox`records, outbox.store
      ensures Grew(rows0, mem0, key) && key in outbox.store.rows
      ensures reply.Answer? ==> outbox.records[key].providerId == last.providerId
      ensures reply.Answer? && poller.None? ==> reply.result == last && outbox.records[key].status == Confirmed
      ensures reply.Answer? && poller.None? ==>
        && (device != "" ==> outbox.records[key].deviceId == Some(device))
        && outbox.records[key].acceptedAt == Some(now)
        && outbox.records[key].final == Some(FinalAccepted)
      ensures reply.Answer? && poller.Some? ==>
        var verdict := (poller.value)(last.providerId.value).verdict;
        && verdict.Some? && EndsAs(verdict.value, outbox.records[key])
        && (reply.result.success <==> verdict == Some(VDelivered))
    {
      hide Patched, Sound, Extends;
      var ok := Touch(key, StatusOnly(Confirmed).(
        providerId := last.providerId, deviceId := Some(device),
        simSlot := if last.simSlot.Some? && last.simSlot.value != 0 then last.simSlot else simSlot,
        acceptedAt := Some(now), sentDate := last.sentDate, errorCode := last.errorCode,
        final := Some(FinalAccepted), error := last.error), now, rows0, mem0);
      if !ok {
        return Raised;
      }
      if poller.None? {
        return Answer(last);
      }
      var trace := (poller.value)(last.providerId.value);
      ok := PollDelivery(key, trace, now, rows0, mem0);
      if !ok {
        return Raised;
      }
      match trace.verdict.value
      case VDelivered => reply := Answer(last);
      case VFailed => reply := Answer(Unhappy(last, "provider reported failed delivery", Failure));
      case VTimeout => reply := Answer(Unhappy(last, "delivery poll timed out before confirmation", UnknownOutcome));
    }

    /** The part of a request after its key is reserved: the dry run, the slot lock, the provider. */
    method SubmitReserved(slot: int, to: string, text: string, key: string, env: Env,
                          ghost rows0: map<string, Record>, ghost mem0: map<string, Record>)
      returns (reply: Reply, ghost made: seq<Call>)
      requires Grew(rows0, mem0, key) && key in outbox.store.rows && slot in deviceMap
      modifies outbox`records, outbox.store, gateway
      ensures Grew(rows0, mem0, key) && key in outbox.store.rows
      ensures gateway.calls == old(gateway.calls) + made && AttemptsOk(Replies(made), maxAttempts)
      ensures made != [] <==> liveAuthorized && !dryRun && env.lock.Free?
      ensures forall c :: c in made ==> c.to == to && c.text == text && c.device == deviceMap[slot]
      ensures forall c :: c in made ==> c.simSlot == if slot in simSlots then Some(simSlots[slot]) else None
      ensures forall i :: 0 <= i < |made| - 1 ==> NeverSubmitted(made[i].reply)
      ensures made != [] && |made| < maxAttempts ==> !NeverSubmitted(made[|made| - 1].reply)
      ensures made == [] && reply.Answer? ==>
        && !reply.result.success && outbox.records[key].blockedReason == reply.result.error
        && outbox.records[key].status == if dryRun || !liveAuthorized then DryRun else Blocked
      ensures made != [] && reply.Answer? ==> Settled(reply.result, made[|made| - 1].reply, outbox.records[key])
    {
      hide Extends, SameMessage, Sound, NeverSubmitted, EndsAs, StoredAs, UpdatedBy, Patched;
      made := [];
      if dryRun || !liveAuthorized {
        reply := Refuse(key, DryRun, "dry-run: provider not contacted", env.now, rows0, mem0);
        return;
      }
      if !env.lock.Free? {
        var reason := if env.lock.Busy? then "slot is busy" else "slot is not in the slot map";
        reply := Refuse(key, Blocked, reason, env.now, rows0, mem0);
        return;
      }
      var simSlot := if slot in simSlots then Some(simSlots[slot]) else None;
      var last;
      last, made := SubmitWithRetries(to, text, deviceMap[slot], simSlot);
      if last.success && HasText(last.providerId) {
        reply := RecordAccepted(key, deviceMap[slot], simSlot, last, env.now, rows0, mem0);
      } else {
        reply := RecordUnaccepted(key, last, env.now, rows0, mem0);
      }
    }

    /** One request end to end; `made` are the provider calls it makes. */
    method SendForSlot(slot: int, to: string, text: string, key: string, job: string, expectedDevice: string, env: Env)
      returns (reply: Reply, ghost made: seq<Call>)
      requires Ready()
      modifies outbox`records, outbox.store, gateway
      // the outbox only gains messages, and always holds this one afterwards
      ensures Grew(old(outbox.store.rows), old(outbox.records), key)
      // provider calls
      ensures gateway.calls == old(gateway.calls) + made && AttemptsOk(Replies(made), maxAttempts)
      ensures made != [] <==>
        && key !in old(outbox.records) && key in outbox.store.rows && PassesGuards(slot, to, expectedDevice, env.guard)
        && liveAuthorized && !dryRun && env.lock.Free?
      ensures forall c :: c in made ==> slot in deviceMap && c.to == to && c.text == text && c.device == deviceMap[slot]
      ensures forall c :: c in made ==> c.simSlot == if slot in simSlots then Some(simSlots[slot]) else None
      ensures forall i :: 0 <= i < |made| - 1 ==> NeverSubmitted(made[i].reply)
      ensures made != [] && |made| < maxAttempts ==> !NeverSubmitted(made[|made| - 1].reply)
      // a key seen before: nothing happens at all
      ensures key in old(outbox.records) ==> made == [] && outbox.View() == old(outbox.View())
      ensures key in old(outbox.records) ==> reply.Answer? && IsDuplicateReply(reply.result)
      ensures key in old(outbox.records) ==>
        && !reply.result.success && reply.result.providerId == old(outbox.records)[key].providerId
        && (reply.result.outcome == UnknownOutcome <==> old(outbox.records)[key].status == Unknown)
      // a new key that is answered without a call was refused
      ensures key !in old(outbox.records) && made == [] && reply.Answer? ==>
        && !reply.result.success && outbox.records[key].blockedReason == reply.result.error
        && (outbox.records[key].status == DryRun <==> PassesGuards(slot, to, expectedDevice, env.guard) && dryRun)
        && (outbox.records[key].status != DryRun ==> outbox.records[key].status == Blocked)
      // a new key whose last call was accepted keeps the provider id and ends with the poller's verdict
      ensures made != [] && reply.Answer? ==> Settled(reply.result, made[|made| - 1].reply, outbox.records[key])
    {
      hide IsDuplicateReply, DuplicateReply, SameMessage, Extends, Patched, NeverSubmitted, EndsAs, BlockReason;
      hide PassesGuards, StoredAs, UpdatedBy, Settled, AttemptsOk;
      NoAttempts(maxAttempts);
      BlockReasonMeaning(slot, to, expectedDevice, env.guard);
      made := [];
      if key in outbox.records {
        var known := outbox.records[key];
        DuplicateReplyIsRecognised(known);
        ExtendsRefl(outbox.store.rows);
        ExtendsRefl(outbox.records);
        return Answer(DuplicateReply(known)), [];
      }
      var blocked := BlockReason(slot, to, expectedDevice, env.guard);
      if blocked.Some? {
        var stored := RecordBlocked(key, job, slot, to, blocked.value, env.now);
        return if stored then Answer(Refusal(blocked.value)) else Raised, [];
      }
      var ok := ReserveFresh(key, job, slot, to, env.now);
      if !ok {
        return Raised, [];
      }
      reply, made := SubmitReserved(slot, to, text, key, env, old(outbox.store.rows), old(outbox.records));
    }

    /** How the answer and the record relate to the last provider call. */
    ghost predicate Settled(result: SendResult, last: SendResult, record: Record) {
      if last.success && HasText(last.providerId) then
        && record.providerId == last.providerId
        && (poller.None? ==> result == last && record.status == Confirmed)
        && (poller.Some? ==>
              var verdict := (poller.value)(last.providerId.value).verdict;
              && verdict.Some? && EndsAs(verdict.value, record)
              && (result.success <==> verdict == Some(VDelivered)))
      else result == last && StoredAs(record.status, last)
    }

    /** After a restart: follow every message the provider has accepted, and send nothing. */
    method ResumeInflight(now: real) returns (resumed: seq<string>, completed: bool)
      requires Ready()
      modifies outbox`records, outbox.store
      ensures Ready()
      ensures Extends(old(outbox.store.rows), outbox.store.rows) && Extends(old(outbox.records), outbox.records)
      ensures gateway.calls == old(gateway.calls)
      ensures forall k :: k in resumed ==> Resumable(old(outbox.records), k)
      ensures completed ==> forall k :: Resumable(old(outbox.records), k) ==>
        k in resumed && Terminal(outbox.records[k].final)
      ensures forall k :: k in old(outbox.records) && !Resumable(old(outbox.records), k) ==>
        outbox.records[k] == old(outbox.records)[k]
    {
      hide SameMessage, Sound, Patched, Polled;
      resumed := [];
      var keys := outbox.ListNonTerminal();
      ghost var mem0, rows0 := outbox.records, outbox.store.rows;
      ExtendsRefl(rows0);
      ExtendsRefl(mem0);
      for i := 0 to |keys|
        invariant Ready() && Extends(rows0, outbox.store.rows) && Extends(mem0, outbox.records)
        invariant forall k :: k in resumed ==> Resumable(mem0, k)
        invariant forall j :: 0 <= j < i && Resumable(mem0, keys[j]) ==>
          keys[j] in resumed && Terminal(outbox.records[keys[j]].final)
        invariant forall k :: k in mem0 && (k !in keys[..i] || !Resumable(mem0, k)) ==> outbox.records[k] == mem0[k]
      {
        var k := keys[i];
        assert k !in keys[..i];
        var record := outbox.records[k];
        if HasText(record.providerId) && poller.Some? {
          ghost var rows1, mem1 := outbox.store.rows, outbox.records;
          ExtendsRefl(rows1);
          ExtendsRefl(mem1);
          var ok := PollDelivery(k, (poller.value)(record.providerId.value), now, rows1, mem1);
          ExtendsTrans(rows0, rows1, outbox.store.rows);
          ExtendsTrans(mem0, mem1, outbox.records);
          if !ok {
            return resumed, false;
          }
          resumed := resumed + [k];
        }
      }
      completed := true;
    }

    ghost predicate Resumable(mem: map<string, Record>, k: string) {
      k in mem && !Terminal(mem[k].final) && HasText(mem[k].providerId) && poller.Some?
    }
  }

  /** The answer to a key the outbox already holds. */
  function DuplicateReply(known: Record): SendResult {
    SendResult(false, known.providerId, Some(DUPLICATE_PREFIX + StatusText(known.status)),
               if known.status == Unknown then UnknownOutcome else Failure, None, None, None)
  }

  const DUPLICATE_PREFIX := "duplicate idempotency key status="

  const DUPLICATE_MARK := "duplicate idempotency"

  /** The mark by which the Farm command recognises a duplicate and reports it as accepted. */
  predicate IsDuplicateReply(r: SendResult) {
    r.error.Some? && Contains(r.error.value, DUPLICATE_MARK)
  }

  lemma DuplicateReplyIsRecognised(known: Record)
    ensures IsDuplicateReply(DuplicateReply(known)) && !DuplicateReply(known).success
    ensures DuplicateReply(known).providerId == known.providerId
    ensures DuplicateReply(known).outcome == UnknownOutcome <==> known.status == Unknown
  {
    FirstIndexMeaning(DuplicateReply(known).error.value, DUPLICATE_MARK);
    assert At(DuplicateReply(known).error.value, DUPLICATE_MARK, 0);
  }

  /** The answer to a request whose key another one reserved after the lookup: the text of the outbox's exception. */
  function RaceReply(known: Record): SendResult {
    Refusal(RACE_START + IntText(known.slot) + " status=" + StatusText(known.status))
  }

  /** No "up" anywhere. */
  predicate NoUp(s: string) {
    forall i :: 0 <= i < |s| - 1 ==> !(s[i] == 'u' && s[i + 1] == 'p')
  }

  lemma NoUpConcat(a: string, b: string)
    requires NoUp(a) && NoUp(b) && a != "" && a[|a| - 1] != 'u'
    ensures NoUp(a + b)
  {
    var s := a + b;
    forall i | 0 <= i < |s| - 1 ensures !(s[i] == 'u' && s[i + 1] == 'p') {
      if i < |a| - 1 {
        assert s[i] == a[i] && s[i + 1] == a[i + 1];
      } else if i >= |a| {
        assert s[i] == b[i - |a|] && s[i + 1] == b[i - |a| + 1];
      }
    }
  }

  lemma NoUpNoMark(text: string)
    requires NoUp(text)
    ensures !Contains(text, DUPLICATE_MARK)
  {
    FirstIndexMeaning(text, DUPLICATE_MARK);
    forall i ensures !At(text, DUPLICATE_MARK, i) {
      if 0 <= i && i + |DUPLICATE_MARK| <= |text| {
        assert DUPLICATE_MARK[1] == 'u' && DUPLICATE_MARK[2] == 'p';
        assert text[i..i + |DUPLICATE_MARK|][1] == text[i + 1] && text[i..i + |DUPLICATE_MARK|][2] == text[i + 2];
      }
    }
  }

  lemma IntTextNoUp(n: int)
    ensures NoUp(IntText(n)) && IntText(n) != "" && IntText(n)[|IntText(n)| - 1] != 'u'
  {
    DecimalFacts(if n < 0 then -n else n);
  }

  lemma StatusTextNoUp(s: Status)
    ensures NoUp(StatusText(s))
  {
  }

  const RACE_START := "idempotency key already used for slot "

  lemma RaceStartNoUp()
    ensures NoUp(RACE_START) && RACE_START[|RACE_START| - 1] == ' '
  {
  }

  /** The reserve-time wording does not carry the mark, whatever the record: the Farm command takes it for a failure. */
  lemma RaceReplyIsNoDuplicate(known: Record)
    ensures !IsDuplicateReply(RaceReply(known))
  {
    var d, b, st := IntText(known.slot), " status=", StatusText(known.status);
    RaceStartNoUp();
    IntTextNoUp(known.slot);
    StatusTextNoUp(known.status);
    NoUpConcat(RACE_START, d);
    NoUpConcat(RACE_START + d, b);
    NoUpConcat(RACE_START + d + b, st);
    hide NoUp, IntText, StatusText, Contains;
    NoUpNoMark(RACE_START + d + b + st);
  }

  /** What the Farm command makes of a send result: whether it reports success, and with which HTTP status. */
  function CommandAnswer(r: SendResult): (bool, int) {
    if IsDuplicateReply(r) then (true, 200) else (r.success, if r.success then 200 else 422)
  }

  /**
   Of two requests with one key, the one found at the lookup is told
   "accepted", the one found at the reservation "failed".
   */
  lemma SameDuplicateTwoAnswers(known: Record)
    ensures CommandAnswer(DuplicateReply(known)) == (true, 200) && CommandAnswer(RaceReply(known)) == (false, 422)
  {
    DuplicateReplyIsRecognised(known);
    RaceReplyIsNoDuplicate(known);
  }

  lemma ExtendsRefl(a: map<string, Record>)
    ensures Extends(a, a)
  {
  }

  function StatusText(s: Status): string {
    match s
    case Pending => "pending" case Submitted => "submitted" case Confirmed => "confirmed" case Sent => "sent"
    case Delivered => "delivered" case Failed => "failed" case Unknown => "unknown" case TimedOut => "timeout"
    case Blocked => "blocked" case DryRun => "dry_run"
  }

  lemma ExtendsTrans(a: map<string, Record>, b: map<string, Record>, c: map<string, Record>)
    requires Extends(a, b) && Extends(b, c)
    ensures Extends(a, c)
  {
    hide SameMessage;
    forall k | k in a ensures k in c && SameMessage(a[k], c[k]) {
      SameMessageTrans(a[k], b[k], c[k]);
    }
  }

  lemma ExtendsThrough(rows0: map<string, Record>, box: Box, op: Op)
    requires Sound(box) && op.Update? && Extends(rows0, box.disk)
    ensures Extends(rows0, Apply(box, op).disk)
  {
    ApplyKeeps(box, op);
    var end := Apply(box, op).disk;
    hide SameMessage, Apply;
    forall k | k in rows0 ensures k in end && SameMessage(rows0[k], end[k]) {
      SameMessageTrans(rows0[k], box.disk[k], end[k]);
    }
  }

  lemma PatchedSame(r: Record, p: Patch, now: real)
    ensures SameMessage(r, Patched(r, p, now)) && Patched(r, p, now).key == r.key
  {
  }

  lemma MemExtendsThrough(mem0: map<string, Record>, box: Box, op: Op)
    requires Sound(box) && op.Update? && Extends(mem0, box.mem)
    ensures Extends(mem0, Apply(box, op).mem)
  {
    var end := Apply(box, op).mem;
    hide SameMessage;
    forall k | k in mem0 ensures k in end && SameMessage(mem0[k], end[k]) {
      if k == op.key {
        PatchedSame(box.mem[k], op.patch, op.stamp);
        SameMessageTrans(mem0[k], box.mem[k], end[k]);
      } else if op.key in box.mem {
        assert Patched(box.mem[op.key], op.patch, op.stamp).key == op.key;
      }
    }
  }
}
