/**
 The Farm's SMS outbox: an in-memory table written through to a durable store,
 and the durable table read back after a restart. A store write may fail, in
 which case the exception reaches the caller after the memory table was changed.
 */
module SmsOutboxes {
  import opened Basics

  datatype Status = Pending | Submitted | Confirmed | Sent | Delivered | Failed | Unknown | TimedOut | Blocked | DryRun

  datatype Final = FinalQueued | FinalAccepted | FinalSent | FinalDelivered | FinalFailed | FinalTimeout

  datatype Record = Record(
    key: string, jobId: string, slot: int, status: Status, toRedacted: string,
    providerId: Option<string>, deviceId: Option<string>, simSlot: Option<int>,
    destination: Option<string>, acceptedAt: Option<real>,
    sentDate: Option<string>, deliveredDate: Option<string>, errorCode: Option<string>,
    final: Option<Final>, lastPolledAt: Option<real>,
    error: Option<string>, blockedReason: Option<string>,
    createdAt: real, updatedAt: real)

  datatype Patch = Patch(
    status: Status, providerId: Option<string>, deviceId: Option<string>, simSlot: Option<int>,
    destination: Option<string>, acceptedAt: Option<real>,
    sentDate: Option<string>, deliveredDate: Option<string>, errorCode: Option<string>,
    final: Option<Final>, lastPolledAt: Option<real>,
    error: Option<string>, blockedReason: Option<string>)

  /** An update that changes the status only. */
  function StatusOnly(status: Status): Patch {
    Patch(status, None, None, None, None, None, None, None, None, None, None, None, None)
  }

  predicate Terminal(final: Option<Final>) {
    final in {Some(FinalDelivered), Some(FinalFailed), Some(FinalTimeout)}
  }

  predicate HasText(x: Option<string>) {
    x.Some? && x.value != ""
  }

  /** `new or current` on strings: an empty string counts as absent. */
  function OrText(update: Option<string>, current: Option<string>): Option<string> {
    if HasText(update) then update else current
  }

  /** `new if new is not None else current`. */
  function OrKeep<T>(update: Option<T>, current: Option<T>): Option<T> {
    if update.Some? then update else current
  }

  function Fresh(key: string, jobId: string, slot: int, redacted: string, stamp: real): Record {
    Record(key, if jobId != "" then jobId else key, slot, Pending, redacted, None, None, None,
           Some(redacted), None, None, None, None, Some(FinalQueued), None, None, None, stamp, stamp)
  }

  function Patched(r: Record, p: Patch, stamp: real): Record {
    Record(r.key, r.jobId, r.slot, p.status, r.toRedacted,
           OrText(p.providerId, r.providerId), OrText(p.deviceId, r.deviceId), OrKeep(p.simSlot, r.simSlot),
           OrText(p.destination, r.destination), OrKeep(p.acceptedAt, r.acceptedAt),
           OrText(p.sentDate, r.sentDate), OrText(p.deliveredDate, r.deliveredDate), OrText(p.errorCode, r.errorCode),
           OrKeep(p.final, r.final), OrKeep(p.lastPolledAt, r.lastPolledAt),
           OrKeep(p.error, r.error), OrKeep(p.blockedReason, r.blockedReason),
           r.createdAt, stamp)
  }

  /** A text that comes with an update replaces the one before, unless it is missing or empty. */
  ghost predicate TextOver(before: Option<string>, update: Option<string>, after: Option<string>) {
    if update.Some? && update.value != "" then after == update else after == before
  }

  ghost predicate Over<T(!new)>(before: Option<T>, update: Option<T>, after: Option<T>) {
    if update.Some? then after == update else after == before
  }

  /** What an update does to each part of a record. */
  ghost predicate UpdatedBy(r: Record, p: Patch, stamp: real, t: Record) {
    && t.key == r.key && t.jobId == r.jobId && t.slot == r.slot && t.toRedacted == r.toRedacted
    && t.createdAt == r.createdAt && t.updatedAt == stamp && t.status == p.status
    && TextOver(r.providerId, p.providerId, t.providerId) && TextOver(r.deviceId, p.deviceId, t.deviceId)
    && TextOver(r.destination, p.destination, t.destination) && TextOver(r.sentDate, p.sentDate, t.sentDate)
    && TextOver(r.deliveredDate, p.deliveredDate, t.deliveredDate) && TextOver(r.errorCode, p.errorCode, t.errorCode)
    && Over(r.simSlot, p.simSlot, t.simSlot) && Over(r.acceptedAt, p.acceptedAt, t.acceptedAt)
    && Over(r.final, p.final, t.final) && Over(r.lastPolledAt, p.lastPolledAt, t.lastPolledAt)
    && Over(r.error, p.error, t.error) && Over(r.blockedReason, p.blockedReason, t.blockedReason)
  }

  lemma PatchedIsUpdated(r: Record, p: Patch, stamp: real)
    ensures UpdatedBy(r, p, stamp, Patched(r, p, stamp))
  {
  }

  // ----- the outbox as a value -------------------------------------------

  datatype Box = Box(mem: map<string, Record>, disk: map<string, Record>)

  /** `stored` says whether the store accepted the write. */
  datatype Op =
    | Reserve(key: string, jobId: string, slot: int, redacted: string, stamp: real, stored: bool)
    | Update(key: string, patch: Patch, stamp: real, stored: bool)
    | Reload

  function Put(box: Box, r: Record, stored: bool): Box {
    Box(box.mem[r.key := r], if stored then box.disk[r.key := r] else box.disk)
  }

  function Apply(box: Box, op: Op): Box {
    match op
    case Reserve(key, jobId, slot, redacted, stamp, stored) =>
      if key in box.mem then box else Put(box, Fresh(key, jobId, slot, redacted, stamp), stored)
    case Update(key, patch, stamp, stored) =>
      if key !in box.mem then box else Put(box, Patched(box.mem[key], patch, stamp), stored)
    case Reload => Box(box.disk, box.disk)
  }

  function ApplyAll(box: Box, ops: seq<Op>): Box
    decreases |ops|
  {
    if ops == [] then box else ApplyAll(Apply(box, ops[0]), ops[1..])
  }

  predicate Stored(op: Op) {
    op.Reload? || op.stored
  }

  ghost predicate KeysMatch(box: Box) {
    && (forall k :: k in box.mem ==> box.mem[k].key == k)
    && (forall k :: k in box.disk ==> box.disk[k].key == k)
  }

  /** What a record never loses: who it is for, and a provider id once it has one. */
  ghost predicate SameMessage(a: Record, b: Record) {
    && a.key == b.key && a.jobId == b.jobId && a.slot == b.slot
    && a.toRedacted == b.toRedacted && a.createdAt == b.createdAt
    && (HasText(a.providerId) ==> HasText(b.providerId))
  }

  /** Every row of `a` is still in `b`, as the same message. */
  ghost predicate Extends(a: map<string, Record>, b: map<string, Record>) {
    forall k :: k in a ==> k in b && SameMessage(a[k], b[k])
  }

  ghost predicate Sound(box: Box) {
    KeysMatch(box) && Extends(box.disk, box.mem)
  }

  /** One operation: the durable table only gains rows and never changes a row's message. */
  lemma ApplyKeeps(box: Box, op: Op)
    requires Sound(box)
    ensures Sound(Apply(box, op)) && Extends(box.disk, Apply(box, op).disk)
  {
    match op
    case Reserve(key, jobId, slot, redacted, stamp, stored) =>
      SameAsItself(box);
      FreshKey(key, jobId, slot, redacted, stamp);
      hide Fresh, SameMessage;
      if key !in box.mem {
        PutKeeps(box, Fresh(key, jobId, slot, redacted, stamp), stored);
      }
    case Update(key, patch, stamp, stored) =>
      SameAsItself(box);
      if key in box.mem {
        PatchedIsSame(box.mem[key], patch, stamp);
        hide Patched, SameMessage;
        PutKeeps(box, Patched(box.mem[key], patch, stamp), stored);
      }
    case Reload => SameAsItself(box);
  }

  lemma SameAsItself(box: Box)
    ensures Extends(box.disk, box.disk)
  {
  }

  /** Writing a record of the same message, or of a new one, loses nothing. */
  lemma PutKeeps(box: Box, r: Record, stored: bool)
    requires Sound(box) && Extends(box.disk, box.disk)
    requires r.key in box.mem ==> SameMessage(box.mem[r.key], r)
    requires SameMessage(r, r)
    ensures Sound(Put(box, r, stored)) && Extends(box.disk, Put(box, r, stored).disk)
  {
    hide SameMessage;
    if r.key in box.disk {
      SameMessageTrans(box.disk[r.key], box.mem[r.key], r);
    }
  }

  lemma PatchedIsSame(r: Record, p: Patch, stamp: real)
    ensures SameMessage(r, Patched(r, p, stamp)) && Patched(r, p, stamp).key == r.key
    ensures SameMessage(Patched(r, p, stamp), Patched(r, p, stamp))
  {
  }

  lemma FreshKey(key: string, jobId: string, slot: int, redacted: string, stamp: real)
    ensures var r := Fresh(key, jobId, slot, redacted, stamp); r.key == key && SameMessage(r, r)
  {
  }

  /**
   Over every run, with failing writes and restarts anywhere: a message once durable
   stays durable, keeps its identity, and keeps having a provider id.
   */
  lemma {:induction false} DurableForever(box: Box, ops: seq<Op>)
    requires Sound(box)
    ensures Sound(ApplyAll(box, ops)) && Extends(box.disk, ApplyAll(box, ops).disk)
    decreases |ops|
  {
    if ops != [] {
      ApplyKeeps(box, ops[0]);
      DurableForever(Apply(box, ops[0]), ops[1..]);
      hide SameMessage;
      var end := ApplyAll(box, ops);
      forall k | k in box.disk ensures k in end.disk && SameMessage(box.disk[k], end.disk[k]) {
        SameMessageTrans(box.disk[k], Apply(box, ops[0]).disk[k], end.disk[k]);
      }
    }
  }

  lemma SameMessageTrans(a: Record, b: Record, c: Record)
    requires SameMessage(a, b) && SameMessage(b, c)
    ensures SameMessage(a, c)
  {
  }

  /** While no write fails, memory and disk agree, so a crash and reload changes nothing. */
  lemma {:induction false} ReloadIsIdentity(box: Box, ops: seq<Op>)
    requires box.mem == box.disk && forall i :: 0 <= i < |ops| ==> Stored(ops[i])
    ensures var end := ApplyAll(box, ops); end.mem == end.disk && Apply(end, Reload) == end
    decreases |ops|
  {
    if ops != [] {
      ReloadIsIdentity(Apply(box, ops[0]), ops[1..]);
    }
  }

  /** From an agreeing box, one operation ends in agreement exactly when its write was stored or changed nothing. */
  lemma AgreementExact(box: Box, op: Op)
    requires Sound(box) && box.mem == box.disk
    ensures Apply(box, op).mem == Apply(box, op).disk <==> Stored(op) || Apply(box, op).mem == box.mem
  {
  }

  // ----- the outbox as an object -----------------------------------------

  /** The SQLite table; `accepts(n)` says whether its n-th write succeeds. */
  class Store {
    const accepts: nat -> bool
    var rows: map<string, Record>
    var writes: nat

    constructor (accepts: nat -> bool)
      ensures this.accepts == accepts && rows == map[] && writes == 0
    {
      this.accepts := accepts;
      rows, writes := map[], 0;
    }

    method Upsert(r: Record) returns (stored: bool)
      modifies this
      ensures stored == accepts(old(writes)) && writes == old(writes) + 1
      ensures rows == if stored then old(rows)[r.key := r] else old(rows)
    {
      stored := accepts(writes);
      writes := writes + 1;
      if stored {
        rows := rows[r.key := r];
      }
    }
  }

  datatype ReserveResult = Reserved(record: Record) | Duplicate(existing: Record) | ReserveFailed

  class SmsOutbox {
    const store: Store
    const redact: string -> string
    var records: map<string, Record>

    constructor (store: Store, redact: string -> string)
      ensures this.store == store && this.redact == redact && View() == Box(store.rows, store.rows)
    {
      this.store := store;
      this.redact := redact;
      this.records := store.rows;
    }

    ghost function View(): Box
      reads this, store
    {
      Box(records, store.rows)
    }

    method ReserveKey(slot: int, toNumber: string, key: string, jobId: string, now: real) returns (r: ReserveResult)
      modifies this`records, store
      ensures View() == Apply(old(View()), Reserve(key, jobId, slot, redact(toNumber), now, r.Reserved?))
      ensures r.Duplicate? <==> key in old(records)
      ensures r.Duplicate? ==> r.existing == old(records)[key] && store.writes == old(store.writes)
      ensures !r.Duplicate? ==> r.Reserved? == store.accepts(old(store.writes)) && store.writes == old(store.writes) + 1
      ensures r.Reserved? ==> key in records && r.record == records[key]
      ensures !r.Duplicate? ==>
        && key in records && records[key].key == key && records[key].slot == slot
        && records[key].jobId == (if jobId == "" then key else jobId)
        && records[key].status == Pending && records[key].final == Some(FinalQueued) && records[key].providerId.None?
        && records[key].toRedacted == redact(toNumber) && records[key].createdAt == now
    {
      if key in records {
        return Duplicate(records[key]);
      }
      var record := Fresh(key, jobId, slot, redact(toNumber), now);
      records := records[key := record];
      var stored := store.Upsert(record);
      r := if stored then Reserved(record) else ReserveFailed;
    }

    /** `ok` is false when the key is unknown or the store refused the row. */
    method UpdateKey(key: string, patch: Patch, now: real) returns (ok: bool)
      requires key in records ==> records[key].key == key
      modifies this`records, store
      ensures View() == Apply(old(View()), Update(key, patch, now, ok))
      ensures ok == (key in old(records) && store.accepts(old(store.writes)))
      ensures store.writes == old(store.writes) + (if key in old(records) then 1 else 0)
      ensures key in old(records) ==> UpdatedBy(old(records)[key], patch, now, records[key])
      ensures ok ==> key in store.rows && store.rows[key] == records[key]
    {
      if key !in records {
        return false;
      }
      var updated := Patched(records[key], patch, now);
      PatchedIsUpdated(records[key], patch, now);
      records := records[key := updated];
      ok := store.Upsert(updated);
    }

    method ListNonTerminal() returns (keys: seq<string>)
      ensures Distinct(keys)
      ensures forall k :: k in keys <==> k in records && !Terminal(records[k].final)
      ensures forall k :: k in keys <==>
        k in records && records[k].final !in {Some(FinalDelivered), Some(FinalFailed), Some(FinalTimeout)}
    {
      keys := [];
      var todo := records.Keys;
      while todo != {}
        invariant todo <= records.Keys
        invariant Distinct(keys)
        invariant forall k :: k in keys <==> k in records && k !in todo && !Terminal(records[k].final)
      {
        var k :| k in todo;
        if !Terminal(records[k].final) {
          keys := keys + [k];
        }
        todo := todo - {k};
      }
    }
  }
}
