/**
 The VPS side of slot SMS: the Farm key encoding, the enqueue race on the unique
 (slot, idempotency key) row, and the bounded dispatch loop.
 */
module SlotSms {
  import opened Basics

  // ----- the Farm key ----------------------------------------------------

  const SLOT_PREFIX := "slot-api-"
  const WEBHOOK_PREFIX := "webhook-reply-"

  /** The key the VPS sends to the Farm for one slot and one caller key. */
  function FarmKey(slot: nat, key: string): string {
    SLOT_PREFIX + Decimal(slot) + "-" + key
  }

  function WebhookKey(event: string): string {
    WEBHOOK_PREFIX + event
  }

  /** A text that ends at its first dash splits in one way only. */
  lemma SplitAtDash(a: string, x: string, b: string, y: string)
    requires forall i :: 0 <= i < |a| ==> a[i] != '-'
    requires forall i :: 0 <= i < |b| ==> b[i] != '-'
    requires a + "-" + x == b + "-" + y
    ensures a == b && x == y
  {
    var s := a + "-" + x;
    assert s[|a|] == '-';
    assert s[|b|] == (b + "-" + y)[|b|] == '-';
    assert forall i :: 0 <= i < |a| ==> s[i] == a[i];
    assert forall i :: 0 <= i < |b| ==> s[i] == (b + "-" + y)[i] == b[i];
    assert |a| == |b|;
    assert a == s[..|a|] == b;
    assert x == s[|a| + 1..] == y;
  }

  /** Different slots or caller keys never share a Farm key, and no Farm key is a webhook reply key. */
  lemma FarmKeyIsInjective(slotA: nat, keyA: string, slotB: nat, keyB: string, event: string)
    ensures FarmKey(slotA, keyA) == FarmKey(slotB, keyB) <==> slotA == slotB && keyA == keyB
    ensures FarmKey(slotA, keyA) != WebhookKey(event)
  {
    DecimalFacts(slotA);
    DecimalFacts(slotB);
    if FarmKey(slotA, keyA) == FarmKey(slotB, keyB) {
      var tailA := Decimal(slotA) + "-" + keyA;
      var tailB := Decimal(slotB) + "-" + keyB;
      assert FarmKey(slotA, keyA) == SLOT_PREFIX + tailA && FarmKey(slotB, keyB) == SLOT_PREFIX + tailB;
      assert tailA == FarmKey(slotA, keyA)[|SLOT_PREFIX|..] && tailB == FarmKey(slotB, keyB)[|SLOT_PREFIX|..];
      SplitAtDash(Decimal(slotA), keyA, Decimal(slotB), keyB);
    }
    assert FarmKey(slotA, keyA)[0] == 's' && WebhookKey(event)[0] == 'w';
  }

  function Strip(s: string): string {
    if s == "" then s
    else if IsSpace(s[0]) then Strip(s[1..])
    else if IsSpace(s[|s| - 1]) then Strip(s[..|s| - 1])
    else s
  }

  lemma {:induction false} StripEnds(s: string)
    ensures Strip(s) == "" || (!IsSpace(Strip(s)[0]) && !IsSpace(Strip(s)[|Strip(s)| - 1]))
    decreases |s|
  {
    if s == "" {
    } else if IsSpace(s[0]) {
      StripEnds(s[1..]);
    } else if IsSpace(s[|s| - 1]) {
      StripEnds(s[..|s| - 1]);
    }
  }

  predicate Blank(s: string) {
    forall i :: 0 <= i < |s| ==> IsSpace(s[i])
  }

  /** Stripping takes white space off both ends, all of it and nothing else. */
  lemma {:induction false} StripExact(s: string) returns (left: string, right: string)
    ensures s == left + Strip(s) + right && Blank(left) && Blank(right)
    ensures Strip(s) == "" || (!IsSpace(Strip(s)[0]) && !IsSpace(Strip(s)[|Strip(s)| - 1]))
    decreases |s|
  {
    StripEnds(s);
    left, right := "", "";
    if s == "" {
    } else if IsSpace(s[0]) {
      var l, r := StripExact(s[1..]);
      left, right := [s[0]] + l, r;
      Wrapped(s[0], l, Strip(s), r);
    } else if IsSpace(s[|s| - 1]) {
      var l, r := StripExact(s[..|s| - 1]);
      left, right := l, r + [s[|s| - 1]];
      assert s == l + Strip(s) + right;
    }
    hide IsSpace;
  }

  lemma Wrapped(c: char, left: string, middle: string, right: string)
    ensures [c] + (left + middle + right) == [c] + left + middle + right
  {
  }

  /** The Farm strips the key it receives; a stripped, non-empty caller key survives that unchanged. */
  lemma FarmStripsNothing(slot: nat, raw: string)
    requires Strip(raw) != ""
    ensures Strip(FarmKey(slot, Strip(raw))) == FarmKey(slot, Strip(raw))
  {
    StripEnds(raw);
    var k := FarmKey(slot, Strip(raw));
    assert k[0] == 's' && k[|k| - 1] == Strip(raw)[|Strip(raw)| - 1];
  }

  // ----- racing enqueues -------------------------------------------------

  datatype Ask = Ask(slot: int, key: string, fingerprint: string)

  datatype Row = Row(messageId: string, fingerprint: string)

  datatype Answer = Accepted(messageId: string) | Conflict | InternalError | Rejected

  /** How far a caller has come: entered, lookup missed, gates passed, insert refused, inserted, answered. */
  datatype Phase = Entered | Missed | Allowed | Raced | Inserted(messageId: string) | Answered(answer: Answer)

  datatype Caller = Caller(ask: Ask, phase: Phase)

  /** `threads` lists the dispatch threads started, by message id. */
  datatype State = State(
    rows: map<(int, string), Row>, callers: map<nat, Caller>, threads: seq<string>, used: set<string>)

  const INITIAL := State(map[], map[], [], {})

  datatype Step =
    | Enter(c: nat, ask: Ask)
    | Lookup(c: nat)
    | Gate(c: nat, passed: bool)
    | Insert(c: nat, messageId: string)
    | Reread(c: nat)
    | StartThread(c: nat)

  function SlotKey(a: Ask): (int, string) {
    (a.slot, a.key)
  }

  function Move(s: State, c: nat, phase: Phase): State
    requires c in s.callers
  {
    s.(callers := s.callers[c := s.callers[c].(phase := phase)])
  }

  /** The answer an existing row gives: its own id to the same content, a conflict to other content. */
  function FromRow(row: Row, a: Ask): Answer {
    if row.fingerprint != a.fingerprint then Conflict else Accepted(row.messageId)
  }

  function Next(s: State, step: Step): State {
    match step
    case Enter(c, ask) => if c in s.callers then s else s.(callers := s.callers[c := Caller(ask, Entered)])
    case Lookup(c) =>
      if c !in s.callers || !s.callers[c].phase.Entered? then s
      else
        var a := s.callers[c].ask;
        Move(s, c, if SlotKey(a) in s.rows then Answered(FromRow(s.rows[SlotKey(a)], a)) else Missed)
    case Gate(c, passed) =>
      if c !in s.callers || !s.callers[c].phase.Missed? then s
      else Move(s, c, if passed then Allowed else Answered(Rejected))
    case Insert(c, id) =>
      if c !in s.callers || !s.callers[c].phase.Allowed? || id in s.used then s
      else
        var a := s.callers[c].ask;
        if SlotKey(a) in s.rows then Move(s, c, Raced)
        else Move(s, c, Inserted(id)).(rows := s.rows[SlotKey(a) := Row(id, a.fingerprint)], used := s.used + {id})
    case Reread(c) =>
      if c !in s.callers || !s.callers[c].phase.Raced? then s
      else
        var a := s.callers[c].ask;
        Move(s, c, Answered(if SlotKey(a) in s.rows then FromRow(s.rows[SlotKey(a)], a) else InternalError))
    case StartThread(c) =>
      if c !in s.callers || !s.callers[c].phase.Inserted? then s
      else
        var id := s.callers[c].phase.messageId;
        Move(s, c, Answered(Accepted(id))).(threads := s.threads + [id])
  }

  function Run(s: State, steps: seq<Step>): State
    decreases |steps|
  {
    if steps == [] then s else Run(Next(s, steps[0]), steps[1..])
  }

  ghost predicate CallerOk(s: State, c: nat)
    requires c in s.callers
  {
    var a := s.callers[c].ask;
    var k := SlotKey(a);
    match s.callers[c].phase
    case Raced => k in s.rows
    case Inserted(id) => k in s.rows && s.rows[k] == Row(id, a.fingerprint) && id !in s.threads
    case Answered(Accepted(id)) => k in s.rows && s.rows[k] == Row(id, a.fingerprint)
    case Answered(Conflict) => k in s.rows && s.rows[k].fingerprint != a.fingerprint
    case Answered(InternalError) => false
    case _ => true
  }

  /** Each row's dispatch thread has started, or its inserter is about to start it. */
  ghost predicate RowServed(s: State, k: (int, string))
    requires k in s.rows
  {
    var id := s.rows[k].messageId;
    id in s.threads || exists c :: c in s.callers && s.callers[c].phase == Inserted(id)
  }

  ghost predicate Inv(s: State) {
    && (forall c :: c in s.callers ==> CallerOk(s, c))
    && (forall k :: k in s.rows ==> s.rows[k].messageId in s.used && RowServed(s, k))
    && (forall j, k :: j in s.rows && k in s.rows && s.rows[j].messageId == s.rows[k].messageId ==> j == k)
    && (forall b, c ::
          b in s.callers && c in s.callers && s.callers[b].phase.Inserted? && s.callers[c].phase == s.callers[b].phase
          ==> b == c)
    && Distinct(s.threads)
    && (forall id :: id in s.threads ==> id in s.used && HasRow(s, id))
  }

  /** Some row carries this message id. */
  ghost predicate HasRow(s: State, id: string) {
    exists k :: k in s.rows && s.rows[k].messageId == id
  }

  /** Moving a caller that is not `Inserted` to a phase that fits changes nothing else. */
  lemma MoveKeeps(s: State, c: nat, phase: Phase)
    requires Inv(s) && c in s.callers && !s.callers[c].phase.Inserted? && !phase.Inserted?
    requires CallerOk(Move(s, c, phase), c)
    ensures Inv(Move(s, c, phase))
  {
    var t := Move(s, c, phase);
    forall b | b in t.callers ensures CallerOk(t, b) {
      assert CallerOk(s, b);
    }
    forall k | k in t.rows ensures RowServed(t, k) {
      assert RowServed(s, k);
      var id := s.rows[k].messageId;
      if id !in s.threads {
        var b :| b in s.callers && s.callers[b].phase == Inserted(id);
        assert t.callers[b].phase == Inserted(id);
      }
    }
  }

  lemma InsertKeeps(s: State, c: nat, id: string)
    requires Inv(s) && c in s.callers && s.callers[c].phase.Allowed? && id !in s.used
    requires SlotKey(s.callers[c].ask) !in s.rows
    ensures Inv(Next(s, Insert(c, id)))
  {
    var t := Next(s, Insert(c, id));
    forall b | b in t.callers ensures CallerOk(t, b) {
      assert CallerOk(s, b);
    }
    forall k | k in t.rows ensures t.rows[k].messageId in t.used && RowServed(t, k) {
      if k in s.rows {
        assert RowServed(s, k);
        var other := s.rows[k].messageId;
        if other !in s.threads {
          var b :| b in s.callers && s.callers[b].phase == Inserted(other);
          assert t.callers[b].phase == Inserted(other);
        }
      } else {
        assert t.callers[c].phase == Inserted(id);
      }
    }
    forall b | b in s.callers ensures s.callers[b].phase != Inserted(id) {
      assert CallerOk(s, b);
    }
    forall x | x in t.threads ensures HasRow(t, x) {
      var k :| k in s.rows && s.rows[k].messageId == x;
      assert t.rows[k].messageId == x;
    }
  }

  lemma StartKeeps(s: State, c: nat)
    requires Inv(s) && c in s.callers && s.callers[c].phase.Inserted?
    ensures Inv(Next(s, StartThread(c)))
  {
    var id := s.callers[c].phase.messageId;
    var t := Next(s, StartThread(c));
    assert CallerOk(s, c);
    forall b | b in t.callers ensures CallerOk(t, b) {
      assert CallerOk(s, b);
    }
    assert id in t.threads by {
      assert t.threads[|s.threads|] == id;
    }
    forall k | k in t.rows ensures RowServed(t, k) {
      assert RowServed(s, k);
      var other := s.rows[k].messageId;
      if other in s.threads {
        var i :| 0 <= i < |s.threads| && s.threads[i] == other;
        assert t.threads[i] == other;
      } else if other != id {
        var b :| b in s.callers && s.callers[b].phase == Inserted(other);
        assert t.callers[b].phase == Inserted(other);
      }
    }
  }

  lemma NextKeeps(s: State, step: Step)
    requires Inv(s)
    ensures Inv(Next(s, step))
  {
    if step.c in s.callers {
      assert CallerOk(s, step.c);
    }
    match step
    case Enter(c, ask) =>
      if c !in s.callers {
        EnterKeeps(s, c, ask);
      }
    case Lookup(c) =>
      if c in s.callers && s.callers[c].phase.Entered? {
        var a := s.callers[c].ask;
        MoveKeeps(s, c, if SlotKey(a) in s.rows then Answered(FromRow(s.rows[SlotKey(a)], a)) else Missed);
      }
    case Gate(c, passed) =>
      if c in s.callers && s.callers[c].phase.Missed? {
        MoveKeeps(s, c, if passed then Allowed else Answered(Rejected));
      }
    case Insert(c, id) =>
      if c in s.callers && s.callers[c].phase.Allowed? && id !in s.used {
        if SlotKey(s.callers[c].ask) in s.rows {
          MoveKeeps(s, c, Raced);
        } else {
          InsertKeeps(s, c, id);
        }
      }
    case Reread(c) =>
      if c in s.callers && s.callers[c].phase.Raced? {
        var a := s.callers[c].ask;
        MoveKeeps(s, c, Answered(FromRow(s.rows[SlotKey(a)], a)));
      }
    case StartThread(c) =>
      if c in s.callers && s.callers[c].phase.Inserted? {
        StartKeeps(s, c);
      }
  }

  lemma EnterKeeps(s: State, c: nat, ask: Ask)
    requires Inv(s) && c !in s.callers
    ensures Inv(Next(s, Enter(c, ask)))
  {
    var t := Next(s, Enter(c, ask));
    forall b | b in t.callers ensures CallerOk(t, b) {
      if b != c {
        assert CallerOk(s, b);
      }
    }
    forall k | k in t.rows ensures RowServed(t, k) {
      assert RowServed(s, k);
      var id := s.rows[k].messageId;
      if id !in s.threads {
        var b :| b in s.callers && s.callers[b].phase == Inserted(id);
        assert t.callers[b].phase == Inserted(id);
      }
    }
  }

  lemma {:induction false} RunKeeps(s: State, steps: seq<Step>)
    requires Inv(s)
    ensures Inv(Run(s, steps))
    decreases |steps|
  {
    if steps != [] {
      NextKeeps(s, steps[0]);
      RunKeeps(Next(s, steps[0]), steps[1..]);
    }
  }

  function AnswerOf(s: State, c: nat): Option<Answer> {
    if c in s.callers && s.callers[c].phase.Answered? then Some(s.callers[c].phase.answer) else None
  }

  /**
   Over every interleaving of two callers on one slot and key: the same content is
   answered with the same message, different content cannot both be accepted, and
   nobody is told of an internal error.
   */
  lemma EnqueueIsIdempotent(steps: seq<Step>, b: nat, c: nat)
    ensures var s := Run(INITIAL, steps);
      && AnswerOf(s, b) != Some(InternalError)
      && (b in s.callers && c in s.callers && SlotKey(s.callers[b].ask) == SlotKey(s.callers[c].ask)
          && AnswerOf(s, b).Some? && AnswerOf(s, b).value.Accepted?
          && AnswerOf(s, c).Some? && !AnswerOf(s, c).value.Rejected? ==>
            AnswerOf(s, c) ==
            if s.callers[b].ask.fingerprint == s.callers[c].ask.fingerprint then AnswerOf(s, b) else Some(Conflict))
  {
    RunKeeps(INITIAL, steps);
    var s := Run(INITIAL, steps);
    hide Run;
    if b in s.callers {
      assert CallerOk(s, b);
    }
    if c in s.callers {
      assert CallerOk(s, c);
    }
  }

  /**
   In every interleaving: no row gets two dispatch threads, no thread lacks a row, and a row has its
   thread exactly when its own inserter has gone on from the insert.
   */
  lemma OneThreadPerRow(steps: seq<Step>, k: (int, string))
    ensures var s := Run(INITIAL, steps);
      && Distinct(s.threads)
      && (forall id :: id in s.threads ==> HasRow(s, id))
      && (k in s.rows ==>
            var id := s.rows[k].messageId;
            (id in s.threads <==> !exists c :: c in s.callers && s.callers[c].phase == Inserted(id)))
  {
    RunKeeps(INITIAL, steps);
    var s := Run(INITIAL, steps);
    hide Run;
    if k in s.rows {
      assert RowServed(s, k);
      var id := s.rows[k].messageId;
      if c :| c in s.callers && s.callers[c].phase == Inserted(id) {
        assert CallerOk(s, c);
      }
    }
  }

  lemma {:induction false} RejectedByItsGate(s: State, steps: seq<Step>, c: nat)
    requires AnswerOf(s, c) != Some(Rejected) && AnswerOf(Run(s, steps), c) == Some(Rejected)
    ensures Gate(c, false) in steps
    decreases |steps|
  {
    if AnswerOf(Next(s, steps[0]), c) == Some(Rejected) {
      assert steps[0] == Gate(c, false);
    } else {
      hide Next, AnswerOf;
      RejectedByItsGate(Next(s, steps[0]), steps[1..], c);
    }
  }

  /** In every interleaving a caller is turned away only by its own gate. */
  lemma RejectedByGateOnly(steps: seq<Step>, c: nat)
    ensures AnswerOf(Run(INITIAL, steps), c) == Some(Rejected) ==> Gate(c, false) in steps
  {
    if AnswerOf(Run(INITIAL, steps), c) == Some(Rejected) {
      RejectedByItsGate(INITIAL, steps, c);
    }
  }

  /**
   A caller left alone, in any state: a key with a row is answered at once from the row; a new key whose gate is
   open gets a row of its own, one thread, and its message id.
   */
  lemma AloneIsServed(s: State, c: nat, ask: Ask, id: string)
    requires c !in s.callers && id !in s.used
    ensures var k := (ask.slot, ask.key); var t := Next(Next(s, Enter(c, ask)), Lookup(c));
      if k in s.rows then
        && t.rows == s.rows && t.threads == s.threads
        && AnswerOf(t, c) ==
             Some(if s.rows[k].fingerprint == ask.fingerprint then Accepted(s.rows[k].messageId) else Conflict)
      else
        var u := Next(Next(Next(t, Gate(c, true)), Insert(c, id)), StartThread(c));
        && AnswerOf(u, c) == Some(Accepted(id)) && u.threads == s.threads + [id]
        && u.rows == s.rows[k := Row(id, ask.fingerprint)]
  {
    var t := Next(Next(s, Enter(c, ask)), Lookup(c));
    if (ask.slot, ask.key) !in s.rows {
      assert t.callers[c] == Caller(ask, Missed) && t.rows == s.rows && t.used == s.used;
      var t1 := Next(t, Gate(c, true));
      assert t1.callers[c] == Caller(ask, Allowed);
      var t2 := Next(t1, Insert(c, id));
      assert t2.callers[c] == Caller(ask, Inserted(id));
    }
  }

  // ----- dispatch --------------------------------------------------------

  datatype FarmReply = FarmReply(ok: bool, httpStatus: int, status: string, providerId: Option<string>, error: string)

  datatype Message = Message(slot: nat, key: string, to: string, body: string,
                             status: string, attempts: nat, providerId: Option<string>, error: Option<string>)

  datatype FarmSend = FarmSend(jobId: string, key: string, slot: nat, body: string, to: string, reply: FarmReply)

  /** Answers on which the dispatcher gives up at once. */
  predicate Permanent(r: FarmReply) {
    r.httpStatus in {401, 403, 400, 422}
  }

  /** Only messages in these states are dispatched. */
  predicate Waiting(status: string) {
    status in {"queued", "failed"}
  }

  function StoredStatus(r: FarmReply): string {
    var status := if r.status == "" then "sent" else r.status;
    if status in {"accepted", "queued", "sending"} then "sent" else status
  }

  function NewProviderId(r: FarmReply, m: Message): Option<string> {
    if r.providerId.Some? && r.providerId.value != "" then r.providerId else m.providerId
  }

  ghost predicate Refused(r: FarmReply) {
    !r.ok && (r.httpStatus == 400 || r.httpStatus == 401 || r.httpStatus == 403 || r.httpStatus == 422)
  }

  ghost predicate Dispatchable(m: Message) {
    m.status == "queued" || m.status == "failed"
  }

  /**
   What an accepting reply leaves of a message: its status, with
   every word for "on its way" read as sent, and its id.
   */
  ghost predicate AcceptedAs(before: Message, r: FarmReply, after: Message) {
    && (r.status == "" || r.status == "accepted" || r.status == "queued" || r.status == "sending" ==>
          after.status == "sent")
    && (r.status != "" && r.status != "accepted" && r.status != "queued" && r.status != "sending" ==>
          after.status == r.status)
    && (if r.providerId.Some? && r.providerId.value != "" then after.providerId == r.providerId
        else after.providerId == before.providerId)
    && after.key == before.key && after.slot == before.slot && after.to == before.to && after.body == before.body
  }

  lemma AcceptedExact(m: Message, r: FarmReply)
    ensures AcceptedAs(m, r, m.(status := StoredStatus(r), providerId := NewProviderId(r, m)))
  {
  }

  lemma WordsMean(r: FarmReply, m: Message)
    ensures Waiting(m.status) <==> Dispatchable(m)
    ensures !r.ok ==> (Permanent(r) <==> Refused(r))
  {
  }

  /** No message but `id` was touched. */
  ghost predicate OnlyTouched(before: map<string, Message>, after: map<string, Message>, id: string) {
    after.Keys == before.Keys && forall x :: x != id && x in after ==> after[x] == before[x]
  }

  lemma TouchOnce(before: map<string, Message>, now: map<string, Message>, id: string, m: Message)
    requires OnlyTouched(before, now, id) && id in now
    ensures OnlyTouched(before, now[id := m], id)
  {
  }

  lemma TouchNone(messages: map<string, Message>, id: string)
    ensures OnlyTouched(messages, messages, id)
  {
  }

  lemma AcceptedFrom(first: Message, now: Message, r: FarmReply, after: Message)
    requires AcceptedAs(now, r, after) && now == first.(status := now.status, attempts := now.attempts)
    ensures AcceptedAs(first, r, after)
  {
  }

  const NO_REPLY := FarmReply(false, 0, "", None, "")

  class Dispatcher {
    const farm: Option<nat -> FarmReply>
    const maxAttempts: int
    var messages: map<string, Message>
    var sent: seq<FarmSend>

    constructor (farm: Option<nat -> FarmReply>, maxDispatchAttempts: int)
      ensures this.farm == farm && maxAttempts == Max(1, maxDispatchAttempts) && messages == map[] && sent == []
    {
      this.farm, maxAttempts := farm, Max(1, maxDispatchAttempts);
      messages, sent := map[], [];
    }

    /** One request to the Farm for a message. */
    method Send(id: string, m: Message) returns (request: FarmSend)
      requires farm.Some?
      modifies `sent
      ensures sent == old(sent) + [request] && Repeats(request, id, m)
    {
      request := FarmSend(id, FarmKey(m.slot, m.key), m.slot, m.body, m.to, (farm.value)(|sent|));
      sent := sent + [request];
    }

    /** One dispatch thread; `made` are the requests it sends to the Farm. */
    method DispatchAsync(id: string) returns (ghost made: seq<FarmSend>)
      requires maxAttempts >= 1
      modifies this
      ensures sent == old(sent) + made && |made| <= maxAttempts
      ensures OnlyTouched(old(messages), messages, id)
      ensures id !in old(messages) || !Dispatchable(old(messages)[id]) ==> made == [] && messages == old(messages)
      ensures id in old(messages) && Dispatchable(old(messages)[id]) ==> (made == [] <==> farm.None?)
      // every request repeats the same Farm key and content
      ensures forall f :: f in made ==> id in old(messages) && Repeats(f, id, old(messages)[id])
      // all but the last were neither accepted nor refused for good, and it stops only for that or at the limit
      ensures forall i :: 0 <= i < |made| - 1 ==> !made[i].reply.ok && !Refused(made[i].reply)
      ensures made != [] && !made[|made| - 1].reply.ok ==> |made| == maxAttempts || Refused(made[|made| - 1].reply)
      // the stored message says how the last one ended
      ensures made != [] ==> messages[id].attempts == |made|
      ensures made != [] && made[|made| - 1].reply.ok ==>
        AcceptedAs(old(messages)[id], made[|made| - 1].reply, messages[id])
      ensures made != [] && !made[|made| - 1].reply.ok ==>
        messages[id].status == "failed" && messages[id].error == Some(made[|made| - 1].reply.error)
      ensures id in old(messages) && Dispatchable(old(messages)[id]) && farm.None? ==>
        messages[id].status == "failed" && messages[id].error == Some("farm_not_configured")
    {
      hide StoredStatus, NewProviderId, Permanent, Waiting, OnlyTouched, Repeats, Refused, Dispatchable, AcceptedAs;
      made := [];
      if id !in messages {
        TouchNone(messages, id);
        return;
      }
      var record := messages[id];
      WordsMean(NO_REPLY, record);
      TouchNone(messages, id);
      if !Waiting(record.status) {
        return;
      }
      var lastError := "dispatch_failed";
      var attempt := 1;
      while attempt <= maxAttempts
        invariant attempt == |made| + 1 <= maxAttempts + 1
        invariant sent == old(sent) + made && (farm.None? ==> made == [])
        invariant id in messages && OnlyTouched(old(messages), messages, id)
        invariant forall f :: f in made ==> Repeats(f, id, record)
        invariant forall i :: 0 <= i < |made| ==> !made[i].reply.ok && !Refused(made[i].reply)
        invariant made != [] ==> messages[id].attempts == |made| && lastError == made[|made| - 1].reply.error
        invariant messages[id] == record.(status := messages[id].status, attempts := messages[id].attempts)
      {
        var trying := messages[id].(status := "queued", attempts := attempt);
        TouchOnce(old(messages), messages, id, trying);
        messages := messages[id := trying];
        if farm.None? {
          lastError := "farm_not_configured";
          break;
        }
        var request := Send(id, record);
        var reply := request.reply;
        made := made + [request];
        if reply.ok {
          var accepted := messages[id].(status := StoredStatus(reply),
                                        providerId := NewProviderId(reply, messages[id]));
          AcceptedExact(messages[id], reply);
          AcceptedFrom(record, messages[id], reply, accepted);
          TouchOnce(old(messages), messages, id, accepted);
          messages := messages[id := accepted];
          return;
        }
        lastError := reply.error;
        WordsMean(reply, record);
        if Permanent(reply) {
          break;
        }
        attempt := attempt + 1;
      }
      var failed := messages[id].(status := "failed", error := Some(lastError));
      TouchOnce(old(messages), messages, id, failed);
      messages := messages[id := failed];
    }

    ghost predicate Repeats(f: FarmSend, id: string, m: Message) {
      && f.jobId == id && f.key == "slot-api-" + Decimal(m.slot) + "-" + m.key
      && f.slot == m.slot && f.body == m.body && f.to == m.to
    }
  }
}
