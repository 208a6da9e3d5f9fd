/**
 The MJPEG prime cache: streams opened in the background, parked per device, and
 handed to the first viewer. Threads interleave between lock sections; closing a
 stream and setting an event happen outside the lock.
 */
module StreamWarmup {
  import opened Basics

  type Device = string
  type Stream = int
  type Gate = int

  const PRIME_TTL_SECONDS := 15.0

  // ----- what opening a stream can answer --------------------------------

  datatype Piece = Bytes(data: seq<int>) | Raises

  /** `status` is None when the reply's status is not a number; a missing status reads as zero. */
  datatype Reply = Reply(status: Option<int>, hasContent: bool, contentRaises: bool, pieces: seq<Piece>)

  datatype Verdict = Ready(first: nat) | Rejected | Escaped

  /** Where the first non-empty piece is, if the iteration reaches one before raising or ending. */
  function FirstChunk(pieces: seq<Piece>): Option<nat> {
    if pieces == [] || pieces[0].Raises? then None
    else if pieces[0].data != [] then Some(0)
    else
      match FirstChunk(pieces[1..])
      case None => None
      case Some(k) => Some(k + 1)
  }

  function Judge(reply: Reply): Verdict {
    if reply.status.None? then Escaped
    else if reply.status.value != 200 || !reply.hasContent then Rejected
    else if reply.contentRaises then Escaped
    else
      match FirstChunk(reply.pieces)
      case None => Rejected
      case Some(k) => Ready(k)
  }

  /** What a reader of the pieces receives: their bytes up to the first failure. */
  function Content(pieces: seq<Piece>): seq<int> {
    if pieces == [] || pieces[0].Raises? then [] else pieces[0].data + Content(pieces[1..])
  }

  /** A primed stream replays its first chunk and goes on, so the viewer misses no byte. */
  lemma {:induction false} PrimingLosesNoByte(pieces: seq<Piece>)
    requires FirstChunk(pieces).Some?
    ensures var k := FirstChunk(pieces).value;
      && k < |pieces| && pieces[k].Bytes? && pieces[k].data != []
      && Content(pieces) == pieces[k].data + Content(pieces[k + 1..])
    decreases |pieces|
  {
    if pieces[0].data == [] {
      PrimingLosesNoByte(pieces[1..]);
      SkipEmpty(pieces, FirstChunk(pieces[1..]).value);
    }
  }

  lemma SkipEmpty(pieces: seq<Piece>, k: nat)
    requires k + 1 < |pieces| && pieces[0] == Bytes([])
    ensures pieces[1..][k] == pieces[k + 1] && pieces[1..][k + 1..] == pieces[k + 2..]
    ensures Content(pieces) == Content(pieces[1..])
  {
    assert Content(pieces) == [] + Content(pieces[1..]);
  }

  // ----- state and steps -------------------------------------------------

  datatype Item = Item(storedAt: real, stream: Stream)

  /** A thread that has read an event and will set it, after closing the stream it popped with it, if any. */
  datatype Wake = Wake(gate: Gate, behind: Option<Stream>)

  datatype State = State(
    pending: map<Device, Gate>,
    items: map<Device, Item>,
    upstreams: map<Stream, Reply>,      // every upstream ever opened while priming
    priming: map<Stream, Device>,    // opened, fate not decided yet
    closing: set<Stream>,            // popped by a thread that has yet to call close
    popped: map<Stream, real>,       // popped by a taker that has yet to look at the clock
    closed: seq<Stream>,             // close calls, in order
    handed: seq<(Stream, real, real)>, // given to a viewer: stream, stored at, taken at
    leaked: set<Stream>,             // no variable refers to it any more
    gates: set<Gate>,
    waking: set<Wake>,               // events read by a thread that has yet to set them
    signalled: set<Gate>)

  const EMPTY := State(map[], map[], map[], map[], {}, map[], [], [], {}, {}, {}, {})

  datatype Event =
    | Open(x: Stream, device: Device, reply: Reply)
    | Reject(x: Stream)
    | Escape(x: Stream)
    | Begin(device: Device, gate: Gate)
    | Store(x: Stream, now: real)
    | Fail(device: Device)
    | Take(device: Device)
    | Check(x: Stream, now: real)
    | Close(x: Stream)
    | CloseRaises(x: Stream)
    | Signal(wake: Wake)

  function Held(s: State, device: Device): set<Stream> {
    if device in s.items then {s.items[device].stream} else {}
  }

  function HeldOne(s: State, device: Device): Option<Stream> {
    if device in s.items then Some(s.items[device].stream) else None
  }

  function Waiting(s: State, device: Device): set<Wake> {
    if device in s.pending then {Wake(s.pending[device], HeldOne(s, device))} else {}
  }

  /** Can a thread take this step now? */
  predicate Enabled(s: State, ev: Event) {
    match ev
    case Open(x, _, _) => x !in s.upstreams
    case Reject(x) => x in s.priming && x in s.upstreams && Judge(s.upstreams[x]).Rejected?
    case Escape(x) => x in s.priming && x in s.upstreams && Judge(s.upstreams[x]).Escaped?
    case Begin(device, gate) => device != "" && gate !in s.gates
    case Store(x, _) => x in s.priming && x in s.upstreams && Judge(s.upstreams[x]).Ready?
    case Fail(_) => true
    case Take(device) => device != ""
    case Check(x, _) => x in s.popped
    case Close(x) => x in s.closing
    case CloseRaises(x) => x in s.closing
    case Signal(wake) => wake in s.waking && (wake.behind.Some? ==> wake.behind.value !in s.closing)
  }

  function Behind(waking: set<Wake>, x: Stream): set<Wake> {
    set w | w in waking && w.behind == Some(x)
  }

  function Step(s: State, ev: Event): State {
    if !Enabled(s, ev) then s
    else match ev
      case Open(x, device, reply) =>
        s.(upstreams := s.upstreams[x := reply], priming := s.priming[x := device])
      case Reject(x) =>
        s.(priming := s.priming - {x}, closed := s.closed + [x])
      case Escape(x) =>
        s.(priming := s.priming - {x}, leaked := s.leaked + {x})
      case Begin(device, gate) =>
        s.(pending := s.pending[device := gate], items := s.items - {device}, gates := s.gates + {gate},
           closing := s.closing + Held(s, device), waking := s.waking + Waiting(s, device))
      case Store(x, now) =>
        var device := s.priming[x];
        if device == "" then s.(priming := s.priming - {x}, closed := s.closed + [x])
        else
          s.(priming := s.priming - {x}, items := s.items[device := Item(now, x)],
             closing := s.closing + Held(s, device), waking := s.waking + Waiting(s, device))
      case Fail(device) =>
        s.(pending := s.pending - {device}, items := s.items - {device},
           closing := s.closing + Held(s, device), waking := s.waking + Waiting(s, device))
      case Take(device) =>
        s.(pending := s.pending - {device}, items := s.items - {device},
           popped :=
             if device in s.items then s.popped[s.items[device].stream := s.items[device].storedAt]
             else s.popped)
      case Check(x, now) =>
        if now - s.popped[x] > PRIME_TTL_SECONDS then s.(popped := s.popped - {x}, closed := s.closed + [x])
        else s.(popped := s.popped - {x}, handed := s.handed + [(x, s.popped[x], now)])
      case Close(x) =>
        s.(closing := s.closing - {x}, closed := s.closed + [x])
      case CloseRaises(x) => // the exception ends the thread before it sets its event
        s.(closing := s.closing - {x}, closed := s.closed + [x], waking := s.waking - Behind(s.waking, x))
      case Signal(wake) =>
        s.(waking := s.waking - {wake}, signalled := s.signalled + {wake.gate})
  }

  function Run(s: State, evs: seq<Event>): State
    decreases |evs|
  {
    if evs == [] then s else Run(Step(s, evs[0]), evs[1..])
  }

  // ----- linear ownership ------------------------------------------------

  function One(b: bool): nat {
    if b then 1 else 0
  }

  function Closes(closed: seq<Stream>, x: Stream): nat {
    multiset(closed)[x]
  }

  function Handouts(handed: seq<(Stream, real, real)>, x: Stream): nat {
    if handed == [] then 0
    else Handouts(handed[..|handed| - 1], x) + One(handed[|handed| - 1].0 == x)
  }

  ghost predicate Holds(s: State, device: Device, x: Stream) {
    device in s.items && s.items[device].stream == x
  }

  ghost predicate IsHeld(s: State, x: Stream) {
    exists device :: Holds(s, device, x)
  }

  /** How many owners the stream has, counting every close call and every handout. */
  ghost function Owners(s: State, x: Stream): nat {
    One(x in s.priming) + One(IsHeld(s, x)) + One(x in s.closing) + One(x in s.popped)
    + Closes(s.closed, x) + Handouts(s.handed, x) + One(x in s.leaked)
  }

  /** One owner if opened, none otherwise; held for one device only; lost exactly when priming blew up. */
  ghost predicate StreamOk(s: State, x: Stream) {
    && Owners(s, x) == One(x in s.upstreams)
    && (forall d, e :: Holds(s, d, x) && Holds(s, e, x) ==> d == e)
    && (x in s.upstreams && x !in s.priming ==> (x in s.leaked <==> Judge(s.upstreams[x]).Escaped?))
  }

  ghost predicate Fresh(handed: seq<(Stream, real, real)>) {
    forall i :: 0 <= i < |handed| ==> handed[i].2 - handed[i].1 <= PRIME_TTL_SECONDS
  }

  ghost predicate Valid(s: State) {
    && (forall x :: StreamOk(s, x))
    && Fresh(s.handed)
    && "" !in s.items
  }

  lemma NotHeldAfterPop(s: State, t: State, device: Device, x: Stream)
    requires StreamOk(s, x) && t.items == s.items - {device}
    ensures IsHeld(t, x) <==> IsHeld(s, x) && !Holds(s, device, x)
    ensures forall d, e :: Holds(t, d, x) && Holds(t, e, x) ==> d == e
  {
    forall d ensures Holds(t, d, x) <==> Holds(s, d, x) && d != device {
    }
    if IsHeld(s, x) && !Holds(s, device, x) {
      var d :| Holds(s, d, x);
      assert Holds(t, d, x);
    }
  }

  lemma SameItems(s: State, t: State, x: Stream)
    requires t.items == s.items
    ensures IsHeld(t, x) <==> IsHeld(s, x)
    ensures forall d :: Holds(t, d, x) <==> Holds(s, d, x)
  {
    forall d ensures Holds(t, d, x) <==> Holds(s, d, x) {
    }
    if IsHeld(s, x) {
      var d :| Holds(s, d, x);
      assert Holds(t, d, x);
    }
  }

  /** Storing under a device evicts what it held and holds the new stream there, nowhere else. */
  lemma HeldAfterStore(s: State, t: State, device: Device, now: real, stored: Stream, x: Stream)
    requires StreamOk(s, x) && t.items == s.items[device := Item(now, stored)]
    requires x == stored ==> !IsHeld(s, x)
    ensures IsHeld(t, x) <==> x == stored || (IsHeld(s, x) && !Holds(s, device, x))
    ensures forall d, e :: Holds(t, d, x) && Holds(t, e, x) ==> d == e
  {
    var mid := s.(items := s.items - {device});
    NotHeldAfterPop(s, mid, device, x);
    hide Owners;
    forall d ensures Holds(t, d, x) <==> Holds(mid, d, x) || (d == device && x == stored) {
    }
    assert x == stored ==> !IsHeld(mid, x);
    if x == stored {
      assert Holds(t, device, x);
    }
    if IsHeld(mid, x) {
      var d :| Holds(mid, d, x);
      assert Holds(t, d, x);
    }
    if IsHeld(t, x) {
      var d :| Holds(t, d, x);
      assert d == device || Holds(mid, d, x);
    }
  }

  lemma ClosesAppend(closed: seq<Stream>, y: Stream, x: Stream)
    ensures Closes(closed + [y], x) == Closes(closed, x) + One(x == y)
  {
  }

  lemma HandoutsAppend(handed: seq<(Stream, real, real)>, h: (Stream, real, real), x: Stream)
    ensures Handouts(handed + [h], x) == Handouts(handed, x) + One(h.0 == x)
  {
    assert (handed + [h])[..|handed|] == handed;
  }

  lemma PrimingStep(s: State, ev: Event, x: Stream)
    requires Enabled(s, ev) && StreamOk(s, x) && (ev.Open? || ev.Reject? || ev.Escape?)
    ensures StreamOk(Step(s, ev), x)
  {
    hide Closes, Handouts, IsHeld, Holds;
    var t := Step(s, ev);
    SameItems(s, t, x);
    ClosesAppend(s.closed, ev.x, x);
  }

  lemma PopStep(s: State, ev: Event, x: Stream)
    requires Enabled(s, ev) && StreamOk(s, x) && (ev.Begin? || ev.Fail? || ev.Take?)
    ensures StreamOk(Step(s, ev), x)
  {
    hide Closes, Handouts;
    var t := Step(s, ev);
    NotHeldAfterPop(s, t, ev.device, x);
    assert Holds(s, ev.device, x) ==> IsHeld(s, x);
  }

  lemma StoreStep(s: State, ev: Event, x: Stream)
    requires ev.Store? && Enabled(s, ev) && StreamOk(s, x) && StreamOk(s, ev.x)
    ensures StreamOk(Step(s, ev), x)
  {
    hide Closes, Handouts, IsHeld;
    var t := Step(s, ev);
    var device := s.priming[ev.x];
    if device == "" {
      SameItems(s, t, x);
      ClosesAppend(s.closed, ev.x, x);
    } else {
      HeldAfterStore(s, t, device, ev.now, ev.x, x);
      HoldsIsHeld(s, device, x);
    }
  }

  lemma HoldsIsHeld(s: State, device: Device, x: Stream)
    ensures Holds(s, device, x) ==> IsHeld(s, x)
  {
  }

  lemma CloseStep(s: State, ev: Event, x: Stream)
    requires Enabled(s, ev) && StreamOk(s, x) && (ev.Close? || ev.CloseRaises? || ev.Signal?)
    ensures StreamOk(Step(s, ev), x)
  {
    hide Closes, Handouts, IsHeld, Holds;
    SameItems(s, Step(s, ev), x);
    if !ev.Signal? {
      ClosesAppend(s.closed, ev.x, x);
    }
  }

  lemma CheckStep(s: State, ev: Event, x: Stream)
    requires ev.Check? && Enabled(s, ev) && StreamOk(s, x)
    ensures StreamOk(Step(s, ev), x)
  {
    hide Closes, Handouts, IsHeld, Holds;
    SameItems(s, Step(s, ev), x);
    if ev.now - s.popped[ev.x] > PRIME_TTL_SECONDS {
      ClosesAppend(s.closed, ev.x, x);
    } else {
      HandoutsAppend(s.handed, (ev.x, s.popped[ev.x], ev.now), x);
    }
  }

  lemma StepKeepsValid(s: State, ev: Event)
    requires Valid(s)
    ensures Valid(Step(s, ev))
  {
    hide StreamOk;
    var t := Step(s, ev);
    forall x ensures StreamOk(t, x) {
      assert StreamOk(s, x);
      if Enabled(s, ev) {
        if ev.Open? || ev.Reject? || ev.Escape? {
          PrimingStep(s, ev, x);
        } else if ev.Begin? || ev.Fail? || ev.Take? {
          PopStep(s, ev, x);
        } else if ev.Store? {
          assert StreamOk(s, ev.x);
          StoreStep(s, ev, x);
        } else if ev.Check? {
          CheckStep(s, ev, x);
        } else {
          CloseStep(s, ev, x);
        }
      }
    }
  }

  lemma {:induction false} RunKeepsValid(s: State, evs: seq<Event>)
    requires Valid(s)
    ensures Valid(Run(s, evs))
    decreases |evs|
  {
    hide Valid;
    if evs != [] {
      StepKeepsValid(s, evs[0]);
      RunKeepsValid(Step(s, evs[0]), evs[1..]);
    }
  }

  /** Whatever the interleaving: one owner per opened stream, and nothing handed out is closed or stale. */
  lemma Ownership(evs: seq<Event>, x: Stream)
    ensures var s := Run(EMPTY, evs);
      && Owners(s, x) == One(x in s.upstreams)
      && (forall d, e :: Holds(s, d, x) && Holds(s, e, x) ==> d == e)
  {
    forall y ensures StreamOk(EMPTY, y) {
    }
    RunKeepsValid(EMPTY, evs);
    assert StreamOk(Run(EMPTY, evs), x);
  }

  lemma HandoutIsFresh(evs: seq<Event>, i: nat)
    requires i < |Run(EMPTY, evs).handed|
    ensures var s := Run(EMPTY, evs);
      && s.handed[i].0 !in s.closed
      && s.handed[i].2 - s.handed[i].1 <= PRIME_TTL_SECONDS
  {
    var s := Run(EMPTY, evs);
    var x := s.handed[i].0;
    Ownership(evs, x);
    RunKeepsValid(EMPTY, evs);
    HandoutCounted(s.handed, i);
    assert Closes(s.closed, x) == 0;
  }

  lemma {:induction false} HandoutCounted(handed: seq<(Stream, real, real)>, i: nat)
    requires i < |handed|
    ensures Handouts(handed, handed[i].0) >= 1
  {
    if i < |handed| - 1 {
      HandoutCounted(handed[..|handed| - 1], i);
    }
  }

  // ----- when is every opened stream accounted for? ----------------------

  /** No thread is in the middle of an operation. */
  predicate Settled(s: State) {
    s.priming == map[] && s.closing == {} && s.popped == map[]
  }

  ghost predicate Accounted(s: State, x: Stream) {
    IsHeld(s, x) || x in s.closed || Handouts(s.handed, x) == 1
  }

  /**
   Once all threads are done, an opened upstream is held, closed or handed out exactly when
   its priming did not blow up: a status that is not a number, or a content call that raises,
   leaves the upstream open for good.
   */
  lemma AccountedExactly(evs: seq<Event>, x: Stream)
    requires Settled(Run(EMPTY, evs)) && x in Run(EMPTY, evs).upstreams
    ensures var s := Run(EMPTY, evs); Accounted(s, x) <==> !Judge(s.upstreams[x]).Escaped?
  {
    forall y ensures StreamOk(EMPTY, y) {
    }
    RunKeepsValid(EMPTY, evs);
    assert StreamOk(Run(EMPTY, evs), x);
  }

  /** A warm-up whose content call raises: the handler clears the cache, nobody closes the upstream. */
  lemma ContentCallLeaks()
    ensures exists evs :: Settled(Run(EMPTY, evs)) && 7 in Run(EMPTY, evs).leaked && 7 !in Run(EMPTY, evs).closed
  {
    var reply := Reply(Some(200), true, true, []);
    var evs := [Begin("d", 1), Open(7, "d", reply), Escape(7), Fail("d"), Signal(Wake(1, None))];
    var s1 := Step(EMPTY, evs[0]);
    var s2 := Step(s1, evs[1]);
    var s3 := Step(s2, evs[2]);
    var s4 := Step(s3, evs[3]);
    var s5 := Step(s4, evs[4]);
    assert Judge(reply).Escaped?;
    assert s5.priming == map[] && s5.closing == {} && s5.closed == [];
    assert evs[1..][1..] == evs[2..] && evs[2..][1..] == evs[3..] && evs[3..][1..] == evs[4..] && evs[4..][1..] == [];
    assert Run(s4, evs[4..]) == s5;
    assert Run(s3, evs[3..]) == s5;
    assert Run(s2, evs[2..]) == s5;
    assert Run(s1, evs[1..]) == s5;
    assert Run(EMPTY, evs) == s5;
  }

  lemma RunShort(s: State, a: Event, b: Event)
    ensures Run(s, [a]) == Step(s, a)
    ensures Run(s, [a, b]) == Step(Step(s, a), b)
  {
    hide Step;
    assert [a][1..] == [] && [b][1..] == [] && [a, b][1..] == [b];
    var mid := Step(s, a);
    assert Run(mid, [b]) == Run(Step(mid, b), []);
  }

  // ----- waiting takers --------------------------------------------------

  /** The event has been set, or some thread is on its way to set it. */
  ghost predicate Woken(s: State, gate: Gate) {
    gate in s.signalled || exists w :: w in s.waking && w.gate == gate
  }

  /** The step sets the gate a taker of this device waits on. */
  predicate Wakes(s: State, ev: Event, device: Device) {
    Enabled(s, ev) && (
      (ev.Begin? && ev.device == device) || (ev.Fail? && ev.device == device)
      || (ev.Store? && s.priming[ev.x] == device && device != ""))
  }

  /** Some thread is to set the event with no close before it, or it has been set. */
  ghost predicate Sure(s: State, gate: Gate) {
    gate in s.signalled || Wake(gate, None) in s.waking
  }

  /** An event pending beside a parked stream is one that the storing thread sees to. */
  ghost predicate ParkedIsSure(s: State) {
    forall d :: d in s.pending && d in s.items ==> Sure(s, s.pending[d])
  }

  /** Every event is pending for one device at most. */
  ghost predicate GatesOk(s: State) {
    && (forall d :: d in s.pending ==> s.pending[d] in s.gates)
    && (forall d, e :: d in s.pending && e in s.pending && s.pending[d] == s.pending[e] ==> d == e)
  }

  lemma SureStays(s: State, ev: Event, gate: Gate)
    requires Sure(s, gate)
    ensures Sure(Step(s, ev), gate)
  {
    hide Judge, Held, Waiting;
  }

  lemma StepKeepsParked(s: State, ev: Event, d: Device)
    requires ParkedIsSure(s) && d in Step(s, ev).pending && d in Step(s, ev).items
    ensures Sure(Step(s, ev), Step(s, ev).pending[d])
  {
    if d in s.pending && d in s.items {
      SureStays(s, ev, s.pending[d]);
    }
  }

  lemma StepKeepsGates(s: State, ev: Event)
    requires GatesOk(s)
    ensures GatesOk(Step(s, ev))
  {
    hide Judge, Held, Waiting, Behind;
  }

  lemma {:induction false} RunKeepsWakeUps(s: State, evs: seq<Event>)
    requires ParkedIsSure(s) && GatesOk(s)
    ensures ParkedIsSure(Run(s, evs)) && GatesOk(Run(s, evs))
    decreases |evs|
  {
    if evs != [] {
      var t := Step(s, evs[0]);
      forall d | d in t.pending && d in t.items ensures Sure(t, t.pending[d]) {
        StepKeepsParked(s, evs[0], d);
      }
      StepKeepsGates(s, evs[0]);
      hide Step;
      RunKeepsWakeUps(t, evs[1..]);
    }
  }

  lemma {:induction false} SureGoesOn(s: State, evs: seq<Event>, gate: Gate)
    requires Sure(s, gate)
    ensures Sure(Run(s, evs), gate)
    decreases |evs|
  {
    if evs != [] {
      SureStays(s, evs[0], gate);
      hide Step;
      SureGoesOn(Step(s, evs[0]), evs[1..], gate);
    }
  }

  /**
   No lost wake-up: after any history, while an event is a device's pending one, the next begin, store or fail
   for the device sees to it that it is set, whatever happens then, closes that raise included.
   */
  lemma WaiterIsWoken(past: seq<Event>, ev: Event, after: seq<Event>, device: Device, gate: Gate)
    requires var s := Run(EMPTY, past); device in s.pending && s.pending[device] == gate && Wakes(s, ev, device)
    ensures Woken(Run(Step(Run(EMPTY, past), ev), after), gate)
  {
    var s := Run(EMPTY, past);
    RunKeepsWakeUps(EMPTY, past);
    hide Run;
    if device in s.items {
      SureStays(s, ev, gate);
    }
    assert Sure(Step(s, ev), gate);
    SureGoesOn(Step(s, ev), after, gate);
  }

  /** The event is no device's pending one any more, and nobody is going to set it. */
  ghost predicate LostToWaiters(s: State, gate: Gate) {
    gate in s.gates && !Woken(s, gate) && forall d :: d in s.pending ==> s.pending[d] != gate
  }

  lemma {:induction false} LostStays(s: State, evs: seq<Event>, gate: Gate)
    requires LostToWaiters(s, gate)
    ensures gate !in Run(s, evs).signalled
    decreases |evs|
  {
    if evs != [] {
      LostStep(s, evs[0], gate);
      hide Step, LostToWaiters;
      LostStays(Step(s, evs[0]), evs[1..], gate);
    }
  }

  lemma LostStep(s: State, ev: Event, gate: Gate)
    requires LostToWaiters(s, gate)
    ensures LostToWaiters(Step(s, ev), gate)
  {
    var t := Step(s, ev);
    forall w | w in t.waking ensures w.gate != gate {
      if w !in s.waking {
        assert exists d :: d in s.pending && s.pending[d] == w.gate;
      }
    }
  }

  /** An event somebody is on its way to set can be set. */
  lemma WokenCanBeSet(s: State, gate: Gate) returns (evs: seq<Event>)
    requires Woken(s, gate)
    ensures gate in Run(s, evs).signalled
  {
    if gate in s.signalled {
      evs := [];
    } else {
      var w :| w in s.waking && w.gate == gate;
      if w.behind.Some? && w.behind.value in s.closing {
        evs := [Close(w.behind.value), Signal(w)];
        RunShort(s, evs[0], evs[1]);
      } else {
        evs := [Signal(w)];
        RunShort(s, evs[0], evs[0]);
      }
    }
  }

  /**
   When a waiting viewer's event is lost: of the steps that end its being the device's pending one, after which
   no continuation ever sets it, there is exactly one kind, another viewer's take before anybody was to set it.
   */
  lemma WakeUpLostExactly(past: seq<Event>, ev: Event, device: Device, gate: Gate)
    requires var s := Run(EMPTY, past); var t := Step(s, ev);
      device in s.pending && s.pending[device] == gate && !(device in t.pending && t.pending[device] == gate)
    ensures var s := Run(EMPTY, past);
      (forall after :: gate !in Run(Step(s, ev), after).signalled) <==> ev == Take(device) && !Woken(s, gate)
  {
    var s := Run(EMPTY, past);
    var t := Step(s, ev);
    RunKeepsWakeUps(EMPTY, past);
    if ev == Take(device) && !Woken(s, gate) {
      assert LostToWaiters(t, gate);
      hide Run, Step, LostToWaiters;
      forall after ensures gate !in Run(t, after).signalled {
        LostStays(t, after, gate);
      }
    } else {
      RemovedIsWoken(s, ev, device, gate);
      hide Run, Step;
      var after := WokenCanBeSet(t, gate);
    }
  }

  lemma RemovedIsWoken(s: State, ev: Event, device: Device, gate: Gate)
    requires device in s.pending && s.pending[device] == gate
    requires var t := Step(s, ev); !(device in t.pending && t.pending[device] == gate)
    requires ev == Take(device) ==> Woken(s, gate)
    ensures Woken(Step(s, ev), gate)
  {
    hide Judge, Held;
    if !ev.Take? {
      assert Wake(gate, HeldOne(s, device)) in Step(s, ev).waking;
    }
  }

  /** Such a loss from the start: two viewers wait, one gives up and takes, the other's event is never set. */
  lemma OtherTakeLosesWakeUp()
    ensures var s := Run(EMPTY, [Begin("d", 1)]);
      && s.pending == map["d" := 1]
      && forall after :: 1 !in Run(Step(s, Take("d")), after).signalled
  {
    var s := Step(EMPTY, Begin("d", 1));
    RunShort(EMPTY, Begin("d", 1), Begin("d", 1));
    assert s.pending == map["d" := 1] && !Woken(s, 1);
    WakeUpLostExactly([Begin("d", 1)], Take("d"), "d", 1);
  }

  // ----- handing out -----------------------------------------------------

  lemma HeldIsOpen(s: State, device: Device)
    ensures Valid(s) && device in s.items ==> s.items[device].stream !in s.closed
  {
    if Valid(s) && device in s.items {
      var x := s.items[device].stream;
      assert StreamOk(s, x) && Holds(s, device, x);
    }
  }

  /**
   A taker's look at the clock: the stream it popped is handed out
   if it is at most 15 s old, and closed otherwise.
   */
  lemma CheckExact(s: State, x: Stream, now: real)
    requires x in s.popped
    ensures var t := Step(s, Check(x, now));
      && t.handed == (if now - s.popped[x] <= 15.0 then s.handed + [(x, s.popped[x], now)] else s.handed)
      && t.closed == (if now - s.popped[x] <= 15.0 then s.closed else s.closed + [x])
      && t.popped == s.popped - {x} && t.items == s.items && t.closing == s.closing
      && t.pending == s.pending && t.signalled == s.signalled
  {
  }

  /** The step takes, replaces or drops what is parked for the device. */
  predicate Disturbs(s: State, ev: Event, device: Device) {
    || ((ev.Begin? || ev.Fail? || ev.Take?) && ev.device == device)
    || (ev.Store? && ev.x in s.priming && s.priming[ev.x] == device)
  }

  ghost predicate Undisturbed(s: State, evs: seq<Event>, device: Device)
    decreases |evs|
  {
    evs == [] || (!Disturbs(s, evs[0], device) && Undisturbed(Step(s, evs[0]), evs[1..], device))
  }

  lemma {:induction false} ParkedStays(s: State, evs: seq<Event>, device: Device)
    requires device in s.items && Undisturbed(s, evs, device)
    ensures device in Run(s, evs).items && Run(s, evs).items[device] == s.items[device]
    decreases |evs|
  {
    if evs != [] {
      assert device in Step(s, evs[0]).items && Step(s, evs[0]).items[device] == s.items[device];
      hide Step, Disturbs;
      ParkedStays(Step(s, evs[0]), evs[1..], device);
    }
  }

  /**
   From storing to handing out, whatever else happens meanwhile: a stream stored for a device at `then` and not
   disturbed goes to the next taker, who looks at the clock at `now`, if and only if it is at most 15 s old.
   */
  lemma StoredIsHandedOut(s: State, x: Stream, stored: real, evs: seq<Event>, now: real)
    requires Enabled(s, Store(x, stored)) && s.priming[x] != ""
    requires Undisturbed(Step(s, Store(x, stored)), evs, s.priming[x])
    ensures var device := s.priming[x];
      var u := Run(Step(s, Store(x, stored)), evs);
      var t := Step(Step(u, Take(device)), Check(x, now));
      && t.handed == (if now - stored <= 15.0 then u.handed + [(x, stored, now)] else u.handed)
      && (now - stored > 15.0 ==> x in t.closed)
  {
    var device := s.priming[x];
    var parked := Step(s, Store(x, stored));
    assert parked.items[device] == Item(stored, x);
    ParkedStays(parked, evs, device);
    var u := Run(parked, evs);
    var taken := Step(u, Take(device));
    assert x in taken.popped && taken.popped[x] == stored && taken.handed == u.handed;
    CheckExact(taken, x, now);
  }

  // ----- the cache object ------------------------------------------------

  /** What a thread does after the lock section that popped a device's stream and event. */
  function CleanUp(s: State, device: Device): seq<Event> {
    (if device in s.items then [Close(s.items[device].stream)] else [])
    + (if device in s.pending then [Signal(Wake(s.pending[device], HeldOne(s, device)))] else [])
  }

  function BeginRun(s: State, device: Device, gate: Gate): seq<Event> {
    if device == "" then [] else [Begin(device, gate)] + CleanUp(s, device)
  }

  function StoreRun(s: State, device: Device, x: Stream, now: real): seq<Event> {
    [Store(x, now)] + (if device == "" then [] else CleanUp(s, device))
  }

  function FailRun(s: State, device: Device): seq<Event> {
    [Fail(device)] + CleanUp(s, device)
  }

  function TakeRun(s: State, device: Device, now: real): seq<Event> {
    if device == "" then []
    else [Take(device)] + (if device in s.items then [Check(s.items[device].stream, now)] else [])
  }

  /** Where a take without interference ends. */
  lemma TakeEnds(s: State, device: Device, now: real)
    requires device != ""
    ensures var t := Run(s, TakeRun(s, device, now));
      && t.items == s.items - {device} && t.pending == s.pending - {device} && t.signalled == s.signalled
      && (device !in s.items ==> t.handed == s.handed && t.closed == s.closed)
      && (device in s.items ==>
            var item := s.items[device];
            if now - item.storedAt > PRIME_TTL_SECONDS then t.handed == s.handed && t.closed == s.closed + [item.stream]
            else t.handed == s.handed + [(item.stream, item.storedAt, now)] && t.closed == s.closed)
  {
    var taken := Step(s, Take(device));
    var x := if device in s.items then s.items[device].stream else 0;
    RunShort(s, Take(device), Check(x, now));
    assert TakeRun(s, device, now) == if device in s.items then [Take(device), Check(x, now)] else [Take(device)];
    if device in s.items {
      assert taken.popped[x] == s.items[device].storedAt;
      CheckExact(taken, x, now);
    }
  }

  /** The runs depend on nothing but the parked streams and the pending events. */
  lemma SameCleanUp(s: State, t: State, device: Device, x: Stream, now: real)
    requires s.items == t.items && s.pending == t.pending
    ensures FailRun(s, device) == FailRun(t, device) && StoreRun(s, device, x, now) == StoreRun(t, device, x, now)
  {
  }

  datatype Opening = NoOpener | OpenRaises | OpensNothing | Opens(reply: Reply)

  datatype Outcome = Primed | Unprimed | Blew

  function PrimeRun(s: State, device: Device, x: Stream, opening: Opening, now: real): seq<Event> {
    if !opening.Opens? then FailRun(s, device)
    else
      [Open(x, device, opening.reply)] +
      match Judge(opening.reply)
      case Ready(_) => StoreRun(s, device, x, now)
      case Rejected => [Reject(x)] + FailRun(s, device)
      case Escaped => [Escape(x)]
  }

  /** The `k`-th piece is the first one with bytes, and nothing raises before it. */
  ghost predicate FirstBytesAt(pieces: seq<Piece>, k: int) {
    && 0 <= k < |pieces| && pieces[k].Bytes? && pieces[k].data != []
    && forall i :: 0 <= i < k ==> pieces[i] == Bytes([])
  }

  lemma {:induction false} FirstChunkExact(pieces: seq<Piece>)
    ensures FirstChunk(pieces).Some? ==> FirstBytesAt(pieces, FirstChunk(pieces).value)
    ensures FirstChunk(pieces).None? ==> forall k :: !FirstBytesAt(pieces, k)
    decreases |pieces|
  {
    if pieces != [] && pieces[0] == Bytes([]) {
      FirstChunkExact(pieces[1..]);
      forall k | FirstBytesAt(pieces, k) ensures FirstBytesAt(pieces[1..], k - 1) {
      }
    }
  }

  /** The platform's answer can be primed: a good status, content, and bytes before anything raises. */
  ghost predicate Primes(opening: Opening) {
    && opening.Opens? && opening.reply.status == Some(200)
    && opening.reply.hasContent && !opening.reply.contentRaises
    && exists k :: FirstBytesAt(opening.reply.pieces, k)
  }

  /** The answer is one whose handling raises outside the guarded loop. */
  ghost predicate BlowsUp(opening: Opening) {
    opening.Opens? &&
    (opening.reply.status.None?
     || (opening.reply.status == Some(200) && opening.reply.hasContent && opening.reply.contentRaises))
  }

  lemma JudgeExact(opening: Opening)
    ensures opening.Opens? && Judge(opening.reply).Ready? <==> Primes(opening)
    ensures opening.Opens? && Judge(opening.reply).Escaped? <==> BlowsUp(opening)
  {
    if opening.Opens? {
      FirstChunkExact(opening.reply.pieces);
    }
  }

  method FirstPiece(pieces: seq<Piece>) returns (first: Option<nat>)
    ensures first == FirstChunk(pieces)
    ensures if first.Some? then FirstBytesAt(pieces, first.value) else forall k :: !FirstBytesAt(pieces, k)
  {
    FirstChunkExact(pieces);
    for i := 0 to |pieces|
      invariant FirstChunk(pieces).Some? <==> FirstChunk(pieces[i..]).Some?
      invariant FirstChunk(pieces).Some? ==> FirstChunk(pieces).value == FirstChunk(pieces[i..]).value + i
    {
      assert pieces[i..][1..] == pieces[i + 1..];
      if pieces[i].Raises? {
        return None;
      }
      if pieces[i].data != [] {
        return Some(i);
      }
    }
    return None;
  }

  /**
   One cache, its operations run without interference. `world` is the step system's view;
   device ids arrive stripped, `gate` is the freshly made event.
   */
  class MjpegPrimeCache {
    var pending: map<Device, Gate>
    var items: map<Device, Item>
    var closed: seq<Stream>
    var signalled: set<Gate>
    ghost var world: State

    ghost predicate Coupled()
      reads this
    {
      && world.pending == pending && world.items == items
      && world.closed == closed && world.signalled == signalled
    }

    constructor ()
      ensures Coupled() && world == EMPTY
    {
      pending, items, closed, signalled, world := map[], map[], [], {}, EMPTY;
    }

    static function ParkedStream(item: Option<Item>): seq<Stream> {
      if item.Some? then [item.value.stream] else []
    }

    static function WaitersEvent(event: Option<Gate>): set<Gate> {
      if event.Some? then {event.value} else {}
    }

    function ItemOf(device: Device): Option<Item>
      reads this
    {
      if device in items then Some(items[device]) else None
    }

    function EventOf(device: Device): Option<Gate>
      reads this
    {
      if device in pending then Some(pending[device]) else None
    }

    method Discard(device: Device, ghost before: State, oldItem: Option<Item>, event: Option<Gate>)
      requires Coupled()
      requires oldItem == (if device in before.items then Some(before.items[device]) else None)
      requires event == (if device in before.pending then Some(before.pending[device]) else None)
      requires Held(before, device) <= world.closing && Waiting(before, device) <= world.waking
      modifies this
      ensures Coupled() && world == Run(old(world), CleanUp(before, device))
      ensures items == old(items) && pending == old(pending)
      ensures closed == old(closed) + ParkedStream(oldItem) && signalled == old(signalled) + WaitersEvent(event)
    {
      ghost var start := world;
      ghost var behind := if oldItem.Some? then Some(oldItem.value.stream) else None;
      ghost var wake := Wake(if event.Some? then event.value else 0, behind);
      if oldItem.Some? {
        closed := closed + [oldItem.value.stream];
        world := Step(world, Close(oldItem.value.stream));
        RunShort(start, Close(oldItem.value.stream), Signal(wake));
      }
      if event.Some? {
        assert wake in Waiting(before, device);
        RunShort(world, Signal(wake), Signal(wake));
        signalled := signalled + {event.value};
        world := Step(world, Signal(wake));
      }
      assert CleanUp(before, device) ==
        if oldItem.None? then (if event.None? then [] else [Signal(wake)])
        else if event.None? then [Close(oldItem.value.stream)]
        else [Close(oldItem.value.stream), Signal(wake)];
    }

    method Begin(device: Device, gate: Gate)
      requires Coupled() && gate !in world.gates
      modifies this
      ensures Coupled() && world == Run(old(world), BeginRun(old(world), device, gate))
      ensures device == "" ==> pending == old(pending) && items == old(items) && closed == old(closed)
      ensures device != "" ==>
        && pending == old(pending)[device := gate] && items == old(items) - {device}
        && closed == old(closed) + ParkedStream(old(ItemOf(device)))
        && signalled == old(signalled) + WaitersEvent(old(EventOf(device)))
    {
      if device == "" {
        return;
      }
      ghost var before := world;
      var previous := if device in pending then Some(pending[device]) else None;
      var held := if device in items then Some(items[device]) else None;
      items := items - {device};
      pending := pending[device := gate];
      world := Step(world, Event.Begin(device, gate));
      Discard(device, before, held, previous);
    }

    method Store(device: Device, x: Stream, now: real)
      requires Coupled() && Enabled(world, Event.Store(x, now)) && world.priming[x] == device
      modifies this
      ensures Coupled() && world == Run(old(world), StoreRun(old(world), device, x, now))
      ensures pending == old(pending)
      ensures device == "" ==> items == old(items) && closed == old(closed) + [x] && signalled == old(signalled)
      ensures device != "" ==>
        && items == old(items)[device := Item(now, x)] && closed == old(closed) + ParkedStream(old(ItemOf(device)))
        && signalled == old(signalled) + WaitersEvent(old(EventOf(device)))
    {
      ghost var before := world;
      if device == "" {
        closed := closed + [x];
        world := Step(world, Event.Store(x, now));
        return;
      }
      var event := if device in pending then Some(pending[device]) else None;
      var held := if device in items then Some(items[device]) else None;
      items := items[device := Item(now, x)];
      world := Step(world, Event.Store(x, now));
      Discard(device, before, held, event);
    }

    method Fail(device: Device)
      requires Coupled()
      modifies this
      ensures Coupled() && world == Run(old(world), FailRun(old(world), device))
      ensures pending == old(pending) - {device} && items == old(items) - {device}
      ensures closed == old(closed) + ParkedStream(old(ItemOf(device)))
      ensures signalled == old(signalled) + WaitersEvent(old(EventOf(device)))
    {
      ghost var before := world;
      var event := if device in pending then Some(pending[device]) else None;
      var held := if device in items then Some(items[device]) else None;
      pending := pending - {device};
      items := items - {device};
      world := Step(world, Event.Fail(device));
      Discard(device, before, held, event);
    }

    method Take(device: Device, now: real) returns (taken: Option<Stream>)
      requires Coupled()
      modifies this
      ensures Coupled() && world == Run(old(world), TakeRun(old(world), device, now))
      ensures items == (if device == "" then old(items) else old(items) - {device})
      ensures pending == (if device == "" then old(pending) else old(pending) - {device})
      ensures signalled == old(signalled)
      // a parked stream is handed out exactly while it is fresh, and closed otherwise
      ensures taken.Some? <==> device != "" && device in old(items) && now - old(items)[device].storedAt <= 15.0
      ensures taken.Some? ==> taken.value == old(items)[device].stream && closed == old(closed)
      ensures taken.Some? && Valid(old(world)) ==> taken.value !in closed
      ensures taken.None? ==> closed == old(closed) + if device == "" then [] else ParkedStream(old(ItemOf(device)))
      ensures taken.Some? ==> world.handed == old(world).handed + [(taken.value, old(items)[device].storedAt, now)]
      ensures taken.None? ==> world.handed == old(world).handed
    {
      if device == "" {
        return None;
      }
      HeldIsOpen(world, device);
      TakeEnds(world, device, now);
      hide Valid, Step, TakeRun;
      var item := if device in items then Some(items[device]) else None;
      items := items - {device};
      pending := pending - {device};
      world := Run(world, TakeRun(world, device, now));
      if item.None? {
        return None;
      }
      if now - item.value.storedAt > PRIME_TTL_SECONDS {
        closed := closed + [item.value.stream];
        return None;
      }
      return Some(item.value.stream);
    }

    method PrimeFromPlatform(device: Device, x: Stream, opening: Opening, now: real) returns (outcome: Outcome)
      requires Coupled() && x !in world.upstreams
      modifies this
      ensures Coupled() && world == Run(old(world), PrimeRun(old(world), device, x, opening, now))
      ensures outcome.Blew? <==> opening.Opens? && Judge(opening.reply).Escaped?
      ensures outcome.Primed? <==> opening.Opens? && Judge(opening.reply).Ready?
      ensures (outcome.Primed? <==> Primes(opening)) && (outcome.Blew? <==> BlowsUp(opening))
      ensures outcome.Primed? ==> pending == old(pending)
      ensures outcome.Primed? && device != "" ==>
        items == old(items)[device := Item(now, x)] && closed == old(closed) + ParkedStream(old(ItemOf(device)))
      ensures outcome.Primed? && device == "" ==> items == old(items) && closed == old(closed) + [x]
      ensures outcome.Unprimed? ==>
        && pending == old(pending) - {device} && items == old(items) - {device}
        && closed == old(closed) + (if opening.Opens? then [x] else []) + ParkedStream(old(ItemOf(device)))
      ensures outcome.Blew? ==> items == old(items) && pending == old(pending) && closed == old(closed)
      ensures outcome.Blew? || (outcome.Primed? && device == "") ==> signalled == old(signalled)
      ensures outcome.Unprimed? || (outcome.Primed? && device != "") ==>
        signalled == old(signalled) + WaitersEvent(old(EventOf(device)))
    {
      JudgeExact(opening);
      hide FirstChunk, Held, Waiting, HeldOne, Behind, CleanUp, FailRun, StoreRun, Primes, BlowsUp;
      if !opening.Opens? {
        Fail(device);
        return Unprimed;
      }
      var reply := opening.reply;
      ghost var before := world;
      ghost var evs := PrimeRun(before, device, x, opening, now);
      world := Step(world, Open(x, device, reply));
      RunShort(before, Open(x, device, reply), Escape(x));
      SameCleanUp(before, world, device, x, now);
      if reply.status.None? {
        world := Step(world, Escape(x));
        assert evs == [Open(x, device, reply), Escape(x)];
        return Blew;
      }
      if reply.status.value != 200 || !reply.hasContent {
        CloseAndFail(device, x);
        assert evs[1..] == [Reject(x)] + FailRun(before, device);
        return Unprimed;
      }
      if reply.contentRaises {
        world := Step(world, Escape(x));
        assert evs == [Open(x, device, reply), Escape(x)];
        return Blew;
      }
      var first := FirstPiece(reply.pieces);
      if first.None? {
        CloseAndFail(device, x);
        assert evs[1..] == [Reject(x)] + FailRun(before, device);
        return Unprimed;
      }
      Store(device, x, now);
      assert evs[1..] == StoreRun(before, device, x, now);
      return Primed;
    }

    method CloseAndFail(device: Device, x: Stream)
      requires Coupled() && Enabled(world, Reject(x))
      modifies this
      ensures Coupled() && world == Run(old(world), [Reject(x)] + FailRun(old(world), device))
      ensures pending == old(pending) - {device} && items == old(items) - {device}
      ensures closed == old(closed) + [x] + ParkedStream(old(ItemOf(device)))
      ensures signalled == old(signalled) + WaitersEvent(old(EventOf(device)))
    {
      ghost var before := world;
      closed := closed + [x];
      world := Step(world, Reject(x));
      Fail(device);
      assert ([Reject(x)] + FailRun(before, device))[1..] == FailRun(before, device);
    }

    /** The background job: whatever blows up is answered by clearing the device. */
    method WarmUp(device: Device, x: Stream, opening: Opening, now: real)
      requires Coupled() && x !in world.upstreams
      modifies this
      ensures Coupled()
      ensures var primed := Run(old(world), PrimeRun(old(world), device, x, opening, now));
        world ==
          if opening.Opens? && Judge(opening.reply).Escaped? then Run(primed, FailRun(primed, device)) else primed
      ensures Primes(opening) && device != "" ==> items == old(items)[device := Item(now, x)] && pending == old(pending)
      ensures !Primes(opening) ==> items == old(items) - {device} && pending == old(pending) - {device}
    {
      var outcome := PrimeFromPlatform(device, x, opening, now);
      if outcome.Blew? {
        Fail(device);
      }
    }
  }
}
