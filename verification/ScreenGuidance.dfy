/**
 The coalescing screen-state cache of one phone: any number of pollers, one read of the
 phone at a time, one read per cache lifetime. Steps are the sections under the cache lock
 and the acquisition of the per-serial lock.
 */
module ScreenGuidance {
  import opened Basics

  type Poller = int

  const CACHE_TTL_SECONDS := 0.4

  /** What the dashboard is told about a raw state line read at a wall-clock time. */
  type Payload = string

  datatype Config = Config(show: (string, real) -> Payload)

  datatype Place =
    | Looking               // about to check the cache
    | Waiting               // missed; wants the serial lock
    | Inside                // holds the serial lock, about to check again
    | Reading               // holds the serial lock, the phone is being read
    | Merged(payload: Payload) // holds the serial lock, answer known, not stored yet

  datatype Read = Read(raw: string, wall: real)
  datatype Stored = Stored(at: real, payload: Payload)
  datatype Source = FromCache(read: nat) | FromPhone(read: nat) | FromMemory
  datatype Answer = Answer(at: real, payload: Payload, source: Source)

  datatype State = State(
    cache: Option<Stored>,
    lastRaw: string,
    holder: Option<Poller>,
    pollers: map<Poller, Place>,
    clock: real,
    starts: seq<real>,     // when each read of the phone began
    lines: seq<Read>,      // what each read brought
    stores: seq<Stored>,   // what was put in the cache for each read
    answers: seq<Answer>)

  datatype Event =
    | Poll(p: Poller, now: real)
    | PollSkippingProbe(p: Poller, now: real, wall: real)
    | Look(p: Poller, now: real)
    | Enter(p: Poller, now: real)
    | Recheck(p: Poller, now: real)
    | Finish(p: Poller, now: real, raw: string, wall: real)
    | Store(p: Poller, now: real)

  function Initial(clock: real): State {
    State(None, "", None, map[], clock, [], [], [], [])
  }

  predicate Blank(raw: string) {
    forall i :: 0 <= i < |raw| ==> IsSpace(raw[i])
  }

  predicate Hit(s: State, now: real) {
    s.cache.Some? && now - s.cache.value.at < CACHE_TTL_SECONDS
  }

  /** The last line that was not blank; empty if there was none. */
  function LastLine(lines: seq<Read>): string {
    if lines == [] then ""
    else if !Blank(lines[|lines| - 1].raw) then lines[|lines| - 1].raw
    else LastLine(lines[..|lines| - 1])
  }

  predicate Enabled(s: State, ev: Event) {
    s.clock <= ev.now &&
    match ev
    case Poll(p, _) => p !in s.pollers
    case PollSkippingProbe(p, _, _) => p !in s.pollers
    case Look(p, _) => p in s.pollers && s.pollers[p].Looking?
    case Enter(p, _) => p in s.pollers && s.pollers[p].Waiting? && s.holder.None?
    case Recheck(p, _) => p in s.pollers && s.pollers[p].Inside?
    case Finish(p, _, _, _) => p in s.pollers && s.pollers[p].Reading?
    case Store(p, _) => p in s.pollers && s.pollers[p].Merged?
  }

  function Leave(s: State, p: Poller, answer: Answer): State {
    s.(pollers := s.pollers - {p}, answers := s.answers + [answer])
  }

  function Cached(s: State, now: real): Answer
    requires s.cache.Some? && |s.stores| > 0
  {
    Answer(now, s.cache.value.payload, FromCache(|s.stores| - 1))
  }

  function Step(cfg: Config, s: State, ev: Event): State {
    if !Enabled(s, ev) || (s.cache.Some? && s.stores == []) then s
    else
      var c := s.(clock := ev.now);
      match ev
      case Poll(p, now) =>
        c.(pollers := s.pollers[p := Looking])
      case PollSkippingProbe(p, now, wall) =>
        if Hit(s, now) then Leave(c, p, Cached(s, now))
        else if s.lastRaw != "" then Leave(c, p, Answer(now, cfg.show(s.lastRaw, wall), FromMemory))
        else c.(pollers := s.pollers[p := Looking])
      case Look(p, now) =>
        if Hit(s, now) then Leave(c, p, Cached(s, now)) else c.(pollers := s.pollers[p := Waiting])
      case Enter(p, now) =>
        c.(pollers := s.pollers[p := Inside], holder := Some(p))
      case Recheck(p, now) =>
        if Hit(s, now) then Leave(c, p, Cached(s, now)).(holder := None)
        else c.(pollers := s.pollers[p := Reading], starts := s.starts + [now])
      case Finish(p, now, raw, wall) =>
        var line := if Blank(raw) then s.lastRaw else raw;
        c.(pollers := s.pollers[p := Merged(cfg.show(line, wall))], lastRaw := line,
           lines := s.lines + [Read(raw, wall)])
      case Store(p, now) =>
        var stored := Stored(now, s.pollers[p].payload);
        Leave(c, p, Answer(now, stored.payload, FromPhone(|s.stores|)))
          .(cache := Some(stored), stores := s.stores + [stored], holder := None)
  }

  function Run(cfg: Config, s: State, evs: seq<Event>): State
    decreases |evs|
  {
    if evs == [] then s else Run(cfg, Step(cfg, s, evs[0]), evs[1..])
  }

  // ----- invariant -------------------------------------------------------

  predicate HoldsLock(place: Place) {
    place.Inside? || place.Reading? || place.Merged?
  }

  ghost predicate PollerOk(s: State, p: Poller) {
    p in s.pollers && HoldsLock(s.pollers[p]) ==> s.holder == Some(p)
  }

  /** Reads, lines and stored answers correspond; at most one of them is still on its way. */
  ghost predicate Progress(cfg: Config, s: State) {
    if s.holder.Some? then
      && s.holder.value in s.pollers
      && match s.pollers[s.holder.value]
         case Inside => |s.starts| == |s.stores| && |s.lines| == |s.stores|
         case Reading => |s.starts| == |s.stores| + 1 && |s.lines| == |s.stores|
         case Merged(payload) =>
           && |s.starts| == |s.stores| + 1 && |s.lines| == |s.stores| + 1
           && payload == cfg.show(LastLine(s.lines), s.lines[|s.stores|].wall)
         case _ => false
    else |s.starts| == |s.stores| && |s.lines| == |s.stores|
  }

  ghost predicate StoredOk(cfg: Config, s: State, i: nat)
    requires i < |s.stores|
  {
    && i < |s.lines| && i < |s.starts|
    && s.stores[i].payload == cfg.show(LastLine(s.lines[..i + 1]), s.lines[i].wall)
    && s.starts[i] <= s.stores[i].at <= s.clock
  }

  /** The `i`-th read began at least a cache lifetime after the previous answer was stored. */
  ghost predicate Spaced(s: State, i: nat)
    requires i < |s.starts|
  {
    i > 0 ==> i - 1 < |s.stores| && s.starts[i] - s.stores[i - 1].at >= CACHE_TTL_SECONDS
  }

  ghost predicate AnswerOk(s: State, a: Answer) {
    match a.source
    case FromCache(i) =>
      && i < |s.stores| && a.payload == s.stores[i].payload
      && s.stores[i].at <= a.at < s.stores[i].at + CACHE_TTL_SECONDS
    case FromPhone(i) => i < |s.stores| && a.payload == s.stores[i].payload && a.at == s.stores[i].at
    case FromMemory => true
  }

  ghost predicate Books(cfg: Config, s: State) {
    && s.cache == (if s.stores == [] then None else Some(s.stores[|s.stores| - 1]))
    && s.lastRaw == LastLine(s.lines)
    && (forall i :: 0 <= i < |s.stores| ==> StoredOk(cfg, s, i))
    && (forall i :: 0 <= i < |s.starts| ==> Spaced(s, i) && s.starts[i] <= s.clock)
    && (forall i :: 0 <= i < |s.answers| ==> AnswerOk(s, s.answers[i]))
  }

  ghost predicate Valid(cfg: Config, s: State) {
    && (forall p :: PollerOk(s, p))
    && Progress(cfg, s)
    && Books(cfg, s)
  }

  lemma LastLineStep(lines: seq<Read>, r: Read)
    ensures LastLine(lines + [r]) == if Blank(r.raw) then LastLine(lines) else r.raw
  {
    assert (lines + [r])[..|lines|] == lines;
  }

  lemma StepKeepsPollers(cfg: Config, s: State, ev: Event)
    requires Valid(cfg, s)
    ensures forall p :: PollerOk(Step(cfg, s, ev), p)
    ensures Progress(cfg, Step(cfg, s, ev))
  {
    hide StoredOk, Spaced, AnswerOk, LastLine, Blank;
    var t := Step(cfg, s, ev);
    assert PollerOk(s, ev.p);
    forall p ensures PollerOk(t, p) {
      assert PollerOk(s, p);
    }
    if ev.Finish? {
      LastLineStep(s.lines, Read(ev.raw, ev.wall));
    }
  }

  lemma StepKeepsStores(cfg: Config, s: State, ev: Event, i: nat)
    requires Valid(cfg, s) && i < |Step(cfg, s, ev).stores|
    ensures StoredOk(cfg, Step(cfg, s, ev), i)
  {
    hide Spaced, AnswerOk, LastLine, Blank;
    var t := Step(cfg, s, ev);
    assert PollerOk(s, ev.p);
    if i < |s.stores| {
      assert StoredOk(cfg, s, i);
      assert t.lines[..i + 1] == s.lines[..i + 1];
    } else {
      assert t.lines[..i + 1] == s.lines;
    }
  }

  lemma StepKeepsSpacing(cfg: Config, s: State, ev: Event, i: nat)
    requires Valid(cfg, s) && i < |Step(cfg, s, ev).starts|
    ensures Spaced(Step(cfg, s, ev), i) && Step(cfg, s, ev).starts[i] <= Step(cfg, s, ev).clock
  {
    hide StoredOk, AnswerOk, LastLine, Blank;
    assert PollerOk(s, ev.p);
    if i < |s.starts| {
      assert Spaced(s, i);
    }
  }

  lemma StepKeepsAnswers(cfg: Config, s: State, ev: Event, i: nat)
    requires Valid(cfg, s) && i < |Step(cfg, s, ev).answers|
    ensures AnswerOk(Step(cfg, s, ev), Step(cfg, s, ev).answers[i])
  {
    hide Spaced, LastLine, Blank;
    if i < |s.answers| {
      assert AnswerOk(s, s.answers[i]);
    } else if s.stores != [] {
      assert StoredOk(cfg, s, |s.stores| - 1);
    }
  }

  lemma StepKeepsValid(cfg: Config, s: State, ev: Event)
    requires Valid(cfg, s)
    ensures Valid(cfg, Step(cfg, s, ev))
  {
    var t := Step(cfg, s, ev);
    StepKeepsPollers(cfg, s, ev);
    hide StoredOk, Spaced, AnswerOk, LastLine, Blank, Progress, PollerOk;
    if ev.Finish? {
      LastLineStep(s.lines, Read(ev.raw, ev.wall));
    }
    forall i | 0 <= i < |t.stores| ensures StoredOk(cfg, t, i) {
      StepKeepsStores(cfg, s, ev, i);
    }
    forall i | 0 <= i < |t.starts| ensures Spaced(t, i) && t.starts[i] <= t.clock {
      StepKeepsSpacing(cfg, s, ev, i);
    }
    forall i | 0 <= i < |t.answers| ensures AnswerOk(t, t.answers[i]) {
      StepKeepsAnswers(cfg, s, ev, i);
    }
  }

  lemma {:induction false} RunKeepsValid(cfg: Config, s: State, evs: seq<Event>)
    requires Valid(cfg, s)
    ensures Valid(cfg, Run(cfg, s, evs))
    decreases |evs|
  {
    hide Valid, Step;
    if evs != [] {
      StepKeepsValid(cfg, s, evs[0]);
      RunKeepsValid(cfg, Step(cfg, s, evs[0]), evs[1..]);
    }
  }

  // ----- what pollers can rely on ----------------------------------------

  ghost function After(cfg: Config, clock: real, evs: seq<Event>): State {
    Run(cfg, Initial(clock), evs)
  }

  /** However many pollers there are, at most one of them is reading the phone. */
  lemma OneReadInFlight(cfg: Config, clock: real, evs: seq<Event>, p: Poller, q: Poller)
    ensures var s := After(cfg, clock, evs);
      p in s.pollers && q in s.pollers && s.pollers[p].Reading? && s.pollers[q].Reading? ==> p == q
  {
    RunKeepsValid(cfg, Initial(clock), evs);
    var s := After(cfg, clock, evs);
    assert PollerOk(s, p) && PollerOk(s, q);
  }

  /** Every read but the first starts a cache lifetime or more after the previous result was stored. */
  lemma ReadsAreSpaced(cfg: Config, clock: real, evs: seq<Event>, i: nat)
    requires 0 < i < |After(cfg, clock, evs).starts|
    ensures var s := After(cfg, clock, evs);
      i - 1 < |s.stores| && s.starts[i] - s.stores[i - 1].at >= 0.4 && s.starts[i] - s.starts[i - 1] >= 0.4
  {
    RunKeepsValid(cfg, Initial(clock), evs);
    var s := After(cfg, clock, evs);
    assert Spaced(s, i);
    assert StoredOk(cfg, s, i - 1);
  }

  /** A cached answer is younger than the cache lifetime and equals what that read stored. */
  lemma CachedAnswersAreRecent(cfg: Config, clock: real, evs: seq<Event>, k: nat)
    requires k < |After(cfg, clock, evs).answers| && After(cfg, clock, evs).answers[k].source.FromCache?
    ensures var s := After(cfg, clock, evs); var a := s.answers[k]; var i := a.source.read;
      && i < |s.stores| && i < |s.lines|
      && s.stores[i].at <= a.at < s.stores[i].at + 0.4
      && a.payload == cfg.show(LastLine(s.lines[..i + 1]), s.lines[i].wall)
  {
    RunKeepsValid(cfg, Initial(clock), evs);
    var s := After(cfg, clock, evs);
    assert AnswerOk(s, s.answers[k]);
    assert StoredOk(cfg, s, s.answers[k].source.read);
  }

  ghost predicate OnlySpaces(raw: string) {
    forall c :: c in raw ==> IsSpace(c)
  }

  lemma BlankIsSpaces(raw: string)
    ensures Blank(raw) <==> OnlySpaces(raw)
  {
    assert forall i :: 0 <= i < |raw| ==> raw[i] in raw;
  }

  /**
   The line shown is that of the latest read with anything but white space in it: such a read shows its own
   line, a blank one repeats the line before it, and no line is shown only if none ever came.
   */
  lemma {:induction false} BlankReadRepeats(lines: seq<Read>, i: nat)
    requires i < |lines|
    ensures LastLine(lines[..i + 1]) == if OnlySpaces(lines[i].raw) then LastLine(lines[..i]) else lines[i].raw
    ensures LastLine(lines) == "" <==> forall k :: 0 <= k < |lines| ==> OnlySpaces(lines[k].raw)
    decreases |lines|
  {
    assert lines[..i + 1] == lines[..i] + [lines[i]];
    LastLineStep(lines[..i], lines[i]);
    BlankIsSpaces(lines[i].raw);
    var n := |lines| - 1;
    BlankIsSpaces(lines[n].raw);
    hide OnlySpaces;
    if n > 0 {
      BlankReadRepeats(lines[..n], 0);
    }
    assert forall k :: 0 <= k < n ==> lines[..n][k] == lines[k];
  }

  /**
   Skipping the probe answers from the last line once the cache is stale, however late the poll
   comes: its age has no bound, only cached answers do. Without a line yet, the poll reads the phone.
   */
  lemma SkippedProbe(cfg: Config, s: State, p: Poller, now: real, wall: real)
    requires Valid(cfg, s) && p !in s.pollers && s.clock <= now && !Hit(s, now)
    ensures var t := Step(cfg, s, PollSkippingProbe(p, now, wall));
      && t.starts == s.starts && t.cache == s.cache
      && if LastLine(s.lines) != ""
        then t.answers == s.answers + [Answer(now, cfg.show(LastLine(s.lines), wall), FromMemory)]
         else t.answers == s.answers && p in t.pollers && t.pollers[p].Looking?
  {
  }

  // ----- one poll without interference -----------------------------------

  /** The module's dictionaries for one phone; `world` is the step system's view of them. */
  class GuidanceCache {
    const cfg: Config
    var cache: Option<Stored>
    var lastRaw: string
    ghost var world: State

    ghost predicate Coupled()
      reads this
    {
      && world.cache == cache && world.lastRaw == lastRaw
      && world.holder.None? && world.pollers == map[] && Valid(cfg, world)
    }

    constructor (cfg: Config, clock: real)
      ensures Coupled() && this.cfg == cfg && world == Initial(clock)
    {
      this.cfg, cache, lastRaw, world := cfg, None, "", Initial(clock);
    }

    ghost predicate Recent(cache: Option<Stored>, now: real) {
      cache.Some? && now - cache.value.at < 0.4
    }

    /** `now` is the clock at the cache checks, `raw` what the phone would answer, `later` the clock after that. */
    method CachedDeviceScreenGuidance(p: Poller, skipProbe: bool, now: real, raw: string, later: real, wall: real)
      returns (payload: Payload)
      requires Coupled() && world.clock <= now <= later
      modifies this
      ensures Coupled()
      // an answer less than 0.4 s old is repeated
      ensures Recent(old(cache), now) ==> payload == old(cache).value.payload
      // a poll that skips the probe shows the last line there was
      ensures !Recent(old(cache), now) && skipProbe && old(lastRaw) != "" ==> payload == cfg.show(old(lastRaw), wall)
      ensures Recent(old(cache), now) || (skipProbe && old(lastRaw) != "") ==>
        world.starts == old(world).starts && cache == old(cache) && lastRaw == old(lastRaw)
      // any other reads the phone once and stores what it shows
      ensures !Recent(old(cache), now) && !(skipProbe && old(lastRaw) != "") ==>
        && world.starts == old(world).starts + [now] && world.lines == old(world).lines + [Read(raw, wall)]
        && payload == cfg.show(LastLine(world.lines), wall) && cache == Some(Stored(later, payload))
        && lastRaw == if OnlySpaces(raw) then old(lastRaw) else raw
    {
      hide Valid, LastLine, Blank, OnlySpaces;
      LastRawIsLastLine(cfg, world);
      if skipProbe {
        Advance(PollSkippingProbe(p, now, wall));
        if cache.Some? && now - cache.value.at < CACHE_TTL_SECONDS {
          return cache.value.payload;
        }
        if lastRaw != "" {
          return cfg.show(lastRaw, wall);
        }
      } else {
        Advance(Poll(p, now));
      }
      LastRawIsLastLine(cfg, world);
      if cache.Some? && now - cache.value.at < CACHE_TTL_SECONDS {
        Advance(Look(p, now));
        return cache.value.payload;
      }
      payload := ReadPhone(p, now, raw, later, wall);
    }

    /** The miss path, under the per-serial lock. */
    method ReadPhone(p: Poller, now: real, raw: string, later: real, wall: real) returns (payload: Payload)
      requires world.cache == cache && world.lastRaw == lastRaw && world.holder.None? && Valid(cfg, world)
      requires world.pollers == map[p := Looking] && world.clock <= now <= later && !Hit(world, now)
      modifies this
      ensures Coupled()
      ensures world.starts == old(world).starts + [now] && world.lines == old(world).lines + [Read(raw, wall)]
      ensures payload == cfg.show(LastLine(world.lines), wall) && cache == Some(Stored(later, payload))
      ensures lastRaw == if OnlySpaces(raw) then old(lastRaw) else raw
    {
      BlankIsSpaces(raw);
      hide Valid, LastLine, Blank, Step, Hit, OnlySpaces;
      StartReading(p, now);
      LastLineStep(world.lines, Read(raw, wall));
      LastRawIsLastLine(cfg, world);
      if !Blank(raw) {
        lastRaw := raw;
      }
      payload := cfg.show(lastRaw, wall);
      StoreReading(p, raw, later, wall, payload);
      cache := Some(Stored(later, payload));
    }

    ghost method StartReading(p: Poller, now: real)
      requires Valid(cfg, world) && world.holder.None? && world.pollers == map[p := Looking]
      requires world.clock <= now && !Hit(world, now)
      modifies this`world
      ensures Valid(cfg, world)
      ensures world == old(world).(pollers := map[p := Reading], holder := Some(p), clock := now,
                                   starts := old(world).starts + [now])
    {
      hide Valid;
      LastRawIsLastLine(cfg, world);
      Advance(Look(p, now));
      assert world.pollers == map[p := Waiting];
      Advance(Enter(p, now));
      assert world.pollers == map[p := Inside];
      Advance(Recheck(p, now));
      assert world.pollers == map[p := Reading];
    }

    ghost method StoreReading(p: Poller, raw: string, later: real, wall: real, payload: Payload)
      requires Valid(cfg, world) && world.pollers == map[p := Reading] && world.clock <= later
      requires payload == cfg.show(if Blank(raw) then world.lastRaw else raw, wall)
      modifies this`world
      ensures Valid(cfg, world) && world.pollers == map[] && world.holder.None?
      ensures world.starts == old(world).starts && world.lines == old(world).lines + [Read(raw, wall)]
      ensures world.cache == Some(Stored(later, payload))
      ensures world.lastRaw == if Blank(raw) then old(world).lastRaw else raw
    {
      hide Valid, Blank;
      LastRawIsLastLine(cfg, world);
      Advance(Finish(p, later, raw, wall));
      assert world.pollers == map[p := Merged(payload)];
      Advance(Store(p, later));
      assert world.pollers == map[];
    }

    ghost method Advance(ev: Event)
      requires Valid(cfg, world)
      modifies this`world
      ensures world == Step(cfg, old(world), ev) && Valid(cfg, world)
    {
      StepKeepsValid(cfg, world, ev);
      world := Step(cfg, world, ev);
    }
  }

  lemma LastRawIsLastLine(cfg: Config, s: State)
    requires Valid(cfg, s)
    ensures s.lastRaw == LastLine(s.lines)
    ensures s.cache.Some? ==> s.stores != []
  {
  }
}
