/**
 Health observations and rate-limited reboots, one slot at a time: the failure
 counter, the cooldown, the deferrals, and the dry run that claims to mirror them.
 */
module HealthRecovery {
  import opened Basics

  datatype Config = Config(threshold: int, cooldown: real, recoveryEnabled: bool)

  /**
   One probe result, the clock at the cooldown check, and what a recovery would meet. A dry run
   stamps the recovery at once, at `dryStamp`; a live one when its reboot has returned, at `liveStamp`.
   */
  datatype Observation = Observation(
    healthy: bool, checkedAt: real, dryStamp: real, liveStamp: real, slotFree: bool, gateFree: bool, rebootWorks: bool)

  /** A `lastReboot` of None stands for minus infinity. */
  datatype SlotState = SlotState(failures: nat, lastReboot: Option<real>)

  const FRESH := SlotState(0, None)

  datatype Action = Quiet | Suppressed | Rebooted | Deferred | RebootFailed

  predicate CooledDown(cfg: Config, s: SlotState, at: real) {
    s.lastReboot.Some? ==> at - s.lastReboot.value >= cfg.cooldown
  }

  function Act(cfg: Config, s: SlotState, o: Observation): Action {
    if o.healthy || s.failures + 1 < cfg.threshold || !CooledDown(cfg, s, o.checkedAt) then Quiet
    else if !cfg.recoveryEnabled then Suppressed
    else if !o.slotFree || !o.gateFree then Deferred
    else if o.rebootWorks then Rebooted
    else RebootFailed
  }

  function After(cfg: Config, s: SlotState, o: Observation): SlotState {
    if o.healthy then s.(failures := 0)
    else
      match Act(cfg, s, o)
      case Suppressed => SlotState(0, Some(o.dryStamp))
      case Rebooted => SlotState(0, Some(o.liveStamp))
      case _ => s.(failures := s.failures + 1)
  }

  /** The state after all observations, oldest first. */
  function StateAfter(cfg: Config, obs: seq<Observation>): SlotState {
    if obs == [] then FRESH
    else After(cfg, StateAfter(cfg, obs[..|obs| - 1]), obs[|obs| - 1])
  }

  function ActionAt(cfg: Config, obs: seq<Observation>, i: nat): Action
    requires i < |obs|
  {
    Act(cfg, StateAfter(cfg, obs[..i]), obs[i])
  }

  // ----- what counter and timestamp mean ---------------------------------

  /** The recovery went through, or is taken to have. */
  ghost predicate Completes(a: Action) {
    a.Suppressed? || a.Rebooted?
  }

  /** The moment it counts from. */
  ghost function Stamp(cfg: Config, o: Observation): real {
    if cfg.recoveryEnabled then o.liveStamp else o.dryStamp
  }

  /** Observation `i` ended a bad spell: the slot was healthy, or its recovery completed. */
  ghost predicate Resets(cfg: Config, obs: seq<Observation>, i: nat)
    requires i < |obs|
  {
    obs[i].healthy || Completes(ActionAt(cfg, obs, i))
  }

  /** Exactly the last `n` observations belong to the current bad spell. */
  ghost predicate SpellIs(cfg: Config, obs: seq<Observation>, n: nat) {
    && n <= |obs|
    && (forall i :: |obs| - n <= i < |obs| ==> !Resets(cfg, obs, i))
    && (n < |obs| ==> Resets(cfg, obs, |obs| - n - 1))
  }

  lemma PrefixAction(cfg: Config, obs: seq<Observation>, n: nat, i: nat)
    requires i < n <= |obs|
    ensures ActionAt(cfg, obs[..n], i) == ActionAt(cfg, obs, i)
    ensures Resets(cfg, obs[..n], i) == Resets(cfg, obs, i)
  {
    assert obs[..n][..i] == obs[..i];
  }

  /** The counter is the length of the unhealthy spell since the last healthy probe or completed recovery. */
  lemma {:induction false} CounterIsSpell(cfg: Config, obs: seq<Observation>)
    ensures SpellIs(cfg, obs, StateAfter(cfg, obs).failures)
  {
    if obs != [] {
      var n := |obs| - 1;
      var before := obs[..n];
      CounterIsSpell(cfg, before);
      forall i | 0 <= i < n ensures Resets(cfg, before, i) == Resets(cfg, obs, i) {
        PrefixAction(cfg, obs, n, i);
      }
    }
  }

  ghost predicate LastRecovery(cfg: Config, obs: seq<Observation>, i: int) {
    && 0 <= i < |obs| && Completes(ActionAt(cfg, obs, i))
    && forall j :: i < j < |obs| ==> !Completes(ActionAt(cfg, obs, j))
  }

  /** The timestamp the last completed recovery left, or none if there was no recovery. */
  ghost predicate StampOk(cfg: Config, obs: seq<Observation>, last: Option<real>) {
    if last.None? then forall i :: 0 <= i < |obs| ==> !Completes(ActionAt(cfg, obs, i))
    else exists i :: LastRecovery(cfg, obs, i) && last == Some(Stamp(cfg, obs[i]))
  }

  /** The timestamp is that of the last completed recovery, if there was one. */
  lemma {:induction false} StampIsLastRecovery(cfg: Config, obs: seq<Observation>)
    ensures StampOk(cfg, obs, StateAfter(cfg, obs).lastReboot)
    decreases |obs|
  {
    if obs != [] {
      StampIsLastRecovery(cfg, obs[..|obs| - 1]);
      if Completes(ActionAt(cfg, obs, |obs| - 1)) {
        NewStamp(cfg, obs);
      } else {
        OldStamp(cfg, obs, StateAfter(cfg, obs[..|obs| - 1]).lastReboot);
      }
    }
  }

  lemma NewStamp(cfg: Config, obs: seq<Observation>)
    requires obs != [] && Completes(ActionAt(cfg, obs, |obs| - 1))
    ensures StampOk(cfg, obs, StateAfter(cfg, obs).lastReboot)
  {
    assert LastRecovery(cfg, obs, |obs| - 1);
  }

  lemma OldStamp(cfg: Config, obs: seq<Observation>, last: Option<real>)
    requires obs != [] && !Completes(ActionAt(cfg, obs, |obs| - 1))
    requires StampOk(cfg, obs[..|obs| - 1], last)
    ensures StampOk(cfg, obs, last)
  {
    hide StateAfter, ActionAt, Stamp;
    var n := |obs| - 1;
    var before := obs[..n];
    forall i | 0 <= i < n ensures ActionAt(cfg, before, i) == ActionAt(cfg, obs, i) {
      PrefixAction(cfg, obs, n, i);
    }
    if last.Some? {
      var i :| LastRecovery(cfg, before, i) && last == Some(Stamp(cfg, before[i]));
      assert LastRecovery(cfg, obs, i);
    }
  }

  /**
   A recovery is attempted at an observation exactly when it closes a spell of at least
   `threshold` unhealthy observations and the cooldown since the last completed recovery is over.
   */
  lemma AttemptExact(cfg: Config, obs: seq<Observation>, i: nat, spell: nat)
    requires i < |obs| && SpellIs(cfg, obs[..i], spell)
    ensures !ActionAt(cfg, obs, i).Quiet? <==>
      && !obs[i].healthy && spell + 1 >= cfg.threshold
      && (forall j :: LastRecovery(cfg, obs[..i], j) ==> obs[i].checkedAt - Stamp(cfg, obs[j]) >= cfg.cooldown)
    ensures var a, o := ActionAt(cfg, obs, i), obs[i];
      a.Quiet? || (
        && (a.Suppressed? <==> !cfg.recoveryEnabled)
        && (a.Deferred? <==> cfg.recoveryEnabled && !(o.slotFree && o.gateFree))
        && (a.Rebooted? <==> cfg.recoveryEnabled && o.slotFree && o.gateFree && o.rebootWorks))
  {
    CounterIsSpell(cfg, obs[..i]);
    SpellUnique(cfg, obs[..i], spell, StateAfter(cfg, obs[..i]).failures);
    StampIsLastRecovery(cfg, obs[..i]);
    if StateAfter(cfg, obs[..i]).lastReboot.Some? {
      var j :| LastRecovery(cfg, obs[..i], j) && StateAfter(cfg, obs[..i]).lastReboot == Some(Stamp(cfg, obs[..i][j]));
      forall k | LastRecovery(cfg, obs[..i], k) ensures k == j {
      }
    }
  }

  lemma SpellUnique(cfg: Config, obs: seq<Observation>, a: nat, b: nat)
    requires SpellIs(cfg, obs, a) && SpellIs(cfg, obs, b)
    ensures a == b
  {
    var afterA := a < |obs| && Resets(cfg, obs, |obs| - a - 1);
    var afterB := b < |obs| && Resets(cfg, obs, |obs| - b - 1);
    assert a < b ==> afterA;
    assert b < a ==> afterB;
  }

  /** Two reboots of one slot are at least a cooldown apart, whatever happened between them. */
  lemma RebootsAreSpaced(cfg: Config, obs: seq<Observation>, i: nat, j: nat)
    requires i < j < |obs| && Completes(ActionAt(cfg, obs, i)) && !ActionAt(cfg, obs, j).Quiet?
    requires forall a, b :: 0 <= a < b < |obs| ==> Stamp(cfg, obs[a]) <= Stamp(cfg, obs[b])
    ensures obs[j].checkedAt - Stamp(cfg, obs[i]) >= cfg.cooldown
  {
    var before := obs[..j];
    PrefixAction(cfg, obs, j, i);
    StampIsLastRecovery(cfg, before);
    assert Completes(ActionAt(cfg, before, i));
    var k :| LastRecovery(cfg, before, k) && StateAfter(cfg, before).lastReboot == Some(Stamp(cfg, before[k]));
    assert i <= k;
  }

  // ----- the dry run -----------------------------------------------------

  function Live(cfg: Config): Config {
    cfg.(recoveryEnabled := true)
  }

  function Dry(cfg: Config): Config {
    cfg.(recoveryEnabled := false)
  }

  /** The live run reboots at exactly the steps at which the dry run says it would. */
  ghost predicate Mirrors(cfg: Config, obs: seq<Observation>) {
    forall i :: 0 <= i < |obs| ==> Agrees(cfg, obs, i)
  }

  ghost predicate Agrees(cfg: Config, obs: seq<Observation>, i: nat)
    requires i < |obs|
  {
    ActionAt(Dry(cfg), obs, i).Suppressed? <==> ActionAt(Live(cfg), obs, i).Rebooted?
  }

  /** A reboot at this observation would find both locks free and succeed. */
  predicate Unhindered(o: Observation) {
    o.slotFree && o.gateFree && o.rebootWorks
  }

  /**
   The cooldown would be over even if it were counted from the end
   of the reboot that the last suppression stands for.
   */
  ghost predicate Unhurried(cfg: Config, obs: seq<Observation>, i: nat)
    requires i < |obs|
  {
    forall k :: LastRecovery(Dry(cfg), obs[..i], k) ==> obs[i].checkedAt - obs[k].liveStamp >= cfg.cooldown
  }

  /** What the dry run's own log and the surroundings say: every suppression stands for a reboot that could go ahead. */
  ghost predicate Realistic(cfg: Config, obs: seq<Observation>) {
    forall i :: 0 <= i < |obs| && ActionAt(Dry(cfg), obs, i).Suppressed? ==>
      Unhindered(obs[i]) && Unhurried(cfg, obs, i)
  }

  /** A reboot takes time, it does not give any back. */
  predicate RebootsTakeTime(obs: seq<Observation>) {
    forall i :: 0 <= i < |obs| ==> obs[i].dryStamp <= obs[i].liveStamp
  }

  lemma StateStep(cfg: Config, obs: seq<Observation>, i: nat)
    requires i < |obs|
    ensures StateAfter(cfg, obs[..i + 1]) == After(cfg, StateAfter(cfg, obs[..i]), obs[i])
  {
    assert obs[..i + 1][..i] == obs[..i];
  }

  /** Same counter, and the two stamps are those of one recovery, the dry run's last. */
  ghost predicate Paired(cfg: Config, obs: seq<Observation>, i: nat)
    requires i <= |obs|
  {
    var live, dry := StateAfter(Live(cfg), obs[..i]), StateAfter(Dry(cfg), obs[..i]);
    && live.failures == dry.failures
    && if dry.lastReboot.None? then live.lastReboot.None? && forall k :: !LastRecovery(Dry(cfg), obs[..i], k)
       else exists k :: PairedAt(cfg, obs, i, k)
  }

  ghost predicate PairedAt(cfg: Config, obs: seq<Observation>, i: nat, k: int)
    requires i <= |obs|
  {
    && LastRecovery(Dry(cfg), obs[..i], k)
    && StateAfter(Dry(cfg), obs[..i]).lastReboot == Some(obs[k].dryStamp)
    && StateAfter(Live(cfg), obs[..i]).lastReboot == Some(obs[k].liveStamp)
  }

  lemma LastRecoveryUnique(cfg: Config, obs: seq<Observation>, j: int, k: int)
    requires LastRecovery(cfg, obs, j) && LastRecovery(cfg, obs, k)
    ensures j == k
  {
  }

  /** From paired states one step agrees exactly when a suppression there would be unhindered and unhurried. */
  lemma StepAgrees(cfg: Config, obs: seq<Observation>, i: nat)
    requires i < |obs| && RebootsTakeTime(obs) && Paired(cfg, obs, i)
    ensures Agrees(cfg, obs, i) <==>
      (ActionAt(Dry(cfg), obs, i).Suppressed? ==> Unhindered(obs[i]) && Unhurried(cfg, obs, i))
  {
    hide StateAfter, LastRecovery;
    if StateAfter(Dry(cfg), obs[..i]).lastReboot.Some? {
      var k :| PairedAt(cfg, obs, i, k);
      assert 0 <= k < i by {
        RecoveryInRange(Dry(cfg), obs[..i], k);
      }
      forall j | LastRecovery(Dry(cfg), obs[..i], j) ensures j == k {
        LastRecoveryUnique(Dry(cfg), obs[..i], j, k);
      }
    }
  }

  lemma RecoveryInRange(cfg: Config, obs: seq<Observation>, k: int)
    requires LastRecovery(cfg, obs, k)
    ensures 0 <= k < |obs|
  {
  }

  lemma StepKeepsPaired(cfg: Config, obs: seq<Observation>, i: nat)
    requires i < |obs| && RebootsTakeTime(obs) && Paired(cfg, obs, i) && Agrees(cfg, obs, i)
    requires ActionAt(Dry(cfg), obs, i).Suppressed? ==> Unhindered(obs[i]) && Unhurried(cfg, obs, i)
    ensures Paired(cfg, obs, i + 1)
  {
    StateStep(Live(cfg), obs, i);
    StateStep(Dry(cfg), obs, i);
    var before, after := obs[..i], obs[..i + 1];
    forall j | 0 <= j < i ensures ActionAt(Dry(cfg), before, j) == ActionAt(Dry(cfg), after, j) {
      PrefixAction(Dry(cfg), obs, i, j);
      PrefixAction(Dry(cfg), obs, i + 1, j);
    }
    PrefixAction(Dry(cfg), obs, i + 1, i);
    hide StateAfter;
    if ActionAt(Dry(cfg), obs, i).Suppressed? {
      assert LastRecovery(Dry(cfg), after, i);
      assert PairedAt(cfg, obs, i + 1, i);
    } else {
      forall k ensures LastRecovery(Dry(cfg), before, k) <==> LastRecovery(Dry(cfg), after, k) {
      }
      if StateAfter(Dry(cfg), before).lastReboot.Some? {
        var k :| PairedAt(cfg, obs, i, k);
        assert PairedAt(cfg, obs, i + 1, k);
      }
    }
  }

  lemma {:induction false} RealisticKeepsPaired(cfg: Config, obs: seq<Observation>, i: nat)
    requires i <= |obs| && RebootsTakeTime(obs)
    requires forall j :: 0 <= j < i ==> Agrees(cfg, obs, j)
    ensures Paired(cfg, obs, i)
    ensures forall j :: 0 <= j < i && ActionAt(Dry(cfg), obs, j).Suppressed? ==>
      Unhindered(obs[j]) && Unhurried(cfg, obs, j)
    decreases i
  {
    hide ActionAt, StateAfter, Unhurried, Agrees;
    if i > 0 {
      RealisticKeepsPaired(cfg, obs, i - 1);
      assert Agrees(cfg, obs, i - 1);
      StepAgrees(cfg, obs, i - 1);
      StepKeepsPaired(cfg, obs, i - 1);
    } else {
      NothingYet(cfg, obs);
    }
  }

  lemma NothingYet(cfg: Config, obs: seq<Observation>)
    ensures Paired(cfg, obs, 0)
  {
    assert obs[..0] == [];
  }

  lemma {:induction false} RealisticAgrees(cfg: Config, obs: seq<Observation>, i: nat)
    requires i <= |obs| && RebootsTakeTime(obs) && Realistic(cfg, obs)
    ensures forall j :: 0 <= j < i ==> Agrees(cfg, obs, j)
    decreases i
  {
    if i > 0 {
      hide ActionAt, StateAfter, Unhurried, Agrees, Paired;
      RealisticAgrees(cfg, obs, i - 1);
      RealisticKeepsPaired(cfg, obs, i - 1);
      StepAgrees(cfg, obs, i - 1);
    }
  }

  /**
   The live run reboots at exactly the steps the dry run suppresses, if and only if every suppression
   finds both locks free and a reboot that works, and no check of a spell that has reached the threshold
   falls between the cooldown's end counted from the suppression and counted from the reboot's return.
   */
  lemma DryRunMirrorsExactly(cfg: Config, obs: seq<Observation>)
    requires RebootsTakeTime(obs)
    ensures Mirrors(cfg, obs) <==> Realistic(cfg, obs)
  {
    if Mirrors(cfg, obs) {
      RealisticKeepsPaired(cfg, obs, |obs|);
    }
    if Realistic(cfg, obs) {
      RealisticAgrees(cfg, obs, |obs|);
    }
  }

  /** As long as the runs have agreed, the next step agrees exactly when its suppression, if it is one, is realistic. */
  lemma SuppressesWhereLiveReboots(cfg: Config, obs: seq<Observation>, i: nat)
    requires i < |obs| && RebootsTakeTime(obs) && forall j :: 0 <= j < i ==> Agrees(cfg, obs, j)
    ensures Agrees(cfg, obs, i) <==>
      (ActionAt(Dry(cfg), obs, i).Suppressed? ==> Unhindered(obs[i]) && Unhurried(cfg, obs, i))
  {
    RealisticKeepsPaired(cfg, obs, i);
    StepAgrees(cfg, obs, i);
  }

  /** With free locks and successful reboots only the duration of the reboots can tell the runs apart. */
  lemma MirrorsUnderFreeLocks(cfg: Config, obs: seq<Observation>)
    requires RebootsTakeTime(obs) && forall k :: 0 <= k < |obs| ==> Unhindered(obs[k])
    ensures Mirrors(cfg, obs) <==>
      (forall i :: 0 <= i < |obs| && ActionAt(Dry(cfg), obs, i).Suppressed? ==> Unhurried(cfg, obs, i))
  {
    DryRunMirrorsExactly(cfg, obs);
  }

  /**
   A reboot of five seconds: the next check falls two seconds after
   the dry run's cooldown, three before the live one's.
   */
  lemma SlowRebootDiverges()
    ensures exists cfg: Config, obs: seq<Observation> :: DivergesUnhindered(cfg, obs)
  {
    var cfg := Config(1, 300.0, true);
    var obs := [Observation(false, 0.0, 0.0, 5.0, true, true, true),
                Observation(false, 302.0, 302.0, 307.0, true, true, true)];
    assert obs[..0] == [] && obs[..1] == [obs[0]] && [obs[0]][..0] == [];
    assert StateAfter(Dry(cfg), obs[..0]) == FRESH && StateAfter(Live(cfg), obs[..0]) == FRESH;
    StateStep(Dry(cfg), obs, 0);
    StateStep(Live(cfg), obs, 0);
    assert ActionAt(Dry(cfg), obs, 1).Suppressed? && ActionAt(Live(cfg), obs, 1).Quiet?;
    assert !Agrees(cfg, obs, 1);
    assert DivergesUnhindered(cfg, obs);
  }

  ghost predicate DivergesUnhindered(cfg: Config, obs: seq<Observation>) {
    RebootsTakeTime(obs) && (forall k :: 0 <= k < |obs| ==> Unhindered(obs[k])) && !Mirrors(cfg, obs)
  }

  // ----- the service object ----------------------------------------------

  class HealthService {
    const cfg: Config
    var failures: map<int, nat>
    var lastReboot: map<int, Option<real>>
    var reboots: seq<int> // slots rebooted, in order

    constructor (cfg: Config, slots: set<int>)
      ensures this.cfg == cfg && failures.Keys == slots && Tracked() && reboots == []
      ensures forall slot :: slot in slots ==> SlotView(slot) == FRESH
    {
      this.cfg := cfg;
      failures := map slot | slot in slots :: 0;
      lastReboot := map slot | slot in slots :: None;
      reboots := [];
    }

    ghost predicate Tracked()
      reads this
    {
      failures.Keys == lastReboot.Keys
    }

    function SlotView(slot: int): SlotState
      requires slot in failures && slot in lastReboot
      reads this
    {
      SlotState(failures[slot], lastReboot[slot])
    }

    method HandleObservation(slot: int, o: Observation) returns (action: Action)
      requires Tracked() && slot in failures
      modifies this
      ensures Tracked() && failures.Keys == old(failures.Keys)
      ensures action == Act(cfg, old(SlotView(slot)), o)
      ensures SlotView(slot) == After(cfg, old(SlotView(slot)), o)
      ensures forall x :: x != slot && x in failures ==> SlotView(x) == old(SlotView(x))
      ensures reboots == if action.Rebooted? then old(reboots) + [slot] else old(reboots)
    {
      if o.healthy {
        failures := failures[slot := 0];
        return Quiet;
      }
      failures := failures[slot := failures[slot] + 1];
      if failures[slot] < cfg.threshold {
        return Quiet;
      }
      if lastReboot[slot].Some? && o.checkedAt - lastReboot[slot].value < cfg.cooldown {
        return Quiet;
      }
      if !cfg.recoveryEnabled {
        lastReboot := lastReboot[slot := Some(o.dryStamp)];
        failures := failures[slot := 0];
        return Suppressed;
      }
      if !o.slotFree {
        return Deferred;
      }
      if !o.gateFree {
        return Deferred;
      }
      if !o.rebootWorks {
        return RebootFailed;
      }
      reboots := reboots + [slot];
      lastReboot := lastReboot[slot := Some(o.liveStamp)];
      failures := failures[slot := 0];
      return Rebooted;
    }

    /** One pass: the observations arrive in whatever order the probes complete. */
    method RunOnce(arrivals: seq<(int, Observation)>)
      requires Tracked() && forall i :: 0 <= i < |arrivals| ==> arrivals[i].0 in failures
      modifies this
      ensures Tracked() && failures.Keys == old(failures.Keys)
      ensures forall slot :: slot in failures ==> SlotView(slot) == Fold(cfg, old(SlotView(slot)), Of(arrivals, slot))
    {
      ghost var start := map slot | slot in failures :: SlotView(slot);
      for i := 0 to |arrivals|
        invariant Tracked() && failures.Keys == start.Keys
        invariant forall slot :: slot in failures ==> SlotView(slot) == Fold(cfg, start[slot], Of(arrivals[..i], slot))
      {
        forall slot | slot in failures
          ensures Fold(cfg, start[slot], Of(arrivals[..i + 1], slot))
               == if slot == arrivals[i].0 then After(cfg, SlotView(slot), arrivals[i].1) else SlotView(slot)
        {
          FoldArrival(cfg, start[slot], arrivals, i, slot);
        }
        var _ := HandleObservation(arrivals[i].0, arrivals[i].1);
      }
      assert arrivals[..|arrivals|] == arrivals;
    }
  }

  /** The observations of one slot, in order of arrival. */
  function Of(arrivals: seq<(int, Observation)>, slot: int): seq<Observation> {
    if arrivals == [] then []
    else
      var last := arrivals[|arrivals| - 1];
      Of(arrivals[..|arrivals| - 1], slot) + (if last.0 == slot then [last.1] else [])
  }

  function Fold(cfg: Config, s: SlotState, obs: seq<Observation>): SlotState {
    if obs == [] then s else After(cfg, Fold(cfg, s, obs[..|obs| - 1]), obs[|obs| - 1])
  }

  lemma FoldArrival(cfg: Config, s: SlotState, arrivals: seq<(int, Observation)>, i: nat, slot: int)
    requires i < |arrivals|
    ensures Fold(cfg, s, Of(arrivals[..i + 1], slot)) ==
      var before := Fold(cfg, s, Of(arrivals[..i], slot));
      if arrivals[i].0 == slot then After(cfg, before, arrivals[i].1) else before
  {
    assert arrivals[..i + 1][..i] == arrivals[..i];
    var earlier := Of(arrivals[..i], slot);
    assert earlier + [] == earlier;
    assert (earlier + [arrivals[i].1])[..|earlier|] == earlier;
  }

  /** A slot's state after a pass depends on its own observations only; from a fresh slot it is `StateAfter`. */
  lemma {:induction false} FoldIsStateAfter(cfg: Config, obs: seq<Observation>)
    ensures Fold(cfg, FRESH, obs) == StateAfter(cfg, obs)
  {
    if obs != [] {
      FoldIsStateAfter(cfg, obs[..|obs| - 1]);
    }
  }
}
