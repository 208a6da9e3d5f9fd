/**
 Waiting for a phone to be really back after a reboot: one live shell echo is not enough,
 only several in a row are. Time is counted in clock ticks; every adb call takes at least one.
 */
module BootSettle {
  import opened Basics

  const SETTLE_ECHOES := 3

  datatype Seen = Boot(done: bool) | Echo(ok: bool)

  /** The phone and the clock, as the loops can observe them. */
  class Phone {
    const echoes: nat -> bool // what the n-th adb call would find as an echo
    const boots: nat -> bool  // and as a boot check: state "device" and boot flag "1"
    const delays: nat -> nat
    var clock: int
    var calls: nat
    var slept: nat            // ticks spent waiting on purpose
    var trace: seq<Seen>

    constructor (echoes: nat -> bool, boots: nat -> bool, delays: nat -> nat, clock: int)
      ensures this.clock == clock && trace == [] && calls == 0 && slept == 0 && fresh(this)
    {
      this.echoes, this.boots, this.delays := echoes, boots, delays;
      this.clock, calls, slept, trace := clock, 0, 0, [];
    }

    method TryEcho() returns (ok: bool)
      modifies this
      ensures trace == old(trace) + [Echo(ok)] && clock > old(clock)
      ensures ok == echoes(old(calls)) && calls == old(calls) + 1 && slept == old(slept)
    {
      ok := echoes(calls);
      trace := trace + [Echo(ok)];
      clock := clock + 1 + delays(calls);
      calls := calls + 1;
    }

    method CheckBoot() returns (done: bool)
      modifies this
      ensures trace == old(trace) + [Boot(done)] && clock > old(clock)
      ensures done == boots(old(calls)) && calls == old(calls) + 1 && slept == old(slept)
    {
      done := boots(calls);
      trace := trace + [Boot(done)];
      clock := clock + 1 + delays(calls);
      calls := calls + 1;
    }

    /** Any other adb call, or a sleep. */
    method Pass(ticks: int)
      requires ticks >= 0
      modifies this
      ensures trace == old(trace) && clock >= old(clock) + ticks
      ensures calls == old(calls) + 1 && slept == old(slept) + ticks
    {
      clock := clock + ticks + delays(calls);
      calls, slept := calls + 1, slept + ticks;
    }

    /** Waiting on the stop event ends early when it is set. */
    method WaitOrStop(ticks: int, stop: Option<int>)
      requires ticks >= 0
      modifies this
      ensures trace == old(trace) && clock >= old(clock)
      ensures clock >= old(clock) + ticks || (stop.Some? && stop.value <= clock)
      ensures calls == old(calls) && slept == old(slept) + ticks
    {
      slept := slept + ticks;
      clock := if stop.Some? then Max(clock, Min(clock + ticks, stop.value)) else clock + ticks;
    }
  }

  // ----- runs of successes -----------------------------------------------

  ghost predicate AllTrue(results: seq<bool>, from: int, n: int) {
    0 <= from && from + n <= |results| && forall i :: from <= i < from + n ==> results[i]
  }

  /** Some `n` results in a row are successes. */
  ghost predicate HasRun(results: seq<bool>, n: int) {
    exists from :: AllTrue(results, from, n)
  }

  /** How many successes the results end with. */
  function Streak(results: seq<bool>): nat {
    if results == [] || !results[|results| - 1] then 0 else Streak(results[..|results| - 1]) + 1
  }

  lemma {:induction false} StreakMeaning(results: seq<bool>)
    ensures Streak(results) <= |results| && AllTrue(results, |results| - Streak(results), Streak(results))
    ensures Streak(results) < |results| ==> !results[|results| - Streak(results) - 1]
  {
    if results != [] && results[|results| - 1] {
      StreakMeaning(results[..|results| - 1]);
    }
  }

  /** The counter of the loop decides: a new result completes a run exactly when the streak is long enough. */
  lemma RunGrows(results: seq<bool>, r: bool, n: int)
    requires n >= 1
    ensures Streak(results + [r]) == if r then Streak(results) + 1 else 0
    ensures HasRun(results + [r], n) <==> HasRun(results, n) || Streak(results + [r]) >= n
  {
    var next := results + [r];
    assert next[..|results|] == results;
    StreakMeaning(next);
    if Streak(next) >= n {
      assert AllTrue(next, |next| - n, n);
    }
    if HasRun(results, n) {
      var from :| AllTrue(results, from, n);
      assert AllTrue(next, from, n);
    }
    if HasRun(next, n) && Streak(next) < n {
      var from :| AllTrue(next, from, n);
      assert from + n <= |results|;
      assert AllTrue(results, from, n);
    }
  }

  function Echoes(results: seq<bool>): seq<Seen> {
    seq(|results|, i requires 0 <= i < |results| => Echo(results[i]))
  }

  /**
   True exactly when the probes of this call contain `needed` consecutive successes, and then
   it stops at the first such run; false means none came before the deadline or the stop.
   */
  method AdbShellSettled(phone: Phone, present: bool, needed: int, timeout: int, poll: int, stop: Option<int>)
    returns (ok: bool, ghost results: seq<bool>)
    modifies phone
    ensures phone.trace == old(phone.trace) + Echoes(results) && phone.clock >= old(phone.clock)
    ensures ok <==> HasRun(results, Max(1, needed))
    ensures ok ==> AllTrue(results, |results| - Max(1, needed), Max(1, needed))
    ensures ok ==> results != [] && !HasRun(results[..|results| - 1], Max(1, needed))
    ensures !ok && present ==>
      phone.clock >= old(phone.clock) + Max(0, timeout) || (stop.Some? && stop.value <= phone.clock)
    // it does not wait without probing, and never longer than a pause for each probe
    ensures results == [] ==> phone.clock == old(phone.clock)
    ensures phone.slept <= old(phone.slept) + Max(0, poll) * |results|
    ensures phone.calls <= old(phone.calls) + 2 * |results|
  {
    var want := Max(1, needed);
    var budget, pause := Max(0, timeout), Max(0, poll);
    results := [];
    assert old(phone.trace) + Echoes([]) == old(phone.trace);
    if !present {
      return false, results;
    }
    var deadline := phone.clock + budget;
    var streak := 0;
    while phone.clock < deadline
      invariant phone.trace == old(phone.trace) + Echoes(results) && phone.clock >= old(phone.clock)
      invariant streak == Streak(results) < want && !HasRun(results, want)
      invariant results == [] ==> phone.clock == old(phone.clock)
      invariant phone.slept <= old(phone.slept) + pause * |results| && phone.calls <= old(phone.calls) + 2 * |results|
      decreases deadline - phone.clock
    {
      if stop.Some? && stop.value <= phone.clock {
        return false, results;
      }
      var live := phone.TryEcho();
      RunGrows(results, live, want);
      ghost var before := results;
      results := results + [live];
      assert Echoes(results) == Echoes(before) + [Echo(live)];
      assert pause * |results| == pause * |before| + pause;
      if live {
        streak := streak + 1;
        if streak >= want {
          StreakMeaning(results);
          assert results[..|results| - 1] == before;
          return true, results;
        }
      } else {
        streak := 0;
      }
      var remaining := deadline - phone.clock;
      if remaining <= 0 {
        break;
      }
      if stop.Some? {
        phone.WaitOrStop(Min(pause, remaining), stop);
      } else {
        phone.Pass(Min(pause, remaining));
      }
    }
    return false, results;
  }

  // ----- the boot wait ---------------------------------------------------

  ghost predicate Window(seen: seq<Seen>, from: int, n: int) {
    0 <= from && from + n <= |seen| && forall i :: from <= i < from + n ==> seen[i] == Echo(true)
  }

  /** `n` live echoes with nothing else between them. */
  ghost predicate HasWindow(seen: seq<Seen>, n: int) {
    exists from :: Window(seen, from, n)
  }

  /** The boot check before the `j`-th observation said done, and only echoes came in between. */
  ghost predicate AfterBoot(seen: seq<Seen>, i: int, j: int) {
    0 <= i < j <= |seen| && seen[i] == Boot(true) && forall k :: i < k < j ==> seen[k].Echo?
  }

  /** Echoes are probed only right after a boot check that said done. */
  ghost predicate EchoesFollowBoot(seen: seq<Seen>) {
    forall j :: 0 <= j < |seen| && seen[j].Echo? ==> exists i :: AfterBoot(seen, i, j)
  }

  lemma BootAdds(seen: seq<Seen>, done: bool, n: int)
    requires n >= 1 && !HasWindow(seen, n) && EchoesFollowBoot(seen)
    ensures !HasWindow(seen + [Boot(done)], n) && EchoesFollowBoot(seen + [Boot(done)])
  {
    var next := seen + [Boot(done)];
    if HasWindow(next, n) {
      var from :| Window(next, from, n);
      assert next[|seen|] == Boot(done);
      assert from + n <= |seen|;
      assert forall i :: from <= i < from + n ==> seen[i] == next[i];
      assert Window(seen, from, n);
    }
    forall j | 0 <= j < |next| && next[j].Echo? ensures exists i :: AfterBoot(next, i, j) {
      var i :| AfterBoot(seen, i, j);
      assert AfterBoot(next, i, j);
    }
  }

  /** Echoes after a finished boot check bring a window exactly when they contain a run. */
  lemma EchoesAdd(seen: seq<Seen>, results: seq<bool>, n: int)
    requires n >= 1 && !HasWindow(seen, n) && EchoesFollowBoot(seen)
    requires seen != [] && seen[|seen| - 1] == Boot(true)
    ensures HasWindow(seen + Echoes(results), n) <==> HasRun(results, n)
    ensures EchoesFollowBoot(seen + Echoes(results))
  {
    var next := seen + Echoes(results);
    if HasRun(results, n) {
      var from :| AllTrue(results, from, n);
      assert Window(next, |seen| + from, n);
    }
    if HasWindow(next, n) {
      var from :| Window(next, from, n);
      assert next[|seen| - 1] == Boot(true);
      if from >= |seen| {
        forall i | from - |seen| <= i < from - |seen| + n ensures results[i] {
          assert next[|seen| + i] == Echo(true);
        }
        assert AllTrue(results, from - |seen|, n);
      } else {
        assert from + n <= |seen|;
        assert forall i :: from <= i < from + n ==> seen[i] == next[i];
        assert Window(seen, from, n);
      }
    }
    forall j | 0 <= j < |next| && next[j].Echo? ensures exists i :: AfterBoot(next, i, j) {
      if j < |seen| {
        var i :| AfterBoot(seen, i, j);
        assert AfterBoot(next, i, j);
      } else {
        assert AfterBoot(next, |seen| - 1, j);
      }
    }
  }

  datatype Warning = WaitForDevice | BootCompletedTimeout

  /**
   True exactly when a window of echoes was seen; every echo, hence the window, comes right
   after a boot check that said done. False leaves the timeout warning, after the whole budget.
   */
  method WaitBootCompleted(phone: Phone, deviceWaitFails: bool, deviceWait: nat, timeout: int, poll: nat)
    returns (ok: bool, warnings: seq<Warning>, ghost seen: seq<Seen>)
    modifies phone
    ensures phone.trace == old(phone.trace) + seen
    ensures ok <==> HasWindow(seen, 3)
    ensures EchoesFollowBoot(seen)
    ensures ok ==> Window(seen, |seen| - 3, 3)
    ensures !ok ==> phone.clock >= old(phone.clock) + Max(1, timeout)
    // after the wait for the device it does nothing but observe, with a pause at most for each observation
    ensures phone.slept <= old(phone.slept) + deviceWait + poll * |seen|
    ensures phone.calls <= old(phone.calls) + 1 + 2 * |seen|
    ensures warnings == (if deviceWaitFails then [WaitForDevice] else []) + (if ok then [] else [BootCompletedTimeout])
  {
    var deadline := phone.clock + Max(1, timeout);
    phone.Pass(deviceWait);
    warnings := if deviceWaitFails then [WaitForDevice] else [];
    seen := [];
    while phone.clock < deadline
      invariant phone.trace == old(phone.trace) + seen
      invariant !HasWindow(seen, SETTLE_ECHOES) && EchoesFollowBoot(seen)
      invariant phone.slept <= old(phone.slept) + deviceWait + poll * |seen|
      invariant phone.calls <= old(phone.calls) + 1 + 2 * |seen|
      decreases deadline - phone.clock
    {
      var done := phone.CheckBoot();
      BootAdds(seen, done, SETTLE_ECHOES);
      ghost var observed := |seen|;
      seen := seen + [Boot(done)];
      assert poll * |seen| == poll * observed + poll;
      if done {
        var settled, results := AdbShellSettled(phone, true, SETTLE_ECHOES, deadline - phone.clock, poll, None);
        EchoesAdd(seen, results, SETTLE_ECHOES);
        assert poll * (|seen| + |results|) == poll * |seen| + poll * |results|;
        seen := seen + Echoes(results);
        if settled {
          return true, warnings, seen;
        }
        continue;
      }
      var remaining := deadline - phone.clock;
      if remaining <= 0 {
        break;
      }
      phone.Pass(Min(poll, remaining));
    }
    warnings := warnings + [BootCompletedTimeout];
    return false, warnings, seen;
  }
}
