/**
 The customer stream queue as an object whose table, queue and flags are updated
 in place. Each method is proved against the transition function on values. Every
 method runs under the object's lock in the program, so a call is one transition.
 */
module CustomerStreamQueues {
  import opened Basics
  import opened StreamQueueModel
  import opened StreamQueueOperations
  import opened StreamQueueSteps

  /** `ks` lists the leases `keys` once each, soonest expiry first. */
  ghost predicate Ranks(ks: seq<string>, keys: set<string>, active: map<string, Lease>, now: real) {
    && keys <= active.Keys
    && Distinct(ks)
    && (forall i :: 0 <= i < |ks| ==> ks[i] in keys)
    && (forall r :: r in keys ==> r in ks)
    && (forall i, j :: 0 <= i < j < |ks| ==> TimeLeft(active, ks[i], now) <= TimeLeft(active, ks[j], now))
  }

  function TimeLeft(active: map<string, Lease>, r: string, now: real): real {
    if r in active then Remaining(active[r], now) else 0.0
  }

  lemma InsertDistinct(ks: seq<string>, keys: set<string>, r: string, p: nat)
    requires Distinct(ks) && (forall i :: 0 <= i < |ks| ==> ks[i] in keys) && r !in keys && p <= |ks|
    ensures Distinct(ks[..p] + [r] + ks[p..])
    ensures forall i :: 0 <= i < |ks| + 1 ==> (ks[..p] + [r] + ks[p..])[i] in keys + {r}
  {
  }

  lemma InsertCovers(ks: seq<string>, keys: set<string>, r: string, p: nat)
    requires (forall x :: x in keys ==> x in ks) && p <= |ks|
    ensures forall x :: x in keys + {r} ==> x in ks[..p] + [r] + ks[p..]
  {
    assert ks == ks[..p] + ks[p..];
  }

  lemma InsertSorted(ks: seq<string>, active: map<string, Lease>, now: real, r: string, p: nat)
    requires p <= |ks|
    requires forall i, j :: 0 <= i < j < |ks| ==> TimeLeft(active, ks[i], now) <= TimeLeft(active, ks[j], now)
    requires forall i :: 0 <= i < p ==> TimeLeft(active, ks[i], now) <= TimeLeft(active, r, now)
    requires p < |ks| ==> TimeLeft(active, r, now) <= TimeLeft(active, ks[p], now)
    ensures var out := ks[..p] + [r] + ks[p..];
      forall i, j :: 0 <= i < j < |out| ==> TimeLeft(active, out[i], now) <= TimeLeft(active, out[j], now)
  {
    hide TimeLeft;
  }

  lemma InsertRank(ks: seq<string>, keys: set<string>, active: map<string, Lease>, now: real, r: string, p: nat)
    requires Ranks(ks, keys, active, now) && r in active && r !in keys && p <= |ks|
    requires forall i :: 0 <= i < p ==> TimeLeft(active, ks[i], now) <= TimeLeft(active, r, now)
    requires p < |ks| ==> TimeLeft(active, r, now) <= TimeLeft(active, ks[p], now)
    ensures Ranks(ks[..p] + [r] + ks[p..], keys + {r}, active, now)
  {
    hide TimeLeft, Distinct;
    InsertDistinct(ks, keys, r, p);
    InsertCovers(ks, keys, r, p);
    InsertSorted(ks, active, now, r, p);
  }

  /** The least number of minutes, but at least one, that is no shorter than the seconds quoted. */
  predicate CoversWait(minutes: int, seconds: int) {
    1 <= minutes && seconds <= 60 * minutes && (1 < minutes ==> 60 * (minutes - 1) < seconds)
  }

  class CustomerStreamQueue {
    const cfg: Config
    var active: map<string, Lease>
    var queue: seq<Entry>
    var adminSlots: set<int>
    var busy: bool
    var published: seq<bool>

    function View(): State
      reads this
    {
      State(active, queue, adminSlots, busy, published)
    }

    constructor (cfg: Config)
      ensures this.cfg == cfg && View() == INITIAL
    {
      this.cfg := cfg;
      active, queue, adminSlots, busy, published := map[], [], {}, false, [];
    }

    method PublishBusy()
      modifies this
      ensures View() == Publish(old(View()))
    {
      var now := active != map[] || adminSlots != {};
      if now == busy {
        return;
      }
      busy := now;
      published := published + [now];
    }

    method PromoteWaiting(now: real)
      modifies this
      ensures View() == Promote(cfg, old(View()), now)
    {
      while queue != [] && |active| < cfg.Capacity()
        invariant Fill(cfg, View(), now) == Fill(cfg, old(View()), now)
        decreases |queue|
      {
        var entry := queue[0];
        queue := queue[1..];
        var lease := NewLease(cfg, entry.rental, entry.customer, entry.slot, now, entry.needsGrant);
        active := active[entry.rental := lease];
      }
      PublishBusy();
    }

    method PruneTable(now: real)
      modifies this
      ensures View() == Prune(cfg, old(View()), now)
      ensures Valid(cfg, old(View())) ==> KeepsTheLively(cfg, old(View()), View(), now)
    {
      hide Valid, KeepsTheLively, Fill, Publish;
      var expired := set r | r in active && Expired(cfg, active[r], now);
      ghost var before := active;
      var todo := expired;
      while todo != {}
        invariant todo <= expired
        invariant active == before - (expired - todo)
        invariant queue == old(queue) && adminSlots == old(adminSlots)
        invariant busy == old(busy) && published == old(published)
      {
        var r :| r in todo;
        active := active - {r};
        todo := todo - {r};
        assert before - (expired - todo) == before - (expired - (todo + {r})) - {r};
      }
      assert expired - {} == expired;
      PromoteWaiting(now);
      if Valid(cfg, old(View())) {
        PruneKeepsTheLively(cfg, old(View()), now);
      }
    }

    method QueuedEntry(rental: string) returns (i: nat)
      ensures i == IndexOf(queue, rental)
    {
      i := 0;
      while i < |queue|
        invariant i <= |queue|
        invariant IndexOf(queue, rental) == i + IndexOf(queue[i..], rental)
      {
        assert queue[i..][1..] == queue[i + 1..];
        if queue[i].rental == rental {
          return;
        }
        i := i + 1;
      }
    }

    /** The leases in the order they run out. */
    method RankLeases(now: real) returns (ks: seq<string>)
      ensures IsRanking(ks, active, now)
    {
      ks := [];
      var todo := active.Keys;
      while todo != {}
        invariant todo <= active.Keys
        invariant Ranks(ks, active.Keys - todo, active, now)
      {
        var r :| r in todo;
        var p := 0;
        while p < |ks| && TimeLeft(active, ks[p], now) <= TimeLeft(active, r, now)
          invariant p <= |ks|
          invariant forall i :: 0 <= i < p ==> TimeLeft(active, ks[i], now) <= TimeLeft(active, r, now)
        {
          p := p + 1;
        }
        InsertRank(ks, active.Keys - todo, active, now, r, p);
        ks := ks[..p] + [r] + ks[p..];
        assert active.Keys - todo + {r} == active.Keys - (todo - {r});
        todo := todo - {r};
      }
      assert active.Keys - {} == active.Keys;
      assert forall i :: 0 <= i < |ks| ==> TimeLeft(active, ks[i], now) == Remaining(active[ks[i]], now);
    }

    method EstimateWait(position: nat, now: real) returns (seconds: int)
      requires 1 <= position
      ensures IsWaitEstimate(cfg, View(), now, position, seconds)
    {
      var ks := RankLeases(now);
      if ks == [] {
        assert forall r :: r !in active;
        assert active == map[];
        seconds := ClampWait(cfg, cfg.ttl);
      } else {
        assert ks[0] in active;
        seconds := ClampWait(cfg, Remaining(active[ks[Min(position, |ks|) - 1]], now));
        assert RanksTo(cfg, View(), now, position, seconds, ks);
      }
    }

    method Admit(rental: string, customer: string, slot: int, claim: bool, admin: bool, now: real) returns (d: Decision)
      modifies this
      ensures View() == Step(cfg, old(View()), Event.Admit(rental, customer, slot, claim, admin), now)
      ensures IsDecision(cfg, View(), Event.Admit(rental, customer, slot, claim, admin), now, d)
      ensures d.Queued? ==> CoversWait(d.minutes, d.seconds)
      ensures admin || rental == "" || customer == "" ==>
        && d.Untracked? && active == old(active) && queue == old(queue)
        && adminSlots == if admin then old(adminSlots) + {slot} else old(adminSlots)
    {
      if admin {
        MarkAdmin(slot, true);
        return Untracked;
      }
      if rental == "" || customer == "" {
        return Untracked;
      }
      PruneTable(now);
      d := AdmitAfterPrune(rental, customer, slot, claim, now);
    }

    method AdmitAfterPrune(rental: string, customer: string, slot: int, claim: bool, now: real) returns (d: Decision)
      requires rental != "" && customer != ""
      modifies this
      ensures View() == AdmitPruned(cfg, old(View()), rental, customer, slot, claim, now)
      ensures IsDecision(cfg, View(), Event.Admit(rental, customer, slot, claim, false), now, d)
      ensures d.Queued? ==> CoversWait(d.minutes, d.seconds)
    {
      if rental in active {
        active := active[rental := active[rental].(lastSeenAt := now)];
        return Decision.Active(active[rental]);
      }
      var i := QueuedEntry(rental);
      if i < |queue| {
        var oldEntry := queue[i];
        ghost var q := queue;
        queue := queue[i := Refreshed(oldEntry, customer, slot, claim, now)];
        EditEntryIndex(q, i, queue[i], rental);
        d := Decide(i, now);
        return;
      }
      if |active| < cfg.Capacity() {
        if !claim {
          return Untracked;
        }
        active := active[rental := NewLease(cfg, rental, customer, slot, now, false)];
        PublishBusy();
        return Decision.Active(active[rental]);
      }
      AppendIndex(queue, Entry(rental, customer, slot, now, now, true), rental);
      queue := queue + [Entry(rental, customer, slot, now, now, true)];
      d := Decide(|queue| - 1, now);
    }

    method Decide(i: nat, now: real) returns (d: Decision)
      requires i < |queue|
      ensures d.Queued? && d.position == i + 1 && d.minutes == WaitMinutes(d.seconds)
      ensures IsWaitEstimate(cfg, View(), now, i + 1, d.seconds)
      ensures CoversWait(d.minutes, d.seconds)
    {
      var seconds := EstimateWait(i + 1, now);
      d := Decision.Queued(i + 1, seconds, WaitMinutes(seconds));
    }

    method MarkPrepared(rental: string, streamUrl: string, now: real)
      modifies this
      ensures View() == Step(cfg, old(View()), Event.MarkPrepared(rental, streamUrl), now)
    {
      if rental !in active {
        return;
      }
      var lease := active[rental].(prepared := true, needsGrant := false);
      if streamUrl != "" {
        lease := lease.(streamUrl := streamUrl);
      }
      active := active[rental := lease.(lastSeenAt := now)];
    }

    method Release(rental: string, now: real) returns (dropped: Option<Lease>)
      modifies this
      ensures View() == Step(cfg, old(View()), Event.Release(rental), now)
      ensures dropped == if rental in old(active) then Some(old(active)[rental]) else None
    {
      hide Fill, Publish, Promote, Prune, AdmitPruned;
      dropped := if rental in active then Some(active[rental]) else None;
      active := active - {rental};
      var kept: seq<Entry> := [];
      for i := 0 to |queue|
        invariant queue == old(queue) && active == old(active) - {rental}
        invariant adminSlots == old(adminSlots) && busy == old(busy) && published == old(published)
        invariant kept + Without(queue[i..], rental) == Without(queue, rental)
      {
        assert queue[i..][1..] == queue[i + 1..];
        if queue[i].rental != rental {
          kept := kept + [queue[i]];
        }
      }
      assert kept == Without(queue, rental);
      queue := kept;
      PromoteWaiting(now);
    }

    method MarkAdmin(slot: int, on: bool)
      modifies this
      ensures View() == SetAdmin(old(View()), slot, on)
      ensures adminSlots == if on then old(adminSlots) + {slot} else old(adminSlots) - {slot}
      ensures active == old(active) && queue == old(queue)
    {
      adminSlots := if on then adminSlots + {slot} else adminSlots - {slot};
      PublishBusy();
    }

    method HasBusyStreams(now: real) returns (b: bool)
      modifies this
      ensures View() == Step(cfg, old(View()), Poll, now)
      ensures b == (active != map[] || adminSlots != {})
    {
      PruneTable(now);
      b := active != map[] || adminSlots != {};
    }

    method ActiveCount(now: real) returns (n: nat)
      modifies this
      ensures View() == Step(cfg, old(View()), Poll, now)
      ensures n == |active|
    {
      PruneTable(now);
      n := |active|;
    }
  }
}
