/**
 The process-wide bandwidth flags, and the refresh interval they push to every
 registered status snapshot.
 */
module StreamBandwidth {
  import opened StreamQueueModel
  import opened StreamQueueRuns

  const SNAPSHOT_RELAXED_SECONDS := 10.0
  const DEFAULT_REFRESH_SECONDS := 4.0
  const INPUT_BUSY_HOLD_SECONDS := 60.0

  class Snapshot {
    var interval: real

    constructor (interval: real)
      ensures this.interval == AtLeastOne(interval)
    {
      this.interval := AtLeastOne(interval);
    }

    method SetInterval(seconds: real)
      modifies this
      ensures interval == AtLeastOne(seconds)
    {
      interval := AtLeastOne(seconds);
    }
  }

  function AtLeastOne(x: real): real {
    if x > 1.0 then x else 1.0
  }

  predicate RecentInput(lastInput: map<int, real>, stamp: real) {
    exists slot :: slot in lastInput && stamp - lastInput[slot] < INPUT_BUSY_HOLD_SECONDS
  }

  class Governor {
    var customerBusy: bool
    var adminSlots: set<int>
    var lastInput: map<int, real>
    var snapshots: seq<Snapshot>

    constructor ()
      ensures !customerBusy && adminSlots == {} && lastInput == map[] && snapshots == []
    {
      customerBusy, adminSlots, lastInput, snapshots := false, {}, map[], [];
    }

    /** A customer or an administrator watches, or some slot had input less than a minute before. */
    ghost predicate BusyAt(stamp: real)
      reads this
    {
      customerBusy || adminSlots != {} || exists slot :: slot in lastInput && stamp - lastInput[slot] < 60.0
    }

    /**
     Every registered snapshot refreshes every ten seconds if some
     stream is busy at `stamp`, and every four otherwise.
     */
    ghost predicate Applied(stamp: real)
      reads this, snapshots
    {
      forall i :: 0 <= i < |snapshots| ==> snapshots[i].interval == if BusyAt(stamp) then 10.0 else 4.0
    }

    method ApplyIntervals(stamp: real)
      modifies snapshots
      ensures Applied(stamp)
    {
      var busy := customerBusy || adminSlots != {};
      if !busy {
        busy := RecentInput(lastInput, stamp);
      }
      var interval := if busy then SNAPSHOT_RELAXED_SECONDS else DEFAULT_REFRESH_SECONDS;
      for i := 0 to |snapshots|
        invariant forall j :: 0 <= j < i ==> snapshots[j].interval == interval
      {
        snapshots[i].SetInterval(interval);
      }
    }

    method RegisterSnapshot(snapshot: Snapshot?, stamp: real)
      modifies this`snapshots, snapshots, snapshot
      ensures snapshot == null ==> snapshots == old(snapshots)
      ensures snapshot != null ==> Applied(stamp)
      ensures snapshot != null ==>
        snapshots == if snapshot in old(snapshots) then old(snapshots) else old(snapshots) + [snapshot]
    {
      if snapshot == null {
        return;
      }
      if snapshot !in snapshots {
        snapshots := snapshots + [snapshot];
      }
      ApplyIntervals(stamp);
    }

    method SetCustomerStreamsBusy(busy: bool, stamp: real)
      modifies this`customerBusy, snapshots
      ensures customerBusy == busy && Applied(stamp)
    {
      customerBusy := busy;
      ApplyIntervals(stamp);
    }

    method SetAdminSlot(slot: int, on: bool, stamp: real)
      modifies this`adminSlots, snapshots
      ensures adminSlots == (if on then old(adminSlots) + {slot} else old(adminSlots) - {slot}) && Applied(stamp)
    {
      adminSlots := if on then adminSlots + {slot} else adminSlots - {slot};
      ApplyIntervals(stamp);
    }

    method NoteSlotInput(slot: int, at: real, stamp: real)
      modifies this`lastInput, snapshots
      ensures lastInput == old(lastInput)[slot := at] && Applied(stamp)
    {
      lastInput := lastInput[slot := at];
      ApplyIntervals(stamp);
    }

    /** Delivers a busy trace of the stream queue, one callback at a time. */
    method Deliver(trace: seq<bool>, stamps: seq<real>)
      requires |stamps| == |trace|
      modifies this`customerBusy, snapshots
      ensures customerBusy == if trace == [] then old(customerBusy) else trace[|trace| - 1]
      ensures trace != [] ==> Applied(stamps[|stamps| - 1])
    {
      for i := 0 to |trace|
        invariant customerBusy == if i == 0 then old(customerBusy) else trace[i - 1]
        invariant i > 0 ==> Applied(stamps[i - 1])
      {
        SetCustomerStreamsBusy(trace[i], stamps[i]);
      }
    }

    /**
     The callback wiring over every run of the queue: a governor that starts idle and is called back with
     every published value ends with its flag saying whether the queue has a lease or an admin stream, and
     with the intervals that follow from it.
     */
    method DeliveredFlagMatchesQueue(cfg: Config, evs: seq<Timed>, from: real, stamps: seq<real>)
      requires InOrder(evs, from) && !customerBusy && |stamps| == |Run(cfg, INITIAL, evs).published|
      modifies this`customerBusy, snapshots
      ensures var s := Run(cfg, INITIAL, evs); customerBusy == (s.active != map[] || s.adminSlots != {})
      ensures stamps != [] ==> Applied(stamps[|stamps| - 1])
    {
      hide Run;
      LastPublished(cfg, evs, from);
      Deliver(Run(cfg, INITIAL, evs).published, stamps);
    }
  }

  /**
   Over every run of the queue the last value published says whether a
   lease or admin stream exists; nothing published means none.
   */
  lemma LastPublished(cfg: Config, evs: seq<Timed>, from: real)
    requires InOrder(evs, from)
    ensures var s := Run(cfg, INITIAL, evs);
      (if s.published == [] then false else s.published[|s.published| - 1]) == (s.active != map[] || s.adminSlots != {})
  {
    ReachableInvariant(cfg, evs, from);
  }
}
