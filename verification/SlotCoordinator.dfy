/**
 Threads over the per-slot locks, the optional global semaphore and the reboot gate,
 at the granularity of one acquire or release per step. The three clients are
 provisioning (blocking), proxy reconciliation and health recovery (non-blocking).
 */
module SlotCoordinator {
  import opened Basics

  datatype Config = Config(slots: set<int>, limit: Option<nat>)

  datatype Client = Provision | EnsureRoute | Recover

  /**
   `AskGate` to `Leave` hold the slot lock; `AskLock` to `Return` hold a permit when
   there is a semaphore. The body may raise: leaving is the same either way.
   */
  datatype Phase =
    | Idle
    | AskPermit(client: Client, slot: int)
    | AskLock(client: Client, slot: int)
    | Body(client: Client, slot: int) // provisioning or route repair on the device
    | AskGate(slot: int)
    | Reboot(slot: int)
    | Leave(slot: int)
    | Return

  datatype State = State(threads: seq<Phase>, locks: map<int, nat>, gate: Option<nat>, permits: nat)

  datatype Step = Begin(t: nat, client: Client, slot: int) | Go(t: nat)

  function Initial(cfg: Config, threadCount: nat): State {
    State(seq(threadCount, _ => Idle), map[], None, cfg.limit.GetOr(0))
  }

  function Set(s: State, t: nat, p: Phase): State
    requires t < |s.threads|
  {
    s.(threads := s.threads[t := p])
  }

  /** Whether thread `t` can take its next step now. A blocking acquire waits; a non-blocking one gives up instead. */
  predicate CanGo(cfg: Config, s: State, t: nat) {
    t < |s.threads| &&
    match s.threads[t]
    case Idle => false
    case AskPermit(client, slot) => cfg.limit.None? || s.permits > 0 || !client.Provision?
    case AskLock(client, slot) => slot !in s.locks || !client.Provision?
    case _ => true
  }

  function Next(cfg: Config, s: State, t: nat): State
    requires CanGo(cfg, s, t)
  {
    match s.threads[t]
    case AskPermit(client, slot) =>
      if cfg.limit.None? then Set(s, t, AskLock(client, slot))
      else if s.permits > 0 then Set(s, t, AskLock(client, slot)).(permits := s.permits - 1)
      else Set(s, t, Idle)
    case AskLock(client, slot) =>
      if slot in s.locks then Set(s, t, Return)
      else Set(s, t, if client.Recover? then AskGate(slot) else Body(client, slot)).(locks := s.locks[slot := t])
    case Body(client, slot) => Set(s, t, Leave(slot))
    case AskGate(slot) =>
      if s.gate.None? then Set(s, t, Reboot(slot)).(gate := Some(t)) else Set(s, t, Leave(slot))
    case Reboot(slot) => Set(s, t, Leave(slot)).(gate := None)
    case Leave(slot) => Set(s, t, Return).(locks := s.locks - {slot})
    case Return => Set(s, t, Idle).(permits := if cfg.limit.Some? then s.permits + 1 else s.permits)
  }

  /** A step that is not enabled changes nothing; an unknown slot raises before anything is acquired. */
  function Apply(cfg: Config, s: State, step: Step): State {
    match step
    case Begin(t, client, slot) =>
      if t < |s.threads| && s.threads[t].Idle? && slot in cfg.slots then Set(s, t, AskPermit(client, slot)) else s
    case Go(t) => if CanGo(cfg, s, t) then Next(cfg, s, t) else s
  }

  function Run(cfg: Config, s: State, steps: seq<Step>): State
    decreases |steps|
  {
    if steps == [] then s else Run(cfg, Apply(cfg, s, steps[0]), steps[1..])
  }

  predicate HoldsLock(p: Phase, slot: int) {
    (p.Body? || p.AskGate? || p.Reboot? || p.Leave?) && p.slot == slot
  }

  predicate HoldsPermit(p: Phase) {
    p.AskLock? || p.Body? || p.AskGate? || p.Reboot? || p.Leave? || p.Return?
  }

  function PermitHolders(s: State): set<nat> {
    set t: nat | t < |s.threads| && HoldsPermit(s.threads[t])
  }

  // ----- invariant -------------------------------------------------------

  ghost predicate LocksOk(s: State) {
    && (forall slot :: slot in s.locks ==> s.locks[slot] < |s.threads| && HoldsLock(s.threads[s.locks[slot]], slot))
    && (forall t, slot :: 0 <= t < |s.threads| && HoldsLock(s.threads[t], slot) ==>
      slot in s.locks && s.locks[slot] == t)
  }

  ghost predicate GateOk(s: State) {
    && (s.gate.Some? ==> s.gate.value < |s.threads| && s.threads[s.gate.value].Reboot?)
    && (forall t: nat :: t < |s.threads| && s.threads[t].Reboot? ==> s.gate == Some(t))
  }

  /** Permits plus the threads inside an acquire always add up to the semaphore's bound. */
  ghost predicate PermitsOk(cfg: Config, s: State) {
    cfg.limit.Some? ==> s.permits + |PermitHolders(s)| == cfg.limit.value
  }

  ghost predicate Inv(cfg: Config, s: State) {
    LocksOk(s) && GateOk(s) && PermitsOk(cfg, s)
  }

  lemma HoldersAfter(s: State, t: nat, p: Phase)
    requires t < |s.threads|
    ensures HoldsPermit(p) ==> PermitHolders(Set(s, t, p)) == PermitHolders(s) + {t}
    ensures !HoldsPermit(p) ==> PermitHolders(Set(s, t, p)) == PermitHolders(s) - {t}
  {
  }

  lemma NextKeepsPermits(cfg: Config, s: State, t: nat)
    requires Inv(cfg, s) && CanGo(cfg, s, t)
    ensures PermitsOk(cfg, Next(cfg, s, t))
  {
    var n := Next(cfg, s, t);
    HoldersAfter(s, t, n.threads[t]);
    assert PermitHolders(n) == PermitHolders(Set(s, t, n.threads[t]));
    assert HoldsPermit(s.threads[t]) <==> t in PermitHolders(s);
  }

  lemma LockTaken(s: State, t: nat, p: Phase, slot: int)
    requires LocksOk(s) && t < |s.threads| && s.threads[t].AskLock? && slot !in s.locks
    requires forall x :: HoldsLock(p, x) <==> x == slot
    ensures LocksOk(Set(s, t, p).(locks := s.locks[slot := t]))
  {
  }

  lemma LockKept(s: State, t: nat, p: Phase)
    requires LocksOk(s) && t < |s.threads| && forall x :: HoldsLock(p, x) <==> HoldsLock(s.threads[t], x)
    ensures LocksOk(Set(s, t, p))
  {
  }

  lemma LockDropped(s: State, t: nat)
    requires LocksOk(s) && t < |s.threads| && s.threads[t].Leave?
    ensures LocksOk(Set(s, t, Return).(locks := s.locks - {s.threads[t].slot}))
  {
    var slot := s.threads[t].slot;
    assert HoldsLock(s.threads[t], slot);
    var n := Set(s, t, Return).(locks := s.locks - {slot});
    forall u, x | 0 <= u < |n.threads| && HoldsLock(n.threads[u], x) ensures x in n.locks && n.locks[x] == u {
      assert u != t && n.threads[u] == s.threads[u];
      assert s.locks[x] == u && s.locks[slot] == t;
      assert x in s.locks.Keys - {slot};
    }
  }

  lemma NextKeepsLocks(cfg: Config, s: State, t: nat)
    requires Inv(cfg, s) && CanGo(cfg, s, t)
    ensures LocksOk(Next(cfg, s, t))
  {
    var n := Next(cfg, s, t);
    var p := s.threads[t];
    if p.AskLock? && p.slot !in s.locks {
      LockTaken(s, t, n.threads[t], p.slot);
    } else if p.Leave? {
      LockDropped(s, t);
    } else {
      LockKept(s, t, n.threads[t]);
    }
  }

  lemma NextKeepsGate(cfg: Config, s: State, t: nat)
    requires Inv(cfg, s) && CanGo(cfg, s, t)
    ensures GateOk(Next(cfg, s, t))
  {
  }

  lemma BeginKeeps(cfg: Config, s: State, t: nat, p: Phase)
    requires Inv(cfg, s) && t < |s.threads| && s.threads[t].Idle? && p.AskPermit?
    ensures Inv(cfg, Set(s, t, p))
  {
    HoldersAfter(s, t, p);
    assert t !in PermitHolders(s);
    assert PermitHolders(Set(s, t, p)) == PermitHolders(s);
    LockKept(s, t, p);
  }

  lemma ApplyKeeps(cfg: Config, s: State, step: Step)
    requires Inv(cfg, s)
    ensures Inv(cfg, Apply(cfg, s, step)) && |Apply(cfg, s, step).threads| == |s.threads|
  {
    match step
    case Begin(t, client, slot) =>
      if t < |s.threads| && s.threads[t].Idle? && slot in cfg.slots {
        BeginKeeps(cfg, s, t, AskPermit(client, slot));
      }
    case Go(t) =>
      if CanGo(cfg, s, t) {
        NextKeepsLocks(cfg, s, t);
        NextKeepsGate(cfg, s, t);
        NextKeepsPermits(cfg, s, t);
      }
  }

  lemma {:induction false} RunKeeps(cfg: Config, s: State, steps: seq<Step>)
    requires Inv(cfg, s)
    ensures Inv(cfg, Run(cfg, s, steps)) && |Run(cfg, s, steps).threads| == |s.threads|
    decreases |steps|
  {
    if steps != [] {
      ApplyKeeps(cfg, s, steps[0]);
      RunKeeps(cfg, Apply(cfg, s, steps[0]), steps[1..]);
    }
  }

  lemma InitialOk(cfg: Config, n: nat)
    ensures Inv(cfg, Initial(cfg, n))
  {
    assert PermitHolders(Initial(cfg, n)) == {};
  }

  /** The phone of a slot is being worked on. */
  predicate WorksOn(p: Phase, slot: int) {
    (p.Body? || p.Reboot?) && p.slot == slot
  }

  /** In every interleaving: one worker per slot, one reboot at a time, and a conserved semaphore. */
  lemma MutualExclusion(cfg: Config, n: nat, steps: seq<Step>, t: nat, u: nat, slot: int)
    requires t < n && u < n && t != u
    ensures var s := Run(cfg, Initial(cfg, n), steps);
      && |s.threads| == n
      && !(WorksOn(s.threads[t], slot) && WorksOn(s.threads[u], slot))
      && !(s.threads[t].Reboot? && s.threads[u].Reboot?)
      && (cfg.limit.Some? ==> s.permits + |PermitHolders(s)| == cfg.limit.value)
  {
    InitialOk(cfg, n);
    RunKeeps(cfg, Initial(cfg, n), steps);
    var s := Run(cfg, Initial(cfg, n), steps);
    hide Run;
    assert LocksOk(s) && GateOk(s);
    assert WorksOn(s.threads[t], slot) ==> HoldsLock(s.threads[t], slot) && s.locks[slot] == t;
    assert WorksOn(s.threads[u], slot) ==> HoldsLock(s.threads[u], slot) && s.locks[slot] == u;
  }

  // ----- who gets what they ask for --------------------------------------

  ghost predicate PermitFree(cfg: Config, s: State) {
    cfg.limit.Some? ==> |PermitHolders(s)| < cfg.limit.value
  }

  ghost predicate SlotFree(s: State, slot: int) {
    forall u :: 0 <= u < |s.threads| ==> !HoldsLock(s.threads[u], slot)
  }

  ghost predicate NobodyReboots(s: State) {
    forall u :: 0 <= u < |s.threads| ==> !s.threads[u].Reboot?
  }

  /**
   In every state the invariant allows: a provisioner waits exactly while the permits or its slot are taken, all
   others go on without; whoever asks gets the permit, the slot and the reboot gate exactly if they are free.
   */
  lemma AskingExact(cfg: Config, s: State, t: nat)
    requires Inv(cfg, s) && t < |s.threads|
    ensures match s.threads[t]
      case AskPermit(client, slot) =>
        && (CanGo(cfg, s, t) <==> PermitFree(cfg, s) || !client.Provision?)
        && (CanGo(cfg, s, t) ==>
              Next(cfg, s, t).threads[t] == if PermitFree(cfg, s) then AskLock(client, slot) else Idle)
      case AskLock(client, slot) =>
        && (CanGo(cfg, s, t) <==> SlotFree(s, slot) || !client.Provision?)
        && (CanGo(cfg, s, t) ==>
              Next(cfg, s, t).threads[t] ==
                if !SlotFree(s, slot) then Return else if client.Recover? then AskGate(slot) else Body(client, slot))
      case AskGate(slot) =>
        CanGo(cfg, s, t) && Next(cfg, s, t).threads[t] == if NobodyReboots(s) then Reboot(slot) else Leave(slot)
      case _ => true
  {
    match s.threads[t]
    case AskPermit(client, slot) =>
    case AskLock(client, slot) =>
      assert slot in s.locks ==> HoldsLock(s.threads[s.locks[slot]], slot);
      assert SlotFree(s, slot) <==> slot !in s.locks;
    case AskGate(slot) =>
      assert NobodyReboots(s) <==> s.gate.None?;
    case _ =>
  }

  lemma OneHolder(s: State, t: nat, u: nat, slot: int)
    requires LocksOk(s) && t < |s.threads| && u < |s.threads|
    requires HoldsLock(s.threads[t], slot) && HoldsLock(s.threads[u], slot)
    ensures t == u
  {
    assert s.locks[slot] == t;
  }

  lemma OneReboots(s: State, t: nat, u: nat)
    requires GateOk(s) && t < |s.threads| && u < |s.threads| && s.threads[t].Reboot? && s.threads[u].Reboot?
    ensures t == u
  {
    assert s.gate == Some(t);
  }

  /** A thread that is done gives everything back: the slot, the gate, and at last the permit. */
  lemma LeavingExact(cfg: Config, s: State, t: nat)
    requires Inv(cfg, s) && CanGo(cfg, s, t)
    ensures var n := Next(cfg, s, t);
      && (forall u :: 0 <= u < |s.threads| && u != t ==> n.threads[u] == s.threads[u])
      && match s.threads[t]
         case Body(_, slot) => n.threads[t] == Leave(slot)
         case Reboot(slot) => n.threads[t] == Leave(slot) && NobodyReboots(n)
         case Leave(slot) => n.threads[t] == Return && SlotFree(n, slot)
         case Return => n.threads[t] == Idle && (cfg.limit.Some? ==> n.permits == s.permits + 1)
         case _ => true
  {
    var n := Next(cfg, s, t);
    assert forall u :: 0 <= u < |s.threads| && u != t ==> n.threads[u] == s.threads[u];
    if s.threads[t].Leave? {
      var slot := s.threads[t].slot;
      assert HoldsLock(s.threads[t], slot);
      forall u | 0 <= u < |n.threads| ensures !HoldsLock(n.threads[u], slot) {
        if u != t && HoldsLock(s.threads[u], slot) {
          OneHolder(s, t, u, slot);
        }
      }
    } else if s.threads[t].Reboot? {
      forall u: nat | u < |n.threads| ensures !n.threads[u].Reboot? {
        if u != t && s.threads[u].Reboot? {
          OneReboots(s, t, u);
        }
      }
    }
  }

  // ----- progress --------------------------------------------------------

  ghost predicate AllIdle(s: State) {
    forall t :: 0 <= t < |s.threads| ==> s.threads[t].Idle?
  }

  ghost predicate Positive(cfg: Config) {
    cfg.limit.Some? ==> cfg.limit.value >= 1
  }

  /** No deadlock: unless everybody is idle, some thread can take its next step. */
  lemma SomeThreadCanGo(cfg: Config, s: State)
    requires Inv(cfg, s) && Positive(cfg) && !AllIdle(s)
    ensures exists t: nat :: CanGo(cfg, s, t)
  {
    if t: nat :| t < |s.threads| && !s.threads[t].Idle? && !s.threads[t].AskPermit? && !s.threads[t].AskLock? {
      assert CanGo(cfg, s, t);
    } else if t: nat :| t < |s.threads| && s.threads[t].AskLock? {
      // nobody holds a lock, so this one is free
      assert s.threads[t].slot !in s.locks;
      assert CanGo(cfg, s, t);
    } else {
      // nobody holds a permit either
      assert PermitHolders(s) == {};
      var t: nat :| t < |s.threads| && !s.threads[t].Idle?;
      assert CanGo(cfg, s, t);
    }
  }

  /** An upper bound on the steps left in one acquire. */
  function Rank(p: Phase): nat {
    match p
    case Idle => 0
    case Return => 1
    case Leave(_) => 2
    case Reboot(_) => 3
    case Body(_, _) => 3
    case AskGate(_) => 4
    case AskLock(_, _) => 5
    case AskPermit(_, _) => 6
  }

  function TotalRank(threads: seq<Phase>): nat {
    if threads == [] then 0 else Rank(threads[0]) + TotalRank(threads[1..])
  }

  lemma {:induction false} RankAfter(threads: seq<Phase>, t: nat, p: Phase)
    requires t < |threads|
    ensures TotalRank(threads[t := p]) == TotalRank(threads) - Rank(threads[t]) + Rank(p)
  {
    if t > 0 {
      assert threads[t := p][1..] == threads[1..][t - 1 := p];
      RankAfter(threads[1..], t - 1, p);
    } else {
      assert threads[t := p][1..] == threads[1..];
    }
  }

  /** Every step of a thread uses up rank, so no schedule runs forever on the work in hand. */
  lemma GoDescends(cfg: Config, s: State, t: nat)
    requires CanGo(cfg, s, t)
    ensures TotalRank(Next(cfg, s, t).threads) < TotalRank(s.threads)
  {
    var n := Next(cfg, s, t);
    RankAfter(s.threads, t, n.threads[t]);
    assert n.threads == s.threads[t := n.threads[t]];
  }

  /** From every reachable state the work in hand can be finished: some schedule lets everybody go idle. */
  lemma {:induction false} CanDrain(cfg: Config, s: State) returns (steps: seq<Step>)
    requires Inv(cfg, s) && Positive(cfg)
    ensures AllIdle(Run(cfg, s, steps)) && |steps| <= TotalRank(s.threads)
    decreases TotalRank(s.threads)
  {
    if AllIdle(s) {
      steps := [];
    } else {
      SomeThreadCanGo(cfg, s);
      var t: nat :| CanGo(cfg, s, t);
      ApplyKeeps(cfg, s, Go(t));
      GoDescends(cfg, s, t);
      var rest := CanDrain(cfg, Next(cfg, s, t));
      steps := [Go(t)] + rest;
      assert steps[1..] == rest;
    }
  }
}
