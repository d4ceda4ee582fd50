/** The two-level semaphore in front of the code executor: a global slot, then a slot of the
    tenant, with roll-back of the first when the second is not to be had. Channels are
    counters; a send or a receive is one atomic step. */
module Semaphore {

  datatype Caps = Caps(global: nat, perTenant: int)

  /** Channel occupancies. A tenant's channel exists once somebody asked for it. */
  datatype Slots = Slots(global: nat, tenants: map<string, nat>)

  const EMPTY := Slots(0, map[])

  /** Whether a call needs a tenant slot as well. */
  predicate Limited(caps: Caps, tenant: string) {
    caps.perTenant > 0 && tenant != ""
  }

  function Used(s: Slots, tenant: string): nat {
    if tenant in s.tenants then s.tenants[tenant] else 0
  }

  /** Both levels have a free slot for the tenant. */
  predicate HasRoom(caps: Caps, slots: Slots, tenant: string) {
    slots.global < caps.global && (Limited(caps, tenant) ==> Used(slots, tenant) < caps.perTenant)
  }

  // ----- One call on its own -----

  class Limiter {
    const caps: Caps
    var global: nat
    var tenantSems: map<string, nat>

    function View(): Slots reads this { Slots(global, tenantSems) }

    constructor (globalCap: nat, perTenant: int)
      ensures caps == Caps(globalCap, perTenant) && View() == EMPTY
    {
      caps := Caps(globalCap, perTenant);
      global := 0;
      tenantSems := map[];
    }

    /** Takes both slots or none. */
    method Acquire(tenant: string) returns (ok: bool)
      modifies this
      ensures ok <==> HasRoom(caps, old(View()), tenant)
      ensures global == old(global) + if ok then 1 else 0
      ensures ok && Limited(caps, tenant) ==> tenant in tenantSems
      ensures forall t: string :: Used(View(), t) == old(Used(View(), t)) + if ok && Limited(caps, tenant) && t == tenant then 1 else 0
    {
      if global >= caps.global {
        return false;
      }
      global := global + 1;
      if caps.perTenant > 0 && tenant != "" {
        if tenant !in tenantSems {
          tenantSems := tenantSems[tenant := 0];
        }
        if tenantSems[tenant] < caps.perTenant {
          tenantSems := tenantSems[tenant := tenantSems[tenant] + 1];
        } else {
          global := global - 1;
          return false;
        }
      }
      ok := true;
    }

    /** Returns the slots; only a caller that holds them may ask, or the receive would block. */
    method Release(tenant: string)
      requires global > 0 && (Limited(caps, tenant) ==> Used(View(), tenant) > 0)
      modifies this
      ensures global == old(global) - 1
      ensures forall t: string :: Used(View(), t) == old(Used(View(), t)) - if Limited(caps, tenant) && t == tenant then 1 else 0
    {
      global := global - 1;
      if caps.perTenant > 0 && tenant != "" {
        if tenant in tenantSems {
          tenantSems := tenantSems[tenant := tenantSems[tenant] - 1];
        }
      }
    }

    /** The bracket of the executor: whatever the run does, the slots are as before it. */
    method Execute(tenant: string, work: () -> string) returns (ran: bool, output: string)
      modifies this
      ensures ran <==> HasRoom(caps, old(View()), tenant)
      ensures ran ==> output == work()
      ensures global == old(global)
      ensures forall t: string :: Used(View(), t) == old(Used(View(), t))
    {
      ran := Acquire(tenant);
      if !ran {
        return false, "";
      }
      output := work();
      assert Limited(caps, tenant) ==> Used(View(), tenant) > 0;
      Release(tenant);
    }
  }

  // ----- Any number of calls at once -----

  datatype Pc =
    | Start
    | HoldsGlobal      // global slot taken, tenant slot next
    | RollsBack        // tenant full, about to receive from the global channel
    | Running
    | Releasing        // about to receive from the global channel
    | ReleasingTenant  // about to receive from the tenant's channel
    | Ended(ran: bool)

  datatype Job = Job(tenant: string, pc: Pc)

  datatype Sys = Sys(slots: Slots, jobs: map<nat, Job>)

  datatype Action = Spawn(id: nat, tenant: string) | Step(id: nat)

  /** A receive from an empty channel: the goroutine would hang. */
  predicate Blocked(s: Sys, id: nat)
    requires id in s.jobs
  {
    var j := s.jobs[id];
    || ((j.pc.RollsBack? || j.pc.Releasing?) && s.slots.global == 0)
    || (j.pc.ReleasingTenant? && j.tenant in s.slots.tenants && s.slots.tenants[j.tenant] == 0)
  }

  function Move(s: Sys, id: nat, slots: Slots, pc: Pc): Sys
    requires id in s.jobs
  {
    Sys(slots, s.jobs[id := s.jobs[id].(pc := pc)])
  }

  function StepJob(caps: Caps, s: Sys, id: nat): Sys
    requires id in s.jobs
  {
    var j, c := s.jobs[id], s.slots;
    if Blocked(s, id) then s
    else match j.pc
      case Start =>
        if c.global < caps.global then Move(s, id, c.(global := c.global + 1), HoldsGlobal)
        else Move(s, id, c, Ended(false))
      case HoldsGlobal =>
        if !Limited(caps, j.tenant) then Move(s, id, c, Running)
        else
          var n := Used(c, j.tenant);
          if n < caps.perTenant then Move(s, id, c.(tenants := c.tenants[j.tenant := n + 1]), Running)
          else Move(s, id, c.(tenants := c.tenants[j.tenant := n]), RollsBack)
      case RollsBack => Move(s, id, c.(global := c.global - 1), Ended(false))
      case Running => Move(s, id, c, Releasing)
      case Releasing =>
        Move(s, id, c.(global := c.global - 1), if Limited(caps, j.tenant) then ReleasingTenant else Ended(true))
      case ReleasingTenant =>
        if j.tenant in c.tenants then Move(s, id, c.(tenants := c.tenants[j.tenant := c.tenants[j.tenant] - 1]), Ended(true))
        else Move(s, id, c, Ended(true))
      case Ended(_) => s
  }

  function Next(caps: Caps, s: Sys, a: Action): Sys {
    match a
    case Spawn(id, tenant) => if id in s.jobs then s else s.(jobs := s.jobs[id := Job(tenant, Start)])
    case Step(id) => if id in s.jobs then StepJob(caps, s, id) else s
  }

  function ExecFrom(caps: Caps, s: Sys, acts: seq<Action>): Sys
    decreases |acts|
  {
    if acts == [] then s else ExecFrom(caps, Next(caps, s, acts[0]), acts[1..])
  }

  function Exec(caps: Caps, acts: seq<Action>): Sys {
    ExecFrom(caps, Sys(EMPTY, map[]), acts)
  }

  // ----- Who holds what -----

  predicate HasGlobal(j: Job) {
    j.pc.HoldsGlobal? || j.pc.RollsBack? || j.pc.Running? || j.pc.Releasing?
  }

  predicate HasTenant(caps: Caps, j: Job, tenant: string) {
    j.tenant == tenant && Limited(caps, tenant) && (j.pc.Running? || j.pc.Releasing? || j.pc.ReleasingTenant?)
  }

  function GlobalHolders(jobs: map<nat, Job>): set<nat> {
    set id | id in jobs && HasGlobal(jobs[id])
  }

  function TenantHolders(caps: Caps, jobs: map<nat, Job>, tenant: string): set<nat> {
    set id | id in jobs && HasTenant(caps, jobs[id], tenant)
  }

  function RunningJobs(jobs: map<nat, Job>): set<nat> {
    set id | id in jobs && jobs[id].pc.Running?
  }

  function RunningFor(jobs: map<nat, Job>, tenant: string): set<nat> {
    set id | id in jobs && jobs[id].pc.Running? && jobs[id].tenant == tenant
  }

  /** Occupancies count exactly the calls that hold a slot. */
  ghost predicate Inv(caps: Caps, s: Sys) {
    && s.slots.global == |GlobalHolders(s.jobs)| <= caps.global
    && (forall t: string :: Used(s.slots, t) == |TenantHolders(caps, s.jobs, t)|)
    && (forall t: string | Limited(caps, t) :: Used(s.slots, t) <= caps.perTenant)
    && (forall id | id in s.jobs && s.jobs[id].pc.ReleasingTenant? :: Limited(caps, s.jobs[id].tenant))
  }

  lemma GlobalHoldersUpdate(jobs: map<nat, Job>, id: nat, j: Job)
    requires id in jobs
    ensures |GlobalHolders(jobs[id := j])| == |GlobalHolders(jobs)| + (if HasGlobal(j) then 1 else 0) - (if HasGlobal(jobs[id]) then 1 else 0)
  {
    var before, after := GlobalHolders(jobs), GlobalHolders(jobs[id := j]);
    assert after == if HasGlobal(j) then before + {id} else before - {id};
  }

  lemma TenantHoldersUpdate(caps: Caps, jobs: map<nat, Job>, id: nat, j: Job, t: string)
    requires id in jobs
    ensures |TenantHolders(caps, jobs[id := j], t)| ==
      |TenantHolders(caps, jobs, t)| + (if HasTenant(caps, j, t) then 1 else 0) - (if HasTenant(caps, jobs[id], t) then 1 else 0)
  {
    var before, after := TenantHolders(caps, jobs, t), TenantHolders(caps, jobs[id := j], t);
    assert after == if HasTenant(caps, j, t) then before + {id} else before - {id};
  }

  lemma GlobalCountKept(caps: Caps, s: Sys, id: nat)
    requires Inv(caps, s) && id in s.jobs
    ensures var s' := StepJob(caps, s, id); s'.slots.global == |GlobalHolders(s'.jobs)| <= caps.global
  {
    var s' := StepJob(caps, s, id);
    assert s'.jobs == s.jobs[id := s'.jobs[id]];
    GlobalHoldersUpdate(s.jobs, id, s'.jobs[id]);
  }

  lemma TenantCountKept(caps: Caps, s: Sys, id: nat, t: string)
    requires Inv(caps, s) && id in s.jobs
    ensures var s' := StepJob(caps, s, id);
      && Used(s'.slots, t) == |TenantHolders(caps, s'.jobs, t)|
      && (Limited(caps, t) ==> Used(s'.slots, t) <= caps.perTenant)
  {
    assert Used(s.slots, t) == |TenantHolders(caps, s.jobs, t)|;
    assert HasTenant(caps, s.jobs[id], t) ==> id in TenantHolders(caps, s.jobs, t);
    StepMovesTenantSlot(caps, s, id, t);
    TenantHoldersUpdate(caps, s.jobs, id, StepJob(caps, s, id).jobs[id], t);
  }

  /** A step takes or gives back a tenant's slot exactly when it makes the call a holder of it or stops it being one. */
  lemma StepMovesTenantSlot(caps: Caps, s: Sys, id: nat, t: string)
    requires id in s.jobs && (s.jobs[id].pc.ReleasingTenant? ==> Limited(caps, s.jobs[id].tenant))
    requires HasTenant(caps, s.jobs[id], t) ==> Used(s.slots, t) > 0
    requires Limited(caps, t) ==> Used(s.slots, t) <= caps.perTenant
    ensures var s' := StepJob(caps, s, id);
      && id in s'.jobs && s'.jobs == s.jobs[id := s'.jobs[id]]
      && Used(s'.slots, t) == Used(s.slots, t) + (if HasTenant(caps, s'.jobs[id], t) then 1 else 0) - (if HasTenant(caps, s.jobs[id], t) then 1 else 0)
      && (Limited(caps, t) ==> Used(s'.slots, t) <= caps.perTenant)
  {
    assert s.jobs == s.jobs[id := s.jobs[id]];
  }

  lemma StepKeepsInv(caps: Caps, s: Sys, id: nat)
    requires Inv(caps, s) && id in s.jobs
    ensures Inv(caps, StepJob(caps, s, id))
  {
    var s' := StepJob(caps, s, id);
    GlobalCountKept(caps, s, id);
    forall t: string
      ensures Used(s'.slots, t) == |TenantHolders(caps, s'.jobs, t)| && (Limited(caps, t) ==> Used(s'.slots, t) <= caps.perTenant)
    {
      TenantCountKept(caps, s, id, t);
    }
    StepKeepsTenantNeed(caps, s, id);
  }

  lemma StepKeepsTenantNeed(caps: Caps, s: Sys, id: nat)
    requires id in s.jobs && forall i | i in s.jobs && s.jobs[i].pc.ReleasingTenant? :: Limited(caps, s.jobs[i].tenant)
    ensures var s' := StepJob(caps, s, id); forall i | i in s'.jobs && s'.jobs[i].pc.ReleasingTenant? :: Limited(caps, s'.jobs[i].tenant)
  {
  }

  lemma SpawnKeepsInv(caps: Caps, s: Sys, id: nat, tenant: string)
    requires Inv(caps, s) && id !in s.jobs
    ensures Inv(caps, s.(jobs := s.jobs[id := Job(tenant, Start)]))
  {
    var s' := s.(jobs := s.jobs[id := Job(tenant, Start)]);
    assert GlobalHolders(s'.jobs) == GlobalHolders(s.jobs);
    forall t: string ensures TenantHolders(caps, s'.jobs, t) == TenantHolders(caps, s.jobs, t) {
    }
  }

  lemma NextKeepsInv(caps: Caps, s: Sys, a: Action)
    requires Inv(caps, s)
    ensures Inv(caps, Next(caps, s, a))
  {
    match a
    case Spawn(id, tenant) => if id !in s.jobs { SpawnKeepsInv(caps, s, id, tenant); }
    case Step(id) => if id in s.jobs { StepKeepsInv(caps, s, id); }
  }

  lemma {:induction false} RunKeepsInv(caps: Caps, s: Sys, acts: seq<Action>)
    requires Inv(caps, s)
    ensures Inv(caps, ExecFrom(caps, s, acts))
    decreases |acts|
  {
    if acts != [] {
      NextKeepsInv(caps, s, acts[0]);
      RunKeepsInv(caps, Next(caps, s, acts[0]), acts[1..]);
    }
  }

  lemma ReachableInv(caps: Caps, acts: seq<Action>)
    ensures Inv(caps, Exec(caps, acts))
  {
    var s := Sys(EMPTY, map[]);
    assert GlobalHolders(s.jobs) == {};
    forall t: string ensures Used(s.slots, t) == |TenantHolders(caps, s.jobs, t)| == 0 {
      assert TenantHolders(caps, s.jobs, t) == {};
    }
    RunKeepsInv(caps, s, acts);
  }

  // ----- What every interleaving guarantees -----

  lemma SubsetSize<T>(a: set<T>, b: set<T>)
    requires a <= b
    ensures |a| <= |b|
  {
    assert b == a + (b - a);
  }

  /** Never more executions at once than the caps allow. */
  lemma CapsHold(caps: Caps, acts: seq<Action>, tenant: string)
    ensures |RunningJobs(Exec(caps, acts).jobs)| <= caps.global
    ensures caps.perTenant > 0 && tenant != "" ==> |RunningFor(Exec(caps, acts).jobs, tenant)| <= caps.perTenant
  {
    ReachableInv(caps, acts);
    var s := Exec(caps, acts);
    SubsetSize(RunningJobs(s.jobs), GlobalHolders(s.jobs));
    if Limited(caps, tenant) {
      SubsetSize(RunningFor(s.jobs, tenant), TenantHolders(caps, s.jobs, tenant));
      assert Used(s.slots, tenant) <= caps.perTenant;
    }
  }

  /** No receive ever blocks, in `Release` or in the roll-back. */
  lemma NothingBlocks(caps: Caps, acts: seq<Action>, id: nat)
    requires id in Exec(caps, acts).jobs
    ensures !Blocked(Exec(caps, acts), id)
  {
    ReachableInv(caps, acts);
    var s := Exec(caps, acts);
    var j := s.jobs[id];
    if HasGlobal(j) {
      assert id in GlobalHolders(s.jobs);
    }
    if j.pc.ReleasingTenant? && j.tenant in s.slots.tenants {
      assert id in TenantHolders(caps, s.jobs, j.tenant);
      assert Used(s.slots, j.tenant) == |TenantHolders(caps, s.jobs, j.tenant)|;
    }
  }

  /** Once all calls have returned, every slot is free again. */
  lemma AllReturnedAllFree(caps: Caps, acts: seq<Action>, tenant: string)
    requires var s := Exec(caps, acts); forall id | id in s.jobs :: s.jobs[id].pc.Ended?
    ensures Exec(caps, acts).slots.global == 0 && Used(Exec(caps, acts).slots, tenant) == 0
  {
    ReachableInv(caps, acts);
    var s := Exec(caps, acts);
    assert GlobalHolders(s.jobs) == {};
    assert TenantHolders(caps, s.jobs, tenant) == {};
  }

  /** A call is turned away only when the cap it ran into is fully taken by other calls. */
  lemma RefusalIsJustified(caps: Caps, acts: seq<Action>, id: nat)
    requires id in Exec(caps, acts).jobs
    ensures var s := Exec(caps, acts); var j := s.jobs[id]; var pc' := StepJob(caps, s, id).jobs[id].pc;
      && (j.pc.Start? && pc' == Ended(false) ==> |GlobalHolders(s.jobs)| == caps.global)
      && (j.pc.HoldsGlobal? && pc' == RollsBack ==>
           caps.perTenant > 0 && j.tenant != "" && id !in TenantHolders(caps, s.jobs, j.tenant) && |TenantHolders(caps, s.jobs, j.tenant)| == caps.perTenant)
  {
    ReachableInv(caps, acts);
    var s := Exec(caps, acts);
    var t := s.jobs[id].tenant;
    assert Used(s.slots, t) == |TenantHolders(caps, s.jobs, t)|;
  }

  // ----- Every call returns -----

  function Remaining(pc: Pc): nat {
    match pc
    case Start => 5
    case HoldsGlobal => 4
    case Running => 3
    case Releasing => 2
    case RollsBack => 1
    case ReleasingTenant => 1
    case Ended(_) => 0
  }

  function StepsOf(acts: seq<Action>, id: nat): nat {
    if acts == [] then 0 else (if acts[0] == Step(id) then 1 else 0) + StepsOf(acts[1..], id)
  }

  /** However the others are scheduled, five steps of its own bring a call to its end. */
  lemma {:induction false} EveryCallReturns(caps: Caps, before: seq<Action>, acts: seq<Action>, id: nat)
    requires id in Exec(caps, before).jobs
    requires StepsOf(acts, id) >= Remaining(Exec(caps, before).jobs[id].pc)
    ensures id in Exec(caps, before + acts).jobs && Exec(caps, before + acts).jobs[id].pc.Ended?
    decreases |acts|
  {
    if acts == [] {
      assert before + acts == before;
    } else {
      NothingBlocks(caps, before, id);
      var sofar := before + [acts[0]];
      ExecAppend(caps, Sys(EMPTY, map[]), before, acts[0]);
      assert before + acts == sofar + acts[1..];
      EveryCallReturns(caps, sofar, acts[1..], id);
    }
  }

  lemma {:induction false} ExecAppend(caps: Caps, s: Sys, acts: seq<Action>, a: Action)
    ensures ExecFrom(caps, s, acts + [a]) == Next(caps, ExecFrom(caps, s, acts), a)
    decreases |acts|
  {
    if acts == [] {
      assert acts + [a] == [a];
    } else {
      assert (acts + [a])[1..] == acts[1..] + [a];
      ExecAppend(caps, Next(caps, s, acts[0]), acts[1..], a);
    }
  }

  // ----- The machine and the object -----

  /** A call that nobody disturbs for n steps. */
  function Alone(caps: Caps, s: Sys, id: nat, n: nat): Sys {
    if n == 0 then s else var t := Alone(caps, s, id, n - 1); if id in t.jobs then StepJob(caps, t, id) else t
  }

  /** Left alone, a call gets its slots exactly when the object's `Acquire` grants them, and then holds what it grants. */
  lemma {:induction false} AcquireAlone(caps: Caps, s: Sys, id: nat)
    requires id in s.jobs && s.jobs[id].pc.Start? && HasRoom(caps, s.slots, s.jobs[id].tenant)
    ensures var tenant := s.jobs[id].tenant; var mid := Alone(caps, s, id, 2);
      && mid.jobs == s.jobs[id := Job(tenant, Running)] && mid.slots.global == s.slots.global + 1
      && (forall t: string :: Used(mid.slots, t) == Used(s.slots, t) + if Limited(caps, tenant) && t == tenant then 1 else 0)
  {
    var s1 := StepJob(caps, s, id);
    assert Alone(caps, s, id, 0) == s;
    assert Alone(caps, s, id, 1) == s1;
    assert s1.jobs[id].pc.HoldsGlobal?;
  }

  lemma {:induction false} ReleaseAlone(caps: Caps, s: Sys, id: nat)
    requires id in s.jobs && s.jobs[id].pc.Running? && s.slots.global > 0
    requires Limited(caps, s.jobs[id].tenant) ==> Used(s.slots, s.jobs[id].tenant) > 0
    ensures var tenant := s.jobs[id].tenant; var end := Alone(caps, s, id, 3);
      && end.jobs == s.jobs[id := Job(tenant, Ended(true))] && end.slots.global == s.slots.global - 1
      && (forall t: string :: Used(end.slots, t) == Used(s.slots, t) - if Limited(caps, tenant) && t == tenant then 1 else 0)
  {
    var s1 := StepJob(caps, s, id);
    var s2 := StepJob(caps, s1, id);
    assert Alone(caps, s, id, 0) == s;
    assert Alone(caps, s, id, 1) == s1;
    assert Alone(caps, s, id, 2) == s2;
  }

  lemma {:induction false} RefusedAlone(caps: Caps, s: Sys, id: nat)
    requires id in s.jobs && s.jobs[id].pc.Start? && !HasRoom(caps, s.slots, s.jobs[id].tenant)
    ensures var tenant := s.jobs[id].tenant; var end := Alone(caps, s, id, 3);
      && end.jobs == s.jobs[id := Job(tenant, Ended(false))] && end.slots.global == s.slots.global
      && (forall t: string :: Used(end.slots, t) == Used(s.slots, t))
  {
    var s1 := StepJob(caps, s, id);
    var s2 := StepJob(caps, s1, id);
    assert Alone(caps, s, id, 0) == s;
    assert Alone(caps, s, id, 1) == s1;
    assert Alone(caps, s, id, 2) == s2;
  }

  /** A whole call left alone ends as the object's `Execute` does: it runs exactly when there is room, and afterwards every
      occupancy is what it was. */
  lemma {:induction false} MachineAgreesWithLimiter(caps: Caps, s: Sys, id: nat)
    requires id in s.jobs && s.jobs[id].pc.Start?
    ensures var tenant := s.jobs[id].tenant; var ran := HasRoom(caps, s.slots, tenant); var end := if ran then Alone(caps, Alone(caps, s, id, 2), id, 3) else Alone(caps, s, id, 3);
      && end.jobs == s.jobs[id := Job(tenant, Ended(ran))] && end.slots.global == s.slots.global
      && (forall t: string :: Used(end.slots, t) == Used(s.slots, t))
  {
    if HasRoom(caps, s.slots, s.jobs[id].tenant) {
      AcquireAlone(caps, s, id);
      ReleaseAlone(caps, Alone(caps, s, id, 2), id);
    } else {
      RefusedAlone(caps, s, id);
    }
  }
}
