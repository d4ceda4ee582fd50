/** Any number of `Execute` calls running at once. Every call is a program counter; one step of one
    call is atomic, and between two steps anything may happen: other calls step, new calls
    start, time passes. A run is an arbitrary list of such actions. */
module SkillSystem {
  import opened Wrappers
  import opened Backoff
  import opened CircuitBreaker
  import opened AtomicEngine

  datatype Phase =
    | Start
    | Check(attempt: nat, last: Option<string>)   // about to look at the context
    | Wait(attempt: nat, last: Option<string>)    // in the back-off select
    | Call(attempt: nat, last: Option<string>)    // about to call the provider
    | Owes(verdict: Verdict)                       // about to report to the breaker
    | Finished(verdict: Verdict)

  /** The counters record how often the call was admitted, reported, called its provider and how long it slept. */
  datatype Caller = Caller(
    req: Request, skill: string, budget: int, base: int, phase: Phase,
    admissions: nat, reports: nat, calls: nat, waited: int)

  /** `prober` remembers who opened the latest half-open episode of a skill; no step depends on it. */
  datatype Sys = Sys(now: int, breakers: map<string, Breaker>, callers: map<nat, Caller>, prober: map<string, nat>)

  datatype Env = Env(found: bool, cancelled: bool, outcome: Outcome)

  datatype Action =
    | Spawn(id: nat, req: Request)
    | Tick(elapsed: nat)
    | Step(id: nat, env: Env)

  const INIT := Sys(0, map[], map[], map[])

  function View(s: Sys, skill: string): Breaker {
    if skill in s.breakers then s.breakers[skill] else FRESH
  }

  function LoopHead(budget: int, attempt: nat, last: Option<string>): Phase {
    if attempt < budget then Check(attempt, last) else Owes(Exhausted(last))
  }

  predicate InLoop(p: Phase) {
    p.Check? || p.Wait? || p.Call?
  }

  /** Admitted and not yet reported. */
  predicate InFlight(p: Phase) {
    InLoop(p) || p.Owes?
  }

  /** One step inside the retry loop, where no shared state is touched. */
  function LoopStep(budget: int, p: Phase, env: Env): Phase
    requires InLoop(p)
  {
    match p
    case Check(a, last) => if env.cancelled then Owes(Cancelled) else if a > 0 then Wait(a, last) else Call(a, last)
    case Wait(a, last) => if env.cancelled then Owes(Cancelled) else Call(a, last)
    case Call(a, last) =>
      match env.outcome
      case Returned(o) => Owes(Succeeded(o))
      case DeadlineExceeded => Owes(TimedOut)
      case Errored(e) => LoopHead(budget, a + 1, Some(e))
  }

  /** The same step with the caller's own counters. */
  function LoopMove(c: Caller, env: Env): Caller
    requires InLoop(c.phase)
  {
    var c1 := c.(phase := LoopStep(c.budget, c.phase, env));
    match c.phase
    case Check(_, _) => c1
    case Wait(a, _) => if a == 0 || env.cancelled then c1 else c1.(waited := c.waited + ClosedDelay(c.base, MAX_RETRY_DELAY, a))
    case Call(_, _) => c1.(calls := c.calls + 1)
  }

  /** Provider lookup and the breaker's answer. */
  function AskStep(cfg: Config, s: Sys, id: nat, found: bool): Sys
    requires id in s.callers
  {
    var c := s.callers[id];
    var b := View(s, c.skill);
    if !found then s.(callers := s.callers[id := c.(phase := Finished(NotFound))])
    else
      var s1 := s.(breakers := s.breakers[c.skill := AfterAsk(cfg, b, s.now)]);
      if !Admits(cfg, b, s.now) then s1.(callers := s.callers[id := c.(phase := Finished(CircuitOpen))])
      else s1.(callers := s.callers[id := c.(phase := LoopHead(c.budget, 0, None), admissions := c.admissions + 1)],
               prober := if b.state.Closed? then s.prober else s.prober[c.skill := id])
  }

  function ReportStep(cfg: Config, s: Sys, id: nat): Sys
    requires id in s.callers && s.callers[id].phase.Owes?
  {
    var c := s.callers[id];
    s.(breakers := s.breakers[c.skill := Apply(cfg, View(s, c.skill), Report(c.phase.verdict, s.now))],
       callers := s.callers[id := c.(phase := Finished(c.phase.verdict), reports := c.reports + 1)])
  }

  function StepCaller(cfg: Config, s: Sys, id: nat, env: Env): Sys
    requires id in s.callers
  {
    var p := s.callers[id].phase;
    if p.Start? then AskStep(cfg, s, id, env.found)
    else if p.Owes? then ReportStep(cfg, s, id)
    else if p.Finished? then s
    else s.(callers := s.callers[id := LoopMove(s.callers[id], env)])
  }

  function Next(cfg: Config, s: Sys, a: Action): Sys {
    match a
    case Spawn(id, req) =>
      if id in s.callers then s
      else s.(callers := s.callers[id := Caller(req, req.skill, Budget(req.maxAttempts), BaseDelay(req.baseDelay), Start, 0, 0, 0, 0)])
    case Tick(elapsed) => s.(now := s.now + elapsed)
    case Step(id, env) => if id in s.callers then StepCaller(cfg, s, id, env) else s
  }

  function ExecFrom(cfg: Config, s: Sys, acts: seq<Action>): Sys
    decreases |acts|
  {
    if acts == [] then s else ExecFrom(cfg, Next(cfg, s, acts[0]), acts[1..])
  }

  /** The state after an arbitrary run. */
  function Exec(cfg: Config, acts: seq<Action>): Sys {
    ExecFrom(cfg, INIT, acts)
  }

  // ----- The invariant -----

  predicate AttemptsOf(c: Caller) {
    && c.skill == c.req.skill && c.budget == Budget(c.req.maxAttempts) && c.base == BaseDelay(c.req.baseDelay)
    && ((c.phase.Owes? || c.phase.Finished?) && c.phase.verdict.Exhausted? ==> c.calls == if c.budget < 0 then 0 else c.budget)
    && c.budget <= MAX_RETRY_ATTEMPTS + 1
    && c.base > 0
    && (InLoop(c.phase) ==> c.phase.attempt < c.budget && c.calls == c.phase.attempt)
    && (c.phase.Wait? ==> c.phase.attempt > 0)
    && c.calls <= MAX_RETRY_ATTEMPTS + 1
    && 0 <= c.waited
    && (c.phase.Start? ==> c.calls == 0 && c.waited == 0)
    && (c.phase.Check? || c.phase.Wait? ==> c.waited <= Sleeps(c.phase.attempt) * MAX_RETRY_DELAY)
    && (c.phase.Call? ==> c.waited <= c.phase.attempt * MAX_RETRY_DELAY)
    && c.waited <= MAX_RETRY_ATTEMPTS * MAX_RETRY_DELAY
  }

  /** Admissions and reports go together: none before admission, a debt while in flight, settled once finished. */
  predicate DebtOf(c: Caller) {
    match c.phase
    case Start => c.admissions == 0 && c.reports == 0
    case Finished(v) => c.reports == c.admissions == (if v.NotFound? || v.CircuitOpen? then 0 else 1)
    case Owes(v) => c.admissions == 1 && c.reports == 0 && !v.NotFound? && !v.CircuitOpen?
    case _ => c.admissions == 1 && c.reports == 0
  }

  predicate ProberPending(s: Sys, skill: string) {
    && skill in s.prober && s.prober[skill] in s.callers
    && var c := s.callers[s.prober[skill]]; c.skill == skill && InFlight(c.phase)
  }

  ghost predicate Inv(s: Sys) {
    && (forall id | id in s.callers :: AttemptsOf(s.callers[id]) && DebtOf(s.callers[id]))
    && (forall k | k in s.breakers :: s.breakers[k].probing == s.breakers[k].state.HalfOpen?)
    && (forall k | k in s.breakers && s.breakers[k].state.HalfOpen? :: ProberPending(s, k))
  }

  lemma LoopMoveKeepsCaller(c: Caller, env: Env)
    requires AttemptsOf(c) && DebtOf(c) && InLoop(c.phase)
    ensures var c' := LoopMove(c, env);
      AttemptsOf(c') && DebtOf(c') && InFlight(c'.phase) && c'.skill == c.skill && c'.budget == c.budget
  {
    if c.phase.Wait? {
      DelaysNeverDecrease(c.base, MAX_RETRY_DELAY, 1, c.phase.attempt);
      assert c.base * Pow2(0) == c.base;
    }
  }

  lemma AskKeepsCaller(cfg: Config, s: Sys, id: nat, found: bool)
    requires id in s.callers && s.callers[id].phase.Start? && AttemptsOf(s.callers[id]) && DebtOf(s.callers[id])
    ensures var s' := AskStep(cfg, s, id, found);
      id in s'.callers && s'.callers == s.callers[id := s'.callers[id]] && AttemptsOf(s'.callers[id]) && DebtOf(s'.callers[id])
  {
  }

  lemma AskKeepsProber(cfg: Config, s: Sys, id: nat, found: bool, k: string)
    requires Inv(s) && id in s.callers && s.callers[id].phase.Start?
    requires var s' := AskStep(cfg, s, id, found); k in s'.breakers && s'.breakers[k].state.HalfOpen?
    ensures var s' := AskStep(cfg, s, id, found); s'.breakers[k].probing && ProberPending(s', k)
  {
    if k in s.breakers && s.breakers[k].state.HalfOpen? {
      assert ProberPending(s, k);
    }
  }

  lemma AskKeepsInv(cfg: Config, s: Sys, id: nat, found: bool)
    requires Inv(s) && id in s.callers && s.callers[id].phase.Start?
    ensures Inv(AskStep(cfg, s, id, found))
  {
    var s' := AskStep(cfg, s, id, found);
    AskKeepsCaller(cfg, s, id, found);
    forall k | k in s'.breakers && s'.breakers[k].state.HalfOpen? ensures s'.breakers[k].probing && ProberPending(s', k) {
      AskKeepsProber(cfg, s, id, found, k);
    }
  }

  lemma ReportKeepsInv(cfg: Config, s: Sys, id: nat)
    requires Inv(s) && id in s.callers && s.callers[id].phase.Owes?
    ensures Inv(ReportStep(cfg, s, id))
  {
    var c, s' := s.callers[id], ReportStep(cfg, s, id);
    forall k | k in s'.breakers && s'.breakers[k].state.HalfOpen? ensures ProberPending(s', k) {
      assert k != c.skill;
      assert ProberPending(s, k);
    }
  }

  lemma LoopKeepsInv(s: Sys, id: nat, env: Env)
    requires Inv(s) && id in s.callers && InLoop(s.callers[id].phase)
    ensures Inv(s.(callers := s.callers[id := LoopMove(s.callers[id], env)]))
  {
    var s' := s.(callers := s.callers[id := LoopMove(s.callers[id], env)]);
    LoopMoveKeepsCaller(s.callers[id], env);
    forall k | k in s'.breakers && s'.breakers[k].state.HalfOpen? ensures ProberPending(s', k) {
      assert ProberPending(s, k);
    }
  }

  lemma NextKeepsInv(cfg: Config, s: Sys, a: Action)
    requires Inv(s)
    ensures Inv(Next(cfg, s, a))
  {
    if a.Step? && a.id in s.callers && InLoop(s.callers[a.id].phase) {
      LoopKeepsInv(s, a.id, a.env);
    } else if a.Step? && a.id in s.callers && s.callers[a.id].phase.Start? {
      AskKeepsInv(cfg, s, a.id, a.env.found);
    } else if a.Step? && a.id in s.callers && s.callers[a.id].phase.Owes? {
      ReportKeepsInv(cfg, s, a.id);
    } else {
      var s' := Next(cfg, s, a);
      forall k | k in s'.breakers && s'.breakers[k].state.HalfOpen? ensures ProberPending(s', k) {
        assert ProberPending(s, k);
      }
    }
  }

  lemma {:induction false} RunKeepsInv(cfg: Config, s: Sys, acts: seq<Action>)
    requires Inv(s)
    ensures Inv(ExecFrom(cfg, s, acts))
    decreases |acts|
  {
    if acts != [] {
      NextKeepsInv(cfg, s, acts[0]);
      RunKeepsInv(cfg, Next(cfg, s, acts[0]), acts[1..]);
    }
  }

  // ----- What every run guarantees -----

  /** In every interleaving, a half-open breaker is waited for: the caller that opened the episode is still to report. */
  lemma HalfOpenIsPending(cfg: Config, acts: seq<Action>, skill: string)
    requires View(Exec(cfg, acts), skill).state.HalfOpen?
    ensures ProberPending(Exec(cfg, acts), skill)
  {
    RunKeepsInv(cfg, INIT, acts);
  }

  /** Every call that has returned reported exactly as often as it was admitted: once, or never when it was refused;
      calls still running have reported nothing. The bounds on provider calls and sleep hold throughout. */
  lemma OneReportPerAdmission(cfg: Config, acts: seq<Action>, id: nat)
    requires id in Exec(cfg, acts).callers
    ensures var c := Exec(cfg, acts).callers[id];
      && (c.phase.Finished? ==> c.reports == c.admissions == (if c.phase.verdict.NotFound? || c.phase.verdict.CircuitOpen? then 0 else 1))
      && (!c.phase.Finished? ==> c.reports == 0)
      && c.calls <= 11 && 0 <= c.waited <= 100000
  {
    RunKeepsInv(cfg, INIT, acts);
  }

  /** When no call of a skill is in flight its breaker is not half-open, and it admits the next caller
      as soon as the recovery timeout is over. */
  lemma NeverWedged(cfg: Config, acts: seq<Action>, skill: string, later: int)
    requires var s := Exec(cfg, acts); forall id | id in s.callers && s.callers[id].skill == skill :: !InFlight(s.callers[id].phase)
    ensures var b := View(Exec(cfg, acts), skill);
      && !b.state.HalfOpen?
      && (later >= b.lastFailureAt + cfg.recoveryTimeout ==> Admits(cfg, b, later))
  {
    RunKeepsInv(cfg, INIT, acts);
    if View(Exec(cfg, acts), skill).state.HalfOpen? {
      HalfOpenIsPending(cfg, acts, skill);
    }
  }

  lemma {:induction false} RequestStays(cfg: Config, s: Sys, acts: seq<Action>, id: nat)
    requires id in s.callers
    ensures id in ExecFrom(cfg, s, acts).callers && ExecFrom(cfg, s, acts).callers[id].req == s.callers[id].req
    decreases |acts|
  {
    if acts != [] {
      if acts[0].Step? && acts[0].id == id {
        assert id in Next(cfg, s, acts[0]).callers && Next(cfg, s, acts[0]).callers[id].req == s.callers[id].req;
      } else {
        OthersLeaveAlone(cfg, s, acts[0], id);
      }
      RequestStays(cfg, Next(cfg, s, acts[0]), acts[1..], id);
    }
  }

  /** A call gives up only after all the attempts its request asked for, and at least one: as many as retries were asked for
      and one more, eleven at most. */
  lemma {:induction false} ExhaustedMeansAllAttempts(cfg: Config, before: seq<Action>, id: nat, req: Request, more: seq<Action>)
    requires id !in Exec(cfg, before).callers
    ensures var c := ExecFrom(cfg, Next(cfg, Exec(cfg, before), Spawn(id, req)), more).callers;
      id in c && c[id].req == req &&
      (c[id].phase.Finished? && c[id].phase.verdict.Exhausted? ==>
         c[id].calls == if req.maxAttempts < 0 then 0 else if req.maxAttempts <= 10 then req.maxAttempts + 1 else 11)
  {
    var s := Next(cfg, Exec(cfg, before), Spawn(id, req));
    RunKeepsInv(cfg, INIT, before);
    NextKeepsInv(cfg, Exec(cfg, before), Spawn(id, req));
    RunKeepsInv(cfg, s, more);
    RequestStays(cfg, s, more, id);
    assert AttemptsOf(ExecFrom(cfg, s, more).callers[id]);
  }

  // ----- Every call returns -----

  /** Steps a call can still take. */
  function Remaining(c: Caller): int {
    var rounds := if c.budget < 0 then 0 else c.budget;
    match c.phase
    case Start => 3 * rounds + 2
    case Check(a, _) => 3 * (rounds - a) + 1
    case Wait(a, _) => 3 * (rounds - a)
    case Call(a, _) => 3 * (rounds - a) - 1
    case Owes(_) => 1
    case Finished(_) => 0
  }

  function StepsOf(acts: seq<Action>, id: nat): nat {
    if acts == [] then 0 else (if acts[0].Step? && acts[0].id == id then 1 else 0) + StepsOf(acts[1..], id)
  }

  lemma LoopMoveDecreases(c: Caller, env: Env)
    requires AttemptsOf(c) && InLoop(c.phase)
    ensures 0 <= Remaining(LoopMove(c, env)) < Remaining(c)
  {
    match c.phase
    case Check(a, last) =>
    case Wait(a, last) =>
    case Call(a, last) =>
      assert LoopMove(c, env).phase == LoopStep(c.budget, c.phase, env);
  }

  lemma RemainingDecreases(cfg: Config, s: Sys, a: Action, id: nat)
    requires Inv(s) && id in s.callers
    ensures id in Next(cfg, s, a).callers
    ensures var before, after := Remaining(s.callers[id]), Remaining(Next(cfg, s, a).callers[id]);
      0 <= after <= before && (a.Step? && a.id == id && before > 0 ==> after < before)
  {
    var c := s.callers[id];
    assert AttemptsOf(c);
    if a.Step? && a.id == id {
      OwnStepDecreases(cfg, s, id, a.env);
    } else {
      OthersLeaveAlone(cfg, s, a, id);
    }
  }

  lemma OwnStepDecreases(cfg: Config, s: Sys, id: nat, env: Env)
    requires id in s.callers && AttemptsOf(s.callers[id])
    ensures id in StepCaller(cfg, s, id, env).callers
    ensures var before, after := Remaining(s.callers[id]), Remaining(StepCaller(cfg, s, id, env).callers[id]);
      0 <= after <= before && (before > 0 ==> after < before)
  {
    if InLoop(s.callers[id].phase) {
      LoopMoveDecreases(s.callers[id], env);
    }
  }

  lemma OthersLeaveAlone(cfg: Config, s: Sys, a: Action, id: nat)
    requires id in s.callers && !(a.Step? && a.id == id)
    ensures id in Next(cfg, s, a).callers && Next(cfg, s, a).callers[id] == s.callers[id]
  {
  }

  /** However the rest of the system is scheduled, a call that is given at most 35 steps of its own returns. */
  lemma {:induction false} EveryCallReturns(cfg: Config, s: Sys, acts: seq<Action>, id: nat)
    requires Inv(s) && id in s.callers
    requires StepsOf(acts, id) >= Remaining(s.callers[id])
    ensures Remaining(s.callers[id]) <= 35
    ensures id in ExecFrom(cfg, s, acts).callers && ExecFrom(cfg, s, acts).callers[id].phase.Finished?
    decreases |acts|
  {
    assert AttemptsOf(s.callers[id]);
    if acts != [] {
      RemainingDecreases(cfg, s, acts[0], id);
      NextKeepsInv(cfg, s, acts[0]);
      EveryCallReturns(cfg, Next(cfg, s, acts[0]), acts[1..], id);
    }
  }

  // ----- The interleaved call is the call of the engine -----

  /** What the script lets happen in one step of the loop. */
  predicate EnvOf(script: nat -> AttemptEnv, p: Phase, env: Env)
    requires InLoop(p)
  {
    && env.cancelled == (if p.Wait? then script(p.attempt).cancelledWaiting else script(p.attempt).cancelledBefore)
    && env.outcome == script(p.attempt).outcome
  }

  /** A run in which the loop of one call meets the world of the script; everything else is left open. */
  predicate DrivenBy(cfg: Config, s: Sys, acts: seq<Action>, id: nat, script: nat -> AttemptEnv)
    decreases |acts|
  {
    acts == [] ||
    (&& (acts[0].Step? && acts[0].id == id && id in s.callers && InLoop(s.callers[id].phase) ==>
           EnvOf(script, s.callers[id].phase, acts[0].env))
     && DrivenBy(cfg, Next(cfg, s, acts[0]), acts[1..], id, script))
  }

  predicate Waited(c: Caller, sleeps: nat) {
    c.waited == TotalDelay(c.base, MAX_RETRY_DELAY, sleeps)
  }

  predicate Concluded(c: Caller, script: nat -> AttemptEnv, v: Verdict) {
    ReachedBy(script, c.budget, v, c.calls) && Waited(c, Sleeps(c.calls))
  }

  /** A call that has met the script so far stands where the script puts it. */
  ghost predicate OnCourse(c: Caller, script: nat -> AttemptEnv) {
    match c.phase
    case Start => c.calls == 0 && c.waited == 0
    case Check(a, last) => a < c.budget && Undecided(script, a) && last == LastError(script, a) && c.calls == a && Waited(c, Sleeps(a))
    case Wait(a, last) =>
      0 < a < c.budget && Undecided(script, a) && last == LastError(script, a) && c.calls == a && Waited(c, Sleeps(a)) && !script(a).cancelledBefore
    case Call(a, last) => a < c.budget && Undecided(script, a) && c.calls == a && Waited(c, a) && !CutShort(script, a)
    case Owes(v) => Concluded(c, script, v)
    case Finished(v) => v.NotFound? || v.CircuitOpen? || Concluded(c, script, v)
  }

  lemma CheckStaysOnCourse(c: Caller, script: nat -> AttemptEnv, env: Env)
    requires OnCourse(c, script) && c.phase.Check? && EnvOf(script, c.phase, env)
    ensures OnCourse(LoopMove(c, env), script)
  {
  }

  lemma WaitStaysOnCourse(c: Caller, script: nat -> AttemptEnv, env: Env)
    requires OnCourse(c, script) && c.phase.Wait? && EnvOf(script, c.phase, env)
    ensures OnCourse(LoopMove(c, env), script)
  {
  }

  lemma CallStaysOnCourse(c: Caller, script: nat -> AttemptEnv, env: Env)
    requires OnCourse(c, script) && c.phase.Call? && EnvOf(script, c.phase, env)
    ensures OnCourse(LoopMove(c, env), script)
  {
    AttemptMade(script, c.budget, c.phase.attempt);
  }

  lemma StepStaysOnCourse(cfg: Config, s: Sys, id: nat, env: Env, script: nat -> AttemptEnv)
    requires id in s.callers && OnCourse(s.callers[id], script)
    requires InLoop(s.callers[id].phase) ==> EnvOf(script, s.callers[id].phase, env)
    ensures id in StepCaller(cfg, s, id, env).callers && OnCourse(StepCaller(cfg, s, id, env).callers[id], script)
  {
    var c := s.callers[id];
    match c.phase
    case Check(_, _) => CheckStaysOnCourse(c, script, env);
    case Wait(_, _) => WaitStaysOnCourse(c, script, env);
    case Call(_, _) => CallStaysOnCourse(c, script, env);
    case _ =>
  }

  /** Until the call is spawned there is nothing to say about it. */
  ghost predicate OnCourseIn(s: Sys, id: nat, script: nat -> AttemptEnv) {
    id in s.callers ==> OnCourse(s.callers[id], script)
  }

  lemma NextStaysOnCourse(cfg: Config, s: Sys, a: Action, id: nat, script: nat -> AttemptEnv)
    requires OnCourseIn(s, id, script)
    requires a.Step? && a.id == id && id in s.callers && InLoop(s.callers[id].phase) ==> EnvOf(script, s.callers[id].phase, a.env)
    ensures OnCourseIn(Next(cfg, s, a), id, script)
  {
    if id in s.callers {
      if a.Step? && a.id == id {
        StepStaysOnCourse(cfg, s, id, a.env, script);
      } else {
        OthersLeaveAlone(cfg, s, a, id);
      }
    }
  }

  lemma {:induction false} RunStaysOnCourse(cfg: Config, s: Sys, acts: seq<Action>, id: nat, script: nat -> AttemptEnv)
    requires OnCourseIn(s, id, script) && DrivenBy(cfg, s, acts, id, script)
    ensures OnCourseIn(ExecFrom(cfg, s, acts), id, script)
    decreases |acts|
  {
    if acts != [] {
      NextStaysOnCourse(cfg, s, acts[0], id, script);
      RunStaysOnCourse(cfg, Next(cfg, s, acts[0]), acts[1..], id, script);
    }
  }

  /** In every interleaving, whatever the other calls do, a call that meets the world of a script and was admitted
      returns what the engine returns in that world: the same verdict, after as many provider calls and as long a wait. */
  lemma {:induction false} MachineAgreesWithEngine(cfg: Config, acts: seq<Action>, id: nat, script: nat -> AttemptEnv)
    requires id in Exec(cfg, acts).callers && Exec(cfg, acts).callers[id].phase.Finished?
    requires DrivenBy(cfg, INIT, acts, id, script)
    ensures var c := Exec(cfg, acts).callers[id]; var v := c.phase.verdict;
      v.NotFound? || v.CircuitOpen? ||
      (&& IsVerdict(script, c.budget, v) && (forall w | IsVerdict(script, c.budget, w) :: w == v)
       && ReachedBy(script, c.budget, v, c.calls)
       && c.waited == TotalDelay(c.base, MAX_RETRY_DELAY, Sleeps(c.calls)))
  {
    RunStaysOnCourse(cfg, INIT, acts, id, script);
    var c := Exec(cfg, acts).callers[id];
    var v := c.phase.verdict;
    if !v.NotFound? && !v.CircuitOpen? {
      ReachedIsVerdict(script, c.budget, v, c.calls);
      forall w | IsVerdict(script, c.budget, w) ensures w == v {
        VerdictIsUnique(script, c.budget, v, w);
      }
    }
  }

  // ----- Every breaker has a history -----

  /** What an action asks of or reports to the breaker of a skill. */
  function EventOf(s: Sys, a: Action, skill: string): seq<Event> {
    if !a.Step? || a.id !in s.callers || s.callers[a.id].skill != skill then []
    else match s.callers[a.id].phase
      case Start => if a.env.found then [Ask(s.now)] else []
      case Owes(v) => [Report(v, s.now)]
      case _ => []
  }

  /** The breaker's history over a run, oldest event first. */
  function Trace(cfg: Config, s: Sys, acts: seq<Action>, skill: string): seq<Event>
    decreases |acts|
  {
    if acts == [] then [] else EventOf(s, acts[0], skill) + Trace(cfg, Next(cfg, s, acts[0]), acts[1..], skill)
  }

  lemma {:induction false} RunAppend(cfg: Config, es: seq<Event>, e: Event)
    ensures Run(cfg, es + [e]) == Apply(cfg, Run(cfg, es), e)
  {
    assert (es + [e])[..|es|] == es;
  }

  /** One action moves a breaker as the event it causes says, if it causes one. */
  lemma ActionIsEvent(cfg: Config, s: Sys, a: Action, skill: string)
    ensures var es := EventOf(s, a, skill);
      |es| <= 1 && View(Next(cfg, s, a), skill) == if es == [] then View(s, skill) else Apply(cfg, View(s, skill), es[0])
  {
  }

  lemma {:induction false} EventExtendsHistory(cfg: Config, past: seq<Event>, es: seq<Event>)
    requires |es| <= 1
    ensures Run(cfg, past + es) == if es == [] then Run(cfg, past) else Apply(cfg, Run(cfg, past), es[0])
  {
    if es == [] {
      assert past + es == past;
    } else {
      RunAppend(cfg, past, es[0]);
      assert es == [es[0]];
    }
  }

  lemma Associates(a: seq<Event>, b: seq<Event>, c: seq<Event>)
    ensures a + b + c == a + (b + c)
  {
  }

  lemma {:induction false} TraceIsHistory(cfg: Config, s: Sys, acts: seq<Action>, skill: string, past: seq<Event>)
    requires View(s, skill) == Run(cfg, past)
    ensures View(ExecFrom(cfg, s, acts), skill) == Run(cfg, past + Trace(cfg, s, acts, skill))
    decreases |acts|
  {
    if acts == [] {
      assert past + [] == past;
    } else {
      var es, s' := EventOf(s, acts[0], skill), Next(cfg, s, acts[0]);
      ActionIsEvent(cfg, s, acts[0], skill);
      EventExtendsHistory(cfg, past, es);
      TraceIsHistory(cfg, s', acts[1..], skill, past + es);
      Associates(past, es, Trace(cfg, s', acts[1..], skill));
    }
  }

  /** So what holds of histories holds in every interleaving: a breaker is closed exactly while fewer failures than the
      threshold were reported to it since the last success. */
  lemma {:induction false} ClosedIffFewFailures(cfg: Config, acts: seq<Action>, skill: string)
    ensures View(Exec(cfg, acts), skill) == Run(cfg, Trace(cfg, INIT, acts, skill))
    ensures View(Exec(cfg, acts), skill).state.Closed? <==> FailuresSinceSuccess(Trace(cfg, INIT, acts, skill)) < OpeningCount(cfg)
  {
    TraceIsHistory(cfg, INIT, acts, skill, []);
    assert [] + Trace(cfg, INIT, acts, skill) == Trace(cfg, INIT, acts, skill);
    HistoryDecidesState(cfg, Trace(cfg, INIT, acts, skill));
  }

  /** What a call meets at the door, in every interleaving: an unknown skill is turned away without touching its breaker; a
      breaker with few failures behind it lets the call in; any other one lets it in as the only probe, or turns it away. */
  lemma {:induction false} AskOutcome(cfg: Config, acts: seq<Action>, id: nat, env: Env)
    requires id in Exec(cfg, acts).callers && Exec(cfg, acts).callers[id].phase.Start?
    ensures var s := Exec(cfg, acts); var skill := s.callers[id].skill; var s' := Next(cfg, s, Step(id, env)); var p := s'.callers[id].phase;
      && (!env.found ==> p == Finished(NotFound) && s'.breakers == s.breakers)
      && (env.found && FailuresSinceSuccess(Trace(cfg, INIT, acts, skill)) < OpeningCount(cfg) ==> InFlight(p) && View(s', skill) == View(s, skill))
      && (env.found && FailuresSinceSuccess(Trace(cfg, INIT, acts, skill)) >= OpeningCount(cfg) ==>
            (p == Finished(CircuitOpen) && View(s', skill) == View(s, skill)) || (InFlight(p) && View(s', skill).state.HalfOpen? && s'.prober[skill] == id))
  {
    var skill := Exec(cfg, acts).callers[id].skill;
    ClosedIffFewFailures(cfg, acts, skill);
    HistoryDecidesState(cfg, Trace(cfg, INIT, acts, skill));
  }
}
