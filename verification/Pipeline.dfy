/** Pipelines of skill steps: sequence, condition, parallel group, and references to earlier outputs.
    The atomic engine is a function of skill and input. */
module Pipeline {
  import opened Wrappers

  datatype Value = Nil | Str(s: string) | Num(n: int) | Obj(fields: map<string, Value>)

  /** Outputs of completed top-level steps, under reference keys. */
  type Ctx = map<string, Value>

  datatype Step =
    | Atomic(name: string, skill: string, input: Value)
    | Conditional(name: string, cond: Option<Ctx -> bool>, thn: Option<Step>, els: Option<Step>)
    | Parallel(name: string, steps: seq<Step>)

  datatype StepResult = StepResult(name: string, output: Value, err: Option<string>)

  datatype Call = Call(skill: string, input: Value)

  /** What running a step gives: its result, its error, and the skill calls it made (those of parallel
      branches are listed branch by branch, though they happen in any order). */
  datatype Ran = Ran(result: StepResult, err: Option<string>, calls: seq<Call>)

  type Engine = (string, Value) -> Attempt<Value>

  // ----- References -----

  const HEAD := "$steps."
  const TAIL := ".output"
  const PREV := "$prev.output"

  function Key(name: string): string {
    HEAD + name + TAIL
  }

  function Resolve(input: Value, ctx: Ctx, prev: string): Value {
    if !input.Str? then input
    else
      var s := if input.s == PREV && prev != "" then Key(prev) else input.s;
      if HEAD <= s then (if s in ctx then ctx[s] else Str("")) else input
  }

  // ----- One step -----

  function Outputs(rans: seq<Ran>): map<string, Value> {
    if rans == [] then map[]
    else
      var last := rans[|rans| - 1].result;
      var earlier := Outputs(rans[..|rans| - 1]);
      if last.name != "" then earlier[last.name := last.output] else earlier
  }

  function FirstError(rans: seq<Ran>): Option<string> {
    if rans == [] then None else if rans[0].err.Some? then rans[0].err else FirstError(rans[1..])
  }

  function AllCalls(rans: seq<Ran>): seq<Call> {
    if rans == [] then [] else rans[0].calls + AllCalls(rans[1..])
  }

  function Combine(name: string, rans: seq<Ran>): Ran {
    Ran(StepResult(name, Obj(Outputs(rans)), None), FirstError(rans), AllCalls(rans))
  }

  function RunAtomic(eng: Engine, name: string, skill: string, input: Value): Ran {
    match eng(skill, input)
    case Good(output) => Ran(StepResult(name, output, None), None, [Call(skill, input)])
    case Bad(e) => Ran(StepResult(name, Nil, Some(e)), Some(e), [Call(skill, input)])
  }

  function Chosen(step: Step, ctx: Ctx): Option<Step>
    requires step.Conditional?
  {
    if step.cond.Some? && step.cond.value(ctx) then step.thn else step.els
  }

  function Skipped(name: string): Ran {
    Ran(StepResult(name, Nil, None), None, [])
  }

  function ExecStep(eng: Engine, step: Step, ctx: Ctx, prev: string): Ran {
    match step
    case Atomic(name, skill, input) => RunAtomic(eng, name, skill, Resolve(input, ctx, prev))
    case Conditional(name, cond, thn, els) =>
      if cond.Some? && cond.value(ctx)
        then (match thn case None => Skipped(name) case Some(s) => ExecStep(eng, s, ctx, prev))
        else (match els case None => Skipped(name) case Some(s) => ExecStep(eng, s, ctx, prev))
    case Parallel(name, steps) =>
      Combine(name, seq(|steps|, i requires 0 <= i < |steps| => ExecStep(eng, steps[i], ctx, "")))
  }

  /** The branches of a group, each on its own; none of them sees a previous step. */
  function Branches(eng: Engine, steps: seq<Step>, ctx: Ctx): seq<Ran> {
    seq(|steps|, i requires 0 <= i < |steps| => ExecStep(eng, steps[i], ctx, ""))
  }

  /** Every branch fills its own slot, in any order of completion. */
  method RunBranches(eng: Engine, steps: seq<Step>, ctx: Ctx) returns (rans: seq<Ran>)
    ensures rans == Branches(eng, steps, ctx)
  {
    var results := new Ran[|steps|](_ => Skipped(""));
    var pending := set i {:trigger steps[i]} | 0 <= i < |steps|;
    while pending != {}
      invariant forall i | i in pending :: 0 <= i < |steps|
      invariant forall i | 0 <= i < |steps| && i !in pending :: results[i] == ExecStep(eng, steps[i], ctx, "")
    {
      var idx :| idx in pending;
      results[idx] := ExecStep(eng, steps[idx], ctx, "");
      pending := pending - {idx};
    }
    rans := results[..];
  }

  lemma NextSlot(rans: seq<Ran>, i: nat)
    requires i < |rans|
    ensures Outputs(rans[..i + 1]) == if rans[i].result.name != "" then Outputs(rans[..i])[rans[i].result.name := rans[i].result.output] else Outputs(rans[..i])
    ensures FirstError(rans[i..]) == if rans[i].err.Some? then rans[i].err else FirstError(rans[i + 1..])
    ensures AllCalls(rans[i..]) == rans[i].calls + AllCalls(rans[i + 1..])
  {
    assert rans[..i + 1][..i] == rans[..i];
    assert rans[i..][1..] == rans[i + 1..];
  }

  /** One pass over the slots: the outputs, and the error of the first failed branch. */
  method Gather(name: string, rans: seq<Ran>) returns (r: Ran)
    ensures r == Combine(name, rans)
  {
    var firstErr := None;
    var outputs := map[];
    var calls := [];
    var i := 0;
    while i < |rans|
      invariant 0 <= i <= |rans|
      invariant outputs == Outputs(rans[..i])
      invariant calls + AllCalls(rans[i..]) == AllCalls(rans)
      invariant (if firstErr.Some? then firstErr else FirstError(rans[i..])) == FirstError(rans)
    {
      NextSlot(rans, i);
      if rans[i].err.Some? && firstErr.None? {
        firstErr := rans[i].err;
      }
      if rans[i].result.name != "" {
        outputs := outputs[rans[i].result.name := rans[i].result.output];
      }
      calls := calls + rans[i].calls;
      i := i + 1;
    }
    assert rans[..i] == rans && rans[i..] == [];
    r := Ran(StepResult(name, Obj(outputs), None), firstErr, calls);
  }

  /** The parallel group as the program runs it. */
  method ExecuteParallel(eng: Engine, name: string, steps: seq<Step>, ctx: Ctx) returns (r: Ran)
    ensures r == ExecStep(eng, Parallel(name, steps), ctx, "")
  {
    var rans := RunBranches(eng, steps, ctx);
    r := Gather(name, rans);
  }

  /** The error of a group is that of its lowest failed branch. */
  lemma {:induction false} FirstErrorIsLowest(rans: seq<Ran>)
    ensures FirstError(rans).None? <==> forall i | 0 <= i < |rans| :: rans[i].err.None?
    ensures FirstError(rans).Some? ==> exists i | 0 <= i < |rans| :: rans[i].err == FirstError(rans) && forall j | 0 <= j < i :: rans[j].err.None?
  {
    if rans != [] && rans[0].err.None? {
      var rest := rans[1..];
      FirstErrorIsLowest(rest);
      if FirstError(rest).Some? {
        var i :| 0 <= i < |rest| && rest[i].err == FirstError(rest) && forall j | 0 <= j < i :: rest[j].err.None?;
        assert rans[i + 1].err == FirstError(rans);
        forall j | 0 <= j < i + 1 ensures rans[j].err.None? {
          assert j > 0 ==> rans[j] == rest[j - 1];
        }
      } else {
        forall i | 0 <= i < |rans| ensures rans[i].err.None? {
          assert i > 0 ==> rans[i] == rest[i - 1];
        }
      }
    }
  }

  /** The outputs of a group: each name with the output of the last branch that reports under it. */
  lemma {:induction false} OutputsAreLatest(rans: seq<Ran>, name: string)
    ensures name in Outputs(rans) <==> name != "" && exists i | 0 <= i < |rans| :: rans[i].result.name == name
    ensures name in Outputs(rans) ==> exists i | 0 <= i < |rans| ::
      rans[i].result.name == name && Outputs(rans)[name] == rans[i].result.output && forall j | i < j < |rans| :: rans[j].result.name != name
  {
    if rans != [] {
      var n := |rans| - 1;
      var front := rans[..n];
      OutputsAreLatest(front, name);
      if rans[n].result.name != name && name in Outputs(front) {
        var i :| 0 <= i < |front| && front[i].result.name == name && Outputs(front)[name] == front[i].result.output
          && forall j | i < j < |front| :: front[j].result.name != name;
        forall j | i < j < |rans| ensures rans[j].result.name != name {
          assert j < n ==> rans[j] == front[j];
        }
        assert rans[i].result.name == name;
      } else if rans[n].result.name != name {
        forall i | 0 <= i < |rans| && name != "" ensures rans[i].result.name != name {
          assert i < n ==> rans[i] == front[i];
        }
      }
    }
  }

  // ----- A whole pipeline -----

  datatype Failure = Failure(err: string, step: string, index: nat)

  datatype PipelineRun = PipelineRun(results: seq<StepResult>, failure: Option<Failure>, calls: seq<Call>)

  function Cons(r: Ran, rest: PipelineRun): PipelineRun {
    rest.(results := [r.result] + rest.results, calls := r.calls + rest.calls)
  }

  /** Runs steps from number `index` on, given the context and the latest named step. */
  function RunSteps(eng: Engine, steps: seq<Step>, ctx: Ctx, prev: string, index: nat): PipelineRun
    decreases |steps|
  {
    if steps == [] then PipelineRun([], None, [])
    else
      var r := ExecStep(eng, steps[0], ctx, prev);
      if r.err.Some? then PipelineRun([r.result], Some(Failure(r.err.value, steps[0].name, index)), r.calls)
      else if steps[0].name == "" then Cons(r, RunSteps(eng, steps[1..], ctx, prev, index + 1))
      else Cons(r, RunSteps(eng, steps[1..], ctx[Key(steps[0].name) := r.result.output], steps[0].name, index + 1))
  }

  function Before(results: seq<StepResult>, calls: seq<Call>, rest: PipelineRun): PipelineRun {
    rest.(results := results + rest.results, calls := calls + rest.calls)
  }

  method Execute(eng: Engine, steps: seq<Step>) returns (run: PipelineRun)
    ensures run == RunSteps(eng, steps, map[], "", 0)
    ensures run.failure.None? <==> NoneFails(eng, run.calls)
  {
    FailureExplained(eng, steps);
    var stepCtx: Ctx := map[];
    var results, calls := [], [];
    var prevName := "";
    ghost var whole := RunSteps(eng, steps, map[], "", 0);
    var i := 0;
    while i < |steps|
      invariant 0 <= i <= |steps|
      invariant whole == Before(results, calls, RunSteps(eng, steps[i..], stepCtx, prevName, i))
    {
      var step := steps[i];
      assert steps[i..][1..] == steps[i + 1..];
      var ran := ExecStep(eng, step, stepCtx, prevName);
      ghost var soFar, made := results, calls;
      results := results + [ran.result];
      calls := calls + ran.calls;
      if ran.err.Some? {
        return PipelineRun(results, Some(Failure(ran.err.value, step.name, i)), calls);
      }
      if step.name != "" {
        stepCtx := stepCtx[Key(step.name) := ran.result.output];
        prevName := step.name;
      }
      BeforeCons(soFar, made, ran, RunSteps(eng, steps[i + 1..], stepCtx, prevName, i + 1));
      i := i + 1;
    }
    run := PipelineRun(results, None, calls);
  }

  lemma BeforeCons(results: seq<StepResult>, calls: seq<Call>, r: Ran, rest: PipelineRun)
    ensures Before(results, calls, Cons(r, rest)) == Before(results + [r.result], calls + r.calls, rest)
  {
    assert results + ([r.result] + rest.results) == results + [r.result] + rest.results;
    assert calls + (r.calls + rest.calls) == calls + r.calls + rest.calls;
  }

  /** A failure at step i leaves exactly i + 1 results; success leaves one per step. */
  lemma {:induction false} ResultsStopAtFailure(eng: Engine, steps: seq<Step>, ctx: Ctx, prev: string, index: nat)
    ensures var run := RunSteps(eng, steps, ctx, prev, index);
      && (run.failure.None? ==> |run.results| == |steps|)
      && (run.failure.Some? ==>
            && index <= run.failure.value.index < index + |steps|
            && |run.results| == run.failure.value.index - index + 1
            && run.failure.value.step == steps[run.failure.value.index - index].name)
    decreases |steps|
  {
    if steps != [] {
      var r := ExecStep(eng, steps[0], ctx, prev);
      if r.err.None? {
        if steps[0].name == "" {
          ResultsStopAtFailure(eng, steps[1..], ctx, prev, index + 1);
        } else {
          ResultsStopAtFailure(eng, steps[1..], ctx[Key(steps[0].name) := r.result.output], steps[0].name, index + 1);
        }
      }
    }
  }

  /** No step after a failed one is run: whatever stands there, the run is the same, calls included. */
  lemma {:induction false} NothingRunsAfterFailure(eng: Engine, steps: seq<Step>, more: seq<Step>, ctx: Ctx, prev: string, index: nat)
    requires RunSteps(eng, steps, ctx, prev, index).failure.Some?
    ensures RunSteps(eng, steps + more, ctx, prev, index) == RunSteps(eng, steps, ctx, prev, index)
    decreases |steps|
  {
    var all := steps + more;
    assert all[0] == steps[0] && all[1..] == steps[1..] + more;
    var r := ExecStep(eng, steps[0], ctx, prev);
    if r.err.None? {
      if steps[0].name == "" {
        NothingRunsAfterFailure(eng, steps[1..], more, ctx, prev, index + 1);
      } else {
        NothingRunsAfterFailure(eng, steps[1..], more, ctx[Key(steps[0].name) := r.result.output], steps[0].name, index + 1);
      }
    }
  }

  // ----- What a run owes to the engine -----

  /** A skill step is exactly one call of its skill with its resolved input, and its result is the engine's answer. */
  lemma {:induction false} AtomicStepIsItsCall(eng: Engine, name: string, skill: string, input: Value, ctx: Ctx, prev: string)
    ensures var r := ExecStep(eng, Atomic(name, skill, input), ctx, prev); var given := Resolve(input, ctx, prev);
      && r.calls == [Call(skill, given)]
      && (forall v | eng(skill, given) == Good(v) :: r.err == None && r.result == StepResult(name, v, None))
      && (forall e | eng(skill, given) == Bad(e) :: r.err == Some(e) && r.result == StepResult(name, Nil, Some(e)))
  {
  }

  /** A condition is its then branch or its else branch; without one it calls nothing and yields nothing. */
  lemma {:induction false} ConditionChooses(eng: Engine, step: Step, ctx: Ctx, prev: string)
    requires step.Conditional?
    ensures var holds := step.cond.Some? && step.cond.value(ctx); var r := ExecStep(eng, step, ctx, prev);
      && (holds && step.thn.Some? ==> r == ExecStep(eng, step.thn.value, ctx, prev))
      && (!holds && step.els.Some? ==> r == ExecStep(eng, step.els.value, ctx, prev))
      && ((if holds then step.thn else step.els).None? ==> r.result == StepResult(step.name, Nil, None) && r.err == None && r.calls == [])
  {
  }

  lemma {:induction false} GroupMakesAllCalls(rans: seq<Ran>, i: nat, c: Call)
    requires i < |rans| && c in rans[i].calls
    ensures c in AllCalls(rans)
  {
    if i > 0 {
      GroupMakesAllCalls(rans[1..], i - 1, c);
    }
  }

  /** A group runs each branch on its own, none of them seeing a previous step. It reports under its own name the outputs of its
      branches by theirs, of several branches of one name that of the last, and leaves none of their calls out. */
  lemma GroupIsItsBranches(eng: Engine, name: string, steps: seq<Step>, ctx: Ctx, prev: string) returns (rans: seq<Ran>)
    ensures |rans| == |steps| && forall i | 0 <= i < |steps| :: rans[i] == ExecStep(eng, steps[i], ctx, "")
    ensures var r := ExecStep(eng, Parallel(name, steps), ctx, prev);
      && r.result.name == name && r.result.err == None && r.result.output.Obj?
      && (forall x :: x in r.result.output.fields <==> x != "" && exists i | 0 <= i < |rans| :: rans[i].result.name == x)
      && (forall i | 0 <= i < |rans| && LastOfName(rans, i) :: rans[i].result.name in r.result.output.fields
            && r.result.output.fields[rans[i].result.name] == rans[i].result.output)
      && (forall i, c | 0 <= i < |rans| && c in rans[i].calls :: c in r.calls)
  {
    rans := Branches(eng, steps, ctx);
    assert ExecStep(eng, Parallel(name, steps), ctx, prev) == Combine(name, rans);
    forall x ensures x in Outputs(rans) <==> x != "" && exists i | 0 <= i < |rans| :: rans[i].result.name == x {
      OutputsAreLatest(rans, x);
    }
    forall i | 0 <= i < |rans| && LastOfName(rans, i)
      ensures rans[i].result.name in Outputs(rans) && Outputs(rans)[rans[i].result.name] == rans[i].result.output
    {
      OutputOfLast(rans, i);
    }
    forall i, c | 0 <= i < |rans| && c in rans[i].calls ensures c in AllCalls(rans) {
      GroupMakesAllCalls(rans, i, c);
    }
  }

  /** A named branch after which no other has the same name. */
  predicate LastOfName(rans: seq<Ran>, i: nat)
    requires i < |rans|
  {
    rans[i].result.name != "" && forall j | i < j < |rans| :: rans[j].result.name != rans[i].result.name
  }

  lemma {:induction false} OutputOfLast(rans: seq<Ran>, i: nat)
    requires i < |rans| && LastOfName(rans, i)
    ensures rans[i].result.name in Outputs(rans) && Outputs(rans)[rans[i].result.name] == rans[i].result.output
  {
    var x := rans[i].result.name;
    OutputsAreLatest(rans, x);
    var k :| 0 <= k < |rans| && rans[k].result.name == x && Outputs(rans)[x] == rans[k].result.output && forall j | k < j < |rans| :: rans[j].result.name != x;
    assert k == i;
  }

  predicate Fails(eng: Engine, c: Call) {
    eng(c.skill, c.input).Bad?
  }

  predicate NoneFails(eng: Engine, calls: seq<Call>) {
    forall i | 0 <= i < |calls| :: !Fails(eng, calls[i])
  }

  /** The error of the first call that failed. */
  function FirstFailure(eng: Engine, calls: seq<Call>): Option<string> {
    if calls == [] then None
    else match eng(calls[0].skill, calls[0].input)
      case Bad(e) => Some(e)
      case Good(_) => FirstFailure(eng, calls[1..])
  }

  lemma {:induction false} FirstFailureAppend(eng: Engine, a: seq<Call>, b: seq<Call>)
    ensures FirstFailure(eng, a + b) == if FirstFailure(eng, a).Some? then FirstFailure(eng, a) else FirstFailure(eng, b)
  {
    if a == [] {
      assert a + b == b;
    } else {
      assert (a + b)[1..] == a[1..] + b;
      FirstFailureAppend(eng, a[1..], b);
    }
  }

  lemma {:induction false} FirstFailureIsFirst(eng: Engine, calls: seq<Call>)
    ensures FirstFailure(eng, calls).None? <==> forall i | 0 <= i < |calls| :: !Fails(eng, calls[i])
    ensures FirstFailure(eng, calls).Some? ==>
      exists i | 0 <= i < |calls| :: eng(calls[i].skill, calls[i].input) == Bad(FirstFailure(eng, calls).value) && forall j | 0 <= j < i :: !Fails(eng, calls[j])
  {
    if calls != [] && !Fails(eng, calls[0]) {
      var rest := calls[1..];
      FirstFailureIsFirst(eng, rest);
      if FirstFailure(eng, rest).Some? {
        var i :| 0 <= i < |rest| && eng(rest[i].skill, rest[i].input) == Bad(FirstFailure(eng, rest).value) && forall j | 0 <= j < i :: !Fails(eng, rest[j]);
        forall j | 0 <= j < i + 1 ensures !Fails(eng, calls[j]) {
          assert j > 0 ==> calls[j] == rest[j - 1];
        }
        assert calls[i + 1] == rest[i];
      } else {
        forall i | 0 <= i < |calls| ensures !Fails(eng, calls[i]) {
          assert i > 0 ==> calls[i] == rest[i - 1];
        }
      }
    }
  }

  lemma {:induction false} GroupErrorIsFirstFailure(eng: Engine, rans: seq<Ran>)
    requires forall i | 0 <= i < |rans| :: rans[i].err == FirstFailure(eng, rans[i].calls)
    ensures FirstError(rans) == FirstFailure(eng, AllCalls(rans))
  {
    if rans != [] {
      GroupErrorIsFirstFailure(eng, rans[1..]);
      FirstFailureAppend(eng, rans[0].calls, AllCalls(rans[1..]));
    }
  }

  /** However steps are nested, a step fails exactly when a call it made failed, with the error of the first such call. */
  lemma {:induction false} ErrorIsFirstFailedCall(eng: Engine, step: Step, ctx: Ctx, prev: string)
    ensures ExecStep(eng, step, ctx, prev).err == FirstFailure(eng, ExecStep(eng, step, ctx, prev).calls)
    decreases step
  {
    match step
    case Atomic(name, skill, input) =>
    case Conditional(name, cond, thn, els) =>
      if cond.Some? && cond.value(ctx) {
        if thn.Some? { ErrorIsFirstFailedCall(eng, thn.value, ctx, prev); }
      } else {
        if els.Some? { ErrorIsFirstFailedCall(eng, els.value, ctx, prev); }
      }
    case Parallel(name, steps) =>
      var rans := Branches(eng, steps, ctx);
      forall i | 0 <= i < |steps| ensures rans[i].err == FirstFailure(eng, rans[i].calls) {
        ErrorIsFirstFailedCall(eng, steps[i], ctx, "");
      }
      GroupErrorIsFirstFailure(eng, rans);
      assert ExecStep(eng, step, ctx, prev) == Combine(name, rans);
  }

  /** A pipeline fails exactly when some call it made failed, and with the error of the first. */
  lemma {:induction false} FailureIsFirstFailedCall(eng: Engine, steps: seq<Step>, ctx: Ctx, prev: string, index: nat)
    ensures var run := RunSteps(eng, steps, ctx, prev, index);
      (if run.failure.Some? then Some(run.failure.value.err) else None) == FirstFailure(eng, run.calls)
    decreases |steps|
  {
    if steps != [] {
      var r := ExecStep(eng, steps[0], ctx, prev);
      ErrorIsFirstFailedCall(eng, steps[0], ctx, prev);
      if r.err.None? {
        var ctx', prev' := NextCtx(ctx, steps[0], r.result), NextPrev(prev, steps[0]);
        FailureIsFirstFailedCall(eng, steps[1..], ctx', prev', index + 1);
        FirstFailureAppend(eng, r.calls, RunSteps(eng, steps[1..], ctx', prev', index + 1).calls);
      }
    }
  }

  lemma {:induction false} FailureExplained(eng: Engine, steps: seq<Step>)
    ensures var run := RunSteps(eng, steps, map[], "", 0);
      && (run.failure.None? <==> NoneFails(eng, run.calls))
      && |run.results| == if run.failure.None? then |steps| else run.failure.value.index + 1
  {
    ResultsStopAtFailure(eng, steps, map[], "", 0);
    FailureIsFirstFailedCall(eng, steps, map[], "", 0);
    FirstFailureIsFirst(eng, RunSteps(eng, steps, map[], "", 0).calls);
  }

  function NextCtx(ctx: Ctx, step: Step, result: StepResult): Ctx {
    if step.name == "" then ctx else ctx[Key(step.name) := result.output]
  }

  function NextPrev(prev: string, step: Step): string {
    if step.name == "" then prev else step.name
  }

  /** A skill that fails in the first step ends the pipeline there. */
  lemma {:induction false} FailedSkillEndsRun(eng: Engine, steps: seq<Step>, ctx: Ctx, prev: string, index: nat, e: string)
    requires steps != [] && steps[0].Atomic? && eng(steps[0].skill, Resolve(steps[0].input, ctx, prev)) == Bad(e)
    ensures RunSteps(eng, steps, ctx, prev, index) ==
      PipelineRun([StepResult(steps[0].name, Nil, Some(e))], Some(Failure(e, steps[0].name, index)), [Call(steps[0].skill, Resolve(steps[0].input, ctx, prev))])
  {
  }

  /** What references read: the output stored for the step they name, or the empty string; anything else is passed as it is. */
  lemma ReferencesRead(ctx: Ctx, prev: string, x: string, s: string)
    ensures var key := "$steps." + x + ".output"; Resolve(Str(key), ctx, prev) == if key in ctx then ctx[key] else Str("")
    ensures prev != "" ==> Resolve(Str("$prev.output"), ctx, prev) == Resolve(Str("$steps." + prev + ".output"), ctx, prev)
    ensures prev == "" ==> Resolve(Str("$prev.output"), ctx, prev) == Str("$prev.output")
    ensures s != "$prev.output" && !("$steps." <= s) ==> Resolve(Str(s), ctx, prev) == Str(s)
    ensures forall v: Value | !v.Str? :: Resolve(v, ctx, prev) == v
    ensures Key(x) == "$steps." + x + ".output"
  {
    assert "$prev.output"[1] == 'p' && "$steps."[1] == 's';
    assert ("$steps." + x + ".output")[1] == 's' && ("$steps." + prev + ".output")[1] == 's';
    assert "$steps." <= "$steps." + x + ".output" && "$steps." <= "$steps." + prev + ".output";
  }

  // ----- Which step gives which result -----

  /** The context step i sees: the outputs so far under the names of their steps, later ones taking precedence. */
  function CtxAt(ctx: Ctx, steps: seq<Step>, results: seq<StepResult>, i: nat): Ctx
    requires i <= |steps| && i <= |results|
    decreases i
  {
    if i == 0 then ctx else NextCtx(CtxAt(ctx, steps, results, i - 1), steps[i - 1], results[i - 1])
  }

  /** The latest named step before step i. */
  function PrevAt(prev: string, steps: seq<Step>, i: nat): string
    requires i <= |steps|
    decreases i
  {
    if i == 0 then prev else NextPrev(PrevAt(prev, steps, i - 1), steps[i - 1])
  }

  lemma {:induction false} CtxShift(ctx: Ctx, prev: string, steps: seq<Step>, results: seq<StepResult>, i: nat)
    requires i < |steps| && i < |results|
    ensures CtxAt(ctx, steps, results, i + 1) == CtxAt(NextCtx(ctx, steps[0], results[0]), steps[1..], results[1..], i)
    ensures PrevAt(prev, steps, i + 1) == PrevAt(NextPrev(prev, steps[0]), steps[1..], i)
    decreases i
  {
    if i > 0 {
      CtxShift(ctx, prev, steps, results, i - 1);
      assert steps[1..][i - 1] == steps[i] && results[1..][i - 1] == results[i];
    } else {
      assert CtxAt(ctx, steps, results, 0) == ctx && PrevAt(prev, steps, 0) == prev;
    }
  }

  /** Result i is that of step i, run in the context the results before it make. */
  lemma {:induction false} ResultIsStepInContext(eng: Engine, steps: seq<Step>, ctx: Ctx, prev: string, index: nat, i: nat)
    requires i < |RunSteps(eng, steps, ctx, prev, index).results|
    ensures var results := RunSteps(eng, steps, ctx, prev, index).results;
      i < |steps| && results[i] == ExecStep(eng, steps[i], CtxAt(ctx, steps, results, i), PrevAt(prev, steps, i)).result
    decreases |steps|
  {
    ResultsStopAtFailure(eng, steps, ctx, prev, index);
    var r := ExecStep(eng, steps[0], ctx, prev);
    if i > 0 {
      var ctx', prev' := NextCtx(ctx, steps[0], r.result), NextPrev(prev, steps[0]);
      var results, rest := RunSteps(eng, steps, ctx, prev, index).results, RunSteps(eng, steps[1..], ctx', prev', index + 1).results;
      assert results == [r.result] + rest && results[1..] == rest;
      ResultIsStepInContext(eng, steps[1..], ctx', prev', index + 1, i - 1);
      CtxShift(ctx, prev, steps, results, i - 1);
    }
  }
}
