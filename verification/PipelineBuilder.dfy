/** The builder's chained calls as a small language, what a program in it means, and why building it
    and executing the result means the same. */
module PipelineBuilder {
  import opened Wrappers
  import opened Pipeline

  /** One chained call: a step, a condition with the sub-builders of its branches, or a parallel group. */
  datatype Stmt =
    | Do(name: string, skill: string, input: Value)
    | If(name: string, cond: Ctx -> bool, thn: seq<Stmt>, els: seq<Stmt>)
    | Par(name: string, branches: seq<Stmt>)

  // ----- Building -----

  /** Of a branch's sub-builder only the first step is taken. */
  function BuildStmt(s: Stmt): Step {
    match s
    case Do(name, skill, input) => Atomic(name, skill, input)
    case If(name, cond, thn, els) =>
      Conditional(name, Some(cond),
        if thn == [] then None else Some(BuildStmt(thn[0])),
        if els == [] then None else Some(BuildStmt(els[0])))
    case Par(name, branches) => Parallel(name, seq(|branches|, i requires 0 <= i < |branches| => BuildStmt(branches[i])))
  }

  function Build(prog: seq<Stmt>): seq<Step> {
    seq(|prog|, i requires 0 <= i < |prog| => BuildStmt(prog[i]))
  }

  lemma BuildAppend(a: seq<Stmt>, b: seq<Stmt>)
    ensures Build(a + b) == Build(a) + Build(b)
  {
  }

  /** The programs of several builders, one after the other. */
  ghost function Written(subs: seq<Builder>): seq<Stmt>
    reads subs
  {
    if subs == [] then [] else Written(subs[..|subs| - 1]) + subs[|subs| - 1].prog
  }

  /** The steps of several builders, one after the other. */
  ghost function StepsOf(subs: seq<Builder>): seq<Step>
    reads subs
  {
    if subs == [] then [] else StepsOf(subs[..|subs| - 1]) + subs[|subs| - 1].steps
  }

  class Builder {
    var steps: seq<Step>
    /** The program written so far. */
    ghost var prog: seq<Stmt>

    ghost predicate Valid() reads this {
      steps == Build(prog)
    }

    constructor ()
      ensures Valid() && prog == []
    {
      steps, prog := [], [];
    }

    method AddStep(name: string, skill: string, input: Value)
      requires Valid()
      modifies this
      ensures Valid() && prog == old(prog) + [Do(name, skill, input)]
      ensures steps == old(steps) + [Atomic(name, skill, input)]
    {
      BuildAppend(prog, [Do(name, skill, input)]);
      steps := steps + [Atomic(name, skill, input)];
      prog := prog + [Do(name, skill, input)];
    }

    /** `If(name, cond).Then(thn).Else(els)`; without an else branch `els` is null. */
    method AddIf(name: string, cond: Ctx -> bool, thn: Builder, els: Builder?)
      requires Valid() && thn.Valid() && (els != null ==> els.Valid())
      modifies this
      ensures Valid() && prog == old(prog) + [If(name, cond, old(thn.prog), if els == null then [] else old(els.prog))]
      ensures steps == old(steps) + [Conditional(name, Some(cond),
        if old(thn.steps) == [] then None else Some(old(thn.steps)[0]),
        if els == null || old(els.steps) == [] then None else Some(old(els.steps)[0]))]
    {
      var thenStep := None;
      if |thn.steps| > 0 {
        thenStep := Some(thn.steps[0]);
      }
      var elseStep := None;
      if els != null {
        if |els.steps| > 0 {
          elseStep := Some(els.steps[0]);
        }
      }
      ghost var stmt := If(name, cond, thn.prog, if els == null then [] else els.prog);
      BuildAppend(prog, [stmt]);
      steps := steps + [Conditional(name, Some(cond), thenStep, elseStep)];
      prog := prog + [stmt];
    }

    /** All steps of all sub-builders become branches of one group. */
    method AddParallel(name: string, subs: seq<Builder>)
      requires Valid() && forall b | b in subs :: b.Valid()
      modifies this
      ensures Valid() && prog == old(prog) + [Par(name, old(Written(subs)))]
      ensures steps == old(steps) + [Parallel(name, old(StepsOf(subs)))]
    {
      var parallelSteps: seq<Step> := [];
      var i := 0;
      while i < |subs|
        invariant 0 <= i <= |subs| && unchanged(this)
        invariant parallelSteps == Build(Written(subs[..i])) && parallelSteps == StepsOf(subs[..i])
      {
        assert subs[..i + 1][..i] == subs[..i];
        assert subs[i] in subs && subs[i].steps == Build(subs[i].prog);
        BuildAppend(Written(subs[..i]), subs[i].prog);
        parallelSteps := parallelSteps + subs[i].steps;
        i := i + 1;
      }
      assert subs[..i] == subs;
      ghost var stmt := Par(name, Written(subs));
      BuildAppend(prog, [stmt]);
      steps := steps + [Parallel(name, parallelSteps)];
      prog := prog + [stmt];
    }
  }

  // ----- What a program means -----

  /** A completed, named top-level step. */
  datatype Entry = Entry(name: string, output: Value)

  /** The output of the latest step of that name. */
  function Latest(hist: seq<Entry>, name: string): Option<Value> {
    if hist == [] then None
    else
      var last := hist[|hist| - 1];
      if last.name == name then Some(last.output) else Latest(hist[..|hist| - 1], name)
  }

  /** The step a reference `$steps.x.output` speaks about. */
  function RefName(s: string): Option<string> {
    if |HEAD| + |TAIL| <= |s| && HEAD <= s && s[|s| - |TAIL|..] == TAIL then Some(s[|HEAD|..|s| - |TAIL|]) else None
  }

  /** Input as the author means it: `$prev.output` is the output of the latest named step, `$steps.x.output` that of the
      latest step named x, or the empty string if there is none. */
  function Meant(input: Value, hist: seq<Entry>, hasPrev: bool): Value {
    if !input.Str? then input
    else if input.s == PREV && hasPrev && hist != [] then hist[|hist| - 1].output
    else if HEAD <= input.s then
      match RefName(input.s)
      case None => Str("")
      case Some(x) => (match Latest(hist, x) case None => Str("") case Some(v) => v)
    else input
  }

  /** The context conditions look at: for each name its latest output. */
  function CtxOf(hist: seq<Entry>): Ctx {
    if hist == [] then map[] else CtxOf(hist[..|hist| - 1])[Key(hist[|hist| - 1].name) := hist[|hist| - 1].output]
  }

  function EvalStmt(eng: Engine, s: Stmt, hist: seq<Entry>, hasPrev: bool): Ran
    decreases s
  {
    match s
    case Do(name, skill, input) => RunAtomic(eng, name, skill, Meant(input, hist, hasPrev))
    case If(name, cond, thn, els) =>
      if cond(CtxOf(hist)) then EvalBody(eng, name, thn, hist, hasPrev) else EvalBody(eng, name, els, hist, hasPrev)
    case Par(name, branches) =>
      Combine(name, seq(|branches|, i requires 0 <= i < |branches| => EvalStmt(eng, branches[i], hist, false)))
  }

  /** A branch: its statements one after the other, up to the first error; the last result counts. */
  function EvalBody(eng: Engine, name: string, body: seq<Stmt>, hist: seq<Entry>, hasPrev: bool): Ran
    decreases body
  {
    if body == [] then Skipped(name)
    else
      var r := EvalStmt(eng, body[0], hist, hasPrev);
      if r.err.Some? || |body| == 1 then r
      else var rest := EvalBody(eng, name, body[1..], hist, hasPrev); rest.(calls := r.calls + rest.calls)
  }

  /** The history after a step: only named steps are remembered. */
  function Remembered(hist: seq<Entry>, name: string, output: Value): seq<Entry> {
    if name == "" then hist else hist + [Entry(name, output)]
  }

  function EvalProgram(eng: Engine, prog: seq<Stmt>, hist: seq<Entry>, index: nat): PipelineRun
    decreases |prog|
  {
    if prog == [] then PipelineRun([], None, [])
    else
      var r := EvalStmt(eng, prog[0], hist, true);
      if r.err.Some? then PipelineRun([r.result], Some(Failure(r.err.value, prog[0].name, index)), r.calls)
      else Cons(r, EvalProgram(eng, prog[1..], Remembered(hist, prog[0].name, r.result.output), index + 1))
  }

  // ----- The two meanings agree -----

  /** Sub-builders of conditional branches hold one step at most. */
  ghost predicate OneStep(s: Stmt) {
    match s
    case Do(_, _, _) => true
    case If(_, _, thn, els) =>
      && |thn| <= 1 && |els| <= 1
      && (forall t | t in thn :: OneStep(t)) && (forall t | t in els :: OneStep(t))
    case Par(_, branches) => forall t | t in branches :: OneStep(t)
  }

  lemma RefOfKey(x: string)
    ensures RefName(Key(x)) == Some(x)
  {
    var s := Key(x);
    assert s[|s| - |TAIL|..] == TAIL && s[|HEAD|..|s| - |TAIL|] == x;
  }

  lemma KeyOfRef(s: string)
    requires RefName(s).Some?
    ensures Key(RefName(s).value) == s
  {
    assert s == s[..|HEAD|] + s[|HEAD|..|s| - |TAIL|] + s[|s| - |TAIL|..];
  }

  /** The context holds, under each key, the latest output of the step it names. */
  lemma {:induction false} ContextIsLatest(hist: seq<Entry>, s: string)
    ensures s in CtxOf(hist) <==> RefName(s).Some? && Latest(hist, RefName(s).value).Some?
    ensures s in CtxOf(hist) ==> CtxOf(hist)[s] == Latest(hist, RefName(s).value).value
  {
    if hist != [] {
      var front, last := hist[..|hist| - 1], hist[|hist| - 1];
      ContextIsLatest(front, s);
      RefOfKey(last.name);
      if RefName(s).Some? {
        KeyOfRef(s);
      }
    }
  }

  function PrevName(hist: seq<Entry>, hasPrev: bool): string {
    if hasPrev && hist != [] then hist[|hist| - 1].name else ""
  }

  predicate AllNamed(hist: seq<Entry>) {
    forall e | e in hist :: e.name != ""
  }

  lemma {:induction false} ResolveIsMeant(input: Value, hist: seq<Entry>, hasPrev: bool)
    requires AllNamed(hist)
    ensures Resolve(input, CtxOf(hist), PrevName(hist, hasPrev)) == Meant(input, hist, hasPrev)
  {
    if input.Str? {
      assert PREV[1] == 'p' && HEAD[1] == 's';
      if input.s == PREV && hasPrev && hist != [] {
        var name := hist[|hist| - 1].name;
        assert hist[|hist| - 1] in hist;
        ContextIsLatest(hist, Key(name));
        RefOfKey(name);
      } else {
        ContextIsLatest(hist, input.s);
      }
    }
  }

  lemma {:induction false} StmtMeansStep(eng: Engine, s: Stmt, hist: seq<Entry>, hasPrev: bool)
    requires OneStep(s) && AllNamed(hist)
    ensures ExecStep(eng, BuildStmt(s), CtxOf(hist), PrevName(hist, hasPrev)) == EvalStmt(eng, s, hist, hasPrev)
    decreases s
  {
    match s
    case Do(name, skill, input) => ResolveIsMeant(input, hist, hasPrev);
    case If(name, cond, thn, els) =>
      var body := if cond(CtxOf(hist)) then thn else els;
      if body != [] {
        StmtMeansStep(eng, body[0], hist, hasPrev);
      }
    case Par(name, branches) =>
      var built := BuildStmt(s).steps;
      forall i | 0 <= i < |branches|
        ensures ExecStep(eng, built[i], CtxOf(hist), "") == EvalStmt(eng, branches[i], hist, false)
      {
        assert branches[i] in branches;
        StmtMeansStep(eng, branches[i], hist, false);
      }
      assert seq(|built|, i requires 0 <= i < |built| => ExecStep(eng, built[i], CtxOf(hist), ""))
          == seq(|branches|, i requires 0 <= i < |branches| => EvalStmt(eng, branches[i], hist, false));
  }

  lemma {:induction false} RememberedContext(hist: seq<Entry>, name: string, output: Value)
    requires AllNamed(hist) && name != ""
    ensures var more := Remembered(hist, name, output);
      AllNamed(more) && CtxOf(more) == CtxOf(hist)[Key(name) := output] && PrevName(more, true) == name
  {
    assert (hist + [Entry(name, output)])[..|hist|] == hist;
  }

  lemma BuildCons(prog: seq<Stmt>)
    requires prog != []
    ensures Build(prog) != [] && Build(prog)[0] == BuildStmt(prog[0]) && Build(prog)[1..] == Build(prog[1..])
    ensures BuildStmt(prog[0]).name == prog[0].name
  {
  }

  /** One turn of both evaluations, given that they agree on the rest. */
  lemma FirstStepAgrees(eng: Engine, prog: seq<Stmt>, hist: seq<Entry>, index: nat)
    requires prog != [] && AllNamed(hist) && OneStep(prog[0])
    requires var r := EvalStmt(eng, prog[0], hist, true); var more := Remembered(hist, prog[0].name, r.result.output);
      r.err.None? ==> RunSteps(eng, Build(prog[1..]), CtxOf(more), PrevName(more, true), index + 1) == EvalProgram(eng, prog[1..], more, index + 1)
    ensures RunSteps(eng, Build(prog), CtxOf(hist), PrevName(hist, true), index) == EvalProgram(eng, prog, hist, index)
  {
    BuildCons(prog);
    StmtMeansStep(eng, prog[0], hist, true);
    if prog[0].name != "" {
      RememberedContext(hist, prog[0].name, EvalStmt(eng, prog[0], hist, true).result.output);
    }
  }

  /** Building a program and executing the pipeline gives what the program means, whatever the skills do. */
  lemma {:induction false} BuildingPreservesMeaning(eng: Engine, prog: seq<Stmt>, hist: seq<Entry>, index: nat)
    requires AllNamed(hist) && forall s | s in prog :: OneStep(s)
    ensures RunSteps(eng, Build(prog), CtxOf(hist), PrevName(hist, true), index) == EvalProgram(eng, prog, hist, index)
    decreases |prog|
  {
    if prog != [] {
      var r := EvalStmt(eng, prog[0], hist, true);
      if r.err.None? {
        if prog[0].name != "" {
          RememberedContext(hist, prog[0].name, r.result.output);
        }
        BuildingPreservesMeaning(eng, prog[1..], Remembered(hist, prog[0].name, r.result.output), index + 1);
      }
      FirstStepAgrees(eng, prog, hist, index);
    }
  }

  /** The method and the language together. */
  method RunProgram(eng: Engine, b: Builder) returns (run: PipelineRun)
    requires b.Valid() && forall s | s in b.prog :: OneStep(s)
    ensures run == EvalProgram(eng, b.prog, [], 0)
  {
    run := Execute(eng, b.steps);
    BuildingPreservesMeaning(eng, b.prog, [], 0);
  }

  // ----- Longer branches lose steps -----

  function Count(s: Stmt): nat {
    match s
    case Do(_, _, _) => 1
    case If(_, _, thn, els) => 1 + CountAll(thn) + CountAll(els)
    case Par(_, branches) => 1 + CountAll(branches)
  }

  function CountAll(prog: seq<Stmt>): nat {
    if prog == [] then 0 else Count(prog[0]) + CountAll(prog[1..])
  }

  function Built(s: Step): nat {
    match s
    case Atomic(_, _, _) => 1
    case Conditional(_, _, thn, els) =>
      1 + (match thn case None => 0 case Some(t) => Built(t)) + (match els case None => 0 case Some(e) => Built(e))
    case Parallel(_, steps) => 1 + BuiltAll(steps)
  }

  function BuiltAll(steps: seq<Step>): nat {
    if steps == [] then 0 else Built(steps[0]) + BuiltAll(steps[1..])
  }

  lemma {:induction false} CountPositive(prog: seq<Stmt>)
    ensures CountAll(prog) >= |prog|
  {
    if prog != [] {
      CountPositive(prog[1..]);
    }
  }

  /** Building a statement loses nothing exactly when all its branches hold at most one step. */
  lemma {:induction false} NothingLostExactly(s: Stmt)
    ensures Built(BuildStmt(s)) <= Count(s)
    ensures Built(BuildStmt(s)) == Count(s) <==> OneStep(s)
    decreases s
  {
    match s
    case Do(_, _, _) =>
    case If(_, _, thn, els) =>
      BranchLoss(thn);
      BranchLoss(els);
    case Par(_, branches) =>
      GroupLoss(branches);
      assert BuildStmt(s).steps == Build(branches);
  }

  lemma {:induction false} BranchLoss(body: seq<Stmt>)
    ensures body != [] ==> Built(BuildStmt(body[0])) <= CountAll(body)
    ensures body != [] ==> (Built(BuildStmt(body[0])) == CountAll(body) <==> |body| == 1 && OneStep(body[0]))
    ensures |body| <= 1 ==> CountAll(body) == if body == [] then 0 else Count(body[0])
    decreases body
  {
    if body != [] {
      NothingLostExactly(body[0]);
      CountPositive(body[1..]);
      assert |body| == 1 ==> body[1..] == [];
    }
  }

  lemma {:induction false} GroupLoss(branches: seq<Stmt>)
    ensures BuiltAll(Build(branches)) <= CountAll(branches)
    ensures BuiltAll(Build(branches)) == CountAll(branches) <==> forall s | s in branches :: OneStep(s)
    decreases branches
  {
    if branches != [] {
      NothingLostExactly(branches[0]);
      GroupLoss(branches[1..]);
      assert Build(branches)[1..] == Build(branches[1..]);
      assert forall s :: s in branches <==> s == branches[0] || s in branches[1..];
    }
  }

  /** Such a loss shows: the second step of a branch is never called. */
  lemma LongBranchIsCut()
    ensures exists eng: Engine, prog: seq<Stmt> ::
      RunSteps(eng, Build(prog), map[], "", 0).calls != EvalProgram(eng, prog, [], 0).calls
  {
    var eng: Engine := (skill: string, input: Value) => Good(Nil);
    var a, b := Do("a", "x", Nil), Do("b", "y", Nil);
    var body := [a, b];
    var cond := (c: Ctx) => true;
    var prog := [If("", cond, body, [])];
    var built := Build(prog);
    assert BuildStmt(body[0]) == Atomic("a", "x", Nil);
    assert built[0] == BuildStmt(prog[0]) == Conditional("", Some(cond), Some(Atomic("a", "x", Nil)), None);
    assert built[1..] == [] && prog[1..] == [] && body[1..] == [b];
    var r := ExecStep(eng, built[0], map[], "");
    assert r == ExecStep(eng, Atomic("a", "x", Nil), map[], "");
    assert r.calls == [Call("x", Nil)];
    assert RunSteps(eng, built, map[], "", 0).calls == [Call("x", Nil)] by {
      assert RunSteps(eng, built, map[], "", 0) == Cons(r, RunSteps(eng, built[1..], map[], "", 1));
    }
    assert EvalBody(eng, "", [b], [], true).calls == [Call("y", Nil)];
    assert EvalBody(eng, "", body, [], true).calls == [Call("x", Nil)] + [Call("y", Nil)];
    assert EvalStmt(eng, prog[0], [], true) == EvalBody(eng, "", body, [], true);
    assert |EvalProgram(eng, prog, [], 0).calls| == 2;
  }
}
