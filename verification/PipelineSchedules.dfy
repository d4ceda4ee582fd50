/** Goroutines of parallel groups, nested to any depth, interleaving one atomic move at a time. A schedule
    is a list of paths: each path says whose turn it is. */
module PipelineSchedules {
  import opened Pipeline

  datatype Task =
    | Todo(step: Step, prev: string)
    | Fork(name: string, tasks: seq<Task>)   // goroutines started, results not yet collected
    | Over(ran: Ran)

  predicate AllOver(tasks: seq<Task>) {
    forall i | 0 <= i < |tasks| :: tasks[i].Over?
  }

  function Results(tasks: seq<Task>): seq<Ran>
    requires AllOver(tasks)
  {
    seq(|tasks|, i requires 0 <= i < |tasks| => tasks[i].ran)
  }

  function Spawned(steps: seq<Step>): seq<Task> {
    seq(|steps|, i requires 0 <= i < |steps| => Todo(steps[i], ""))
  }

  /** One move: an atomic call, the evaluation of a condition, the start of a group's goroutines, the collection of its
      results once all are in, or a move inside one branch. A path that leads nowhere does nothing. */
  function Move(eng: Engine, ctx: Ctx, t: Task, path: seq<nat>): Task
    decreases |path|
  {
    match t
    case Over(_) => t
    case Todo(step, prev) =>
      (match step
       case Atomic(name, skill, input) => Over(RunAtomic(eng, name, skill, Resolve(input, ctx, prev)))
       case Conditional(name, _, _, _) =>
         var chosen := Chosen(step, ctx);
         if chosen.None? then Over(Skipped(name)) else Todo(chosen.value, prev)
       case Parallel(name, steps) => Fork(name, Spawned(steps)))
    case Fork(name, tasks) =>
      if AllOver(tasks) then Over(Combine(name, Results(tasks)))
      else if path == [] || path[0] >= |tasks| then t
      else Fork(name, tasks[path[0] := Move(eng, ctx, tasks[path[0]], path[1..])])
  }

  function Follow(eng: Engine, ctx: Ctx, t: Task, schedule: seq<seq<nat>>): Task
    decreases |schedule|
  {
    if schedule == [] then t else Follow(eng, ctx, Move(eng, ctx, t, schedule[0]), schedule[1..])
  }

  // ----- Every schedule gives the same -----

  /** What a task will have come to when it is over: left-to-right evaluation of all that is left. */
  function Denote(eng: Engine, ctx: Ctx, t: Task): Ran {
    match t
    case Over(r) => r
    case Todo(step, prev) => ExecStep(eng, step, ctx, prev)
    case Fork(name, tasks) => Combine(name, seq(|tasks|, i requires 0 <= i < |tasks| => Denote(eng, ctx, tasks[i])))
  }

  lemma {:induction false} MovePreserves(eng: Engine, ctx: Ctx, t: Task, path: seq<nat>)
    ensures Denote(eng, ctx, Move(eng, ctx, t, path)) == Denote(eng, ctx, t)
    decreases |path|
  {
    match t
    case Over(_) =>
    case Todo(step, prev) =>
      if step.Parallel? {
        var tasks := Spawned(step.steps);
        assert seq(|tasks|, i requires 0 <= i < |tasks| => Denote(eng, ctx, tasks[i]))
            == seq(|step.steps|, i requires 0 <= i < |step.steps| => ExecStep(eng, step.steps[i], ctx, ""));
      }
    case Fork(name, tasks) =>
      if AllOver(tasks) {
        assert Results(tasks) == seq(|tasks|, i requires 0 <= i < |tasks| => Denote(eng, ctx, tasks[i]));
      } else if path != [] && path[0] < |tasks| {
        var k := path[0];
        MovePreserves(eng, ctx, tasks[k], path[1..]);
        var moved := tasks[k := Move(eng, ctx, tasks[k], path[1..])];
        assert seq(|moved|, i requires 0 <= i < |moved| => Denote(eng, ctx, moved[i]))
            == seq(|tasks|, i requires 0 <= i < |tasks| => Denote(eng, ctx, tasks[i]));
      }
  }

  lemma {:induction false} FollowPreserves(eng: Engine, ctx: Ctx, t: Task, schedule: seq<seq<nat>>)
    ensures Denote(eng, ctx, Follow(eng, ctx, t, schedule)) == Denote(eng, ctx, t)
    decreases |schedule|
  {
    if schedule != [] {
      MovePreserves(eng, ctx, t, schedule[0]);
      FollowPreserves(eng, ctx, Move(eng, ctx, t, schedule[0]), schedule[1..]);
    }
  }

  /** Whatever the order in which the goroutines run and finish, a step that is over has the outputs, the error and the calls of
      left-to-right evaluation. */
  lemma {:induction false} ScheduleDoesNotMatter(eng: Engine, ctx: Ctx, step: Step, prev: string, schedule: seq<seq<nat>>)
    requires Follow(eng, ctx, Todo(step, prev), schedule).Over?
    ensures Follow(eng, ctx, Todo(step, prev), schedule).ran == ExecStep(eng, step, ctx, prev)
  {
    FollowPreserves(eng, ctx, Todo(step, prev), schedule);
  }

  // ----- And every schedule that keeps moving gets there -----

  function Weight(s: Step): nat {
    match s
    case Atomic(_, _, _) => 1
    case Conditional(_, _, thn, els) =>
      1 + (match thn case None => 0 case Some(t) => Weight(t)) + (match els case None => 0 case Some(e) => Weight(e))
    case Parallel(_, steps) => 2 + Weights(steps)
  }

  function Weights(steps: seq<Step>): nat {
    if steps == [] then 0 else Weight(steps[0]) + Weights(steps[1..])
  }

  /** An upper bound on the moves still to come. */
  function Work(t: Task): nat {
    match t
    case Over(_) => 0
    case Todo(step, _) => Weight(step)
    case Fork(_, tasks) => 1 + Works(tasks)
  }

  function Works(tasks: seq<Task>): nat {
    if tasks == [] then 0 else Work(tasks[0]) + Works(tasks[1..])
  }

  lemma {:induction false} WorksUpdate(tasks: seq<Task>, k: nat, t: Task)
    requires k < |tasks|
    ensures Works(tasks[k := t]) == Works(tasks) - Work(tasks[k]) + Work(t)
  {
    if k > 0 {
      WorksUpdate(tasks[1..], k - 1, t);
      assert tasks[k := t][1..] == tasks[1..][k - 1 := t];
    }
  }

  lemma {:induction false} WorksSpawned(steps: seq<Step>)
    ensures Works(Spawned(steps)) == Weights(steps)
  {
    if steps != [] {
      WorksSpawned(steps[1..]);
      assert Spawned(steps)[1..] == Spawned(steps[1..]);
    }
  }

  /** A move never adds work, and one that changes anything takes some away. */
  lemma {:induction false} MoveNeverAddsWork(eng: Engine, ctx: Ctx, t: Task, path: seq<nat>)
    ensures Move(eng, ctx, t, path) == t || Work(Move(eng, ctx, t, path)) < Work(t)
    ensures t.Todo? ==> Work(Move(eng, ctx, t, path)) < Work(t)
    ensures t.Fork? && AllOver(t.tasks) ==> Work(Move(eng, ctx, t, path)) < Work(t)
    decreases |path|
  {
    match t
    case Over(_) =>
    case Todo(step, prev) =>
      if step.Parallel? {
        WorksSpawned(step.steps);
      }
    case Fork(name, tasks) =>
      if !AllOver(tasks) && path != [] && path[0] < |tasks| {
        MoveNeverAddsWork(eng, ctx, tasks[path[0]], path[1..]);
        WorksUpdate(tasks, path[0], Move(eng, ctx, tasks[path[0]], path[1..]));
      }
  }

  /** While a task is not over, somebody can move and makes progress: no deadlock. */
  lemma {:induction false} SomebodyCanMove(eng: Engine, ctx: Ctx, t: Task) returns (path: seq<nat>)
    requires !t.Over?
    ensures Work(Move(eng, ctx, t, path)) < Work(t)
    decreases t
  {
    if t.Todo? || AllOver(t.tasks) {
      path := [];
      MoveNeverAddsWork(eng, ctx, t, path);
    } else {
      var k :| 0 <= k < |t.tasks| && !t.tasks[k].Over?;
      var inner := SomebodyCanMove(eng, ctx, t.tasks[k]);
      path := [k] + inner;
      assert path[1..] == inner;
      WorksUpdate(t.tasks, k, Move(eng, ctx, t.tasks[k], inner));
    }
  }

  /** Every turn of the schedule goes to somebody who can move. */
  ghost predicate Busy(eng: Engine, ctx: Ctx, t: Task, schedule: seq<seq<nat>>)
    decreases |schedule|
  {
    schedule == [] || (Move(eng, ctx, t, schedule[0]) != t && Busy(eng, ctx, Move(eng, ctx, t, schedule[0]), schedule[1..]))
  }

  /** Every such schedule is finite: its length is bounded by the work there was. */
  lemma {:induction false} BusyScheduleIsBounded(eng: Engine, ctx: Ctx, t: Task, schedule: seq<seq<nat>>)
    requires Busy(eng, ctx, t, schedule)
    ensures |schedule| + Work(Follow(eng, ctx, t, schedule)) <= Work(t)
    decreases |schedule|
  {
    if schedule != [] {
      MoveNeverAddsWork(eng, ctx, t, schedule[0]);
      BusyScheduleIsBounded(eng, ctx, Move(eng, ctx, t, schedule[0]), schedule[1..]);
    }
  }

  /** And every one that goes on until nobody can move any more ends with the result of left-to-right evaluation. */
  lemma {:induction false} BusyScheduleFinishes(eng: Engine, ctx: Ctx, t: Task, schedule: seq<seq<nat>>)
    requires Busy(eng, ctx, t, schedule)
    requires forall path: seq<nat> :: Move(eng, ctx, Follow(eng, ctx, t, schedule), path) == Follow(eng, ctx, t, schedule)
    ensures |schedule| <= Work(t) && Follow(eng, ctx, t, schedule) == Over(Denote(eng, ctx, t))
  {
    BusyScheduleIsBounded(eng, ctx, t, schedule);
    FollowPreserves(eng, ctx, t, schedule);
    var end := Follow(eng, ctx, t, schedule);
    if !end.Over? {
      var path := SomebodyCanMove(eng, ctx, end);
    }
  }

  /** Such a schedule exists from every point. */
  lemma {:induction false} EveryTaskCanFinish(eng: Engine, ctx: Ctx, t: Task) returns (schedule: seq<seq<nat>>)
    ensures |schedule| <= Work(t) && Follow(eng, ctx, t, schedule) == Over(Denote(eng, ctx, t))
    decreases Work(t)
  {
    if t.Over? {
      schedule := [];
    } else {
      var path := SomebodyCanMove(eng, ctx, t);
      var next := Move(eng, ctx, t, path);
      MovePreserves(eng, ctx, t, path);
      var rest := EveryTaskCanFinish(eng, ctx, next);
      schedule := [path] + rest;
      assert schedule[1..] == rest;
    }
  }
}
