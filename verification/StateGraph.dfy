/** A graph of stateful nodes and its bounded interpreter. */
module StateGraph {

  const END := "__end__"

  /** A node hands on a state, also when it fails (or panics). */
  datatype NodeResult<S> = Ok(state: S) | Failed(state: S, err: string)

  /** A node also gets the number of the step it runs in: the world may answer differently every time. */
  datatype Graph<!S> = Graph(
    nodes: map<string, (S, nat) -> NodeResult<S>>,
    edges: map<string, string>,
    condEdges: map<string, S -> string>,
    entry: string)

  datatype Fault = Cancelled | NodeNotFound(name: string) | NodeFailed(err: string) | NoOutgoingEdge(name: string) | MaxStepsReached(max: nat)

  datatype Outcome<S> = Done(state: S) | Stopped(fault: Fault, state: S)

  // ----- Compilation -----

  predicate Runnable<S>(g: Graph<S>) {
    && g.entry != "" && g.entry in g.nodes
    && forall from | from in g.edges :: g.edges[from] == END || g.edges[from] in g.nodes
  }

  method Compile<S>(g: Graph<S>) returns (ok: bool)
    ensures ok <==> Runnable(g)
    ensures ok <==> g.entry != "" && g.entry in g.nodes && forall from | from in g.edges :: g.edges[from] == END || g.edges[from] in g.nodes
  {
    if g.entry == "" {
      return false;
    }
    if g.entry !in g.nodes {
      return false;
    }
    var todo := g.edges.Keys;
    while todo != {}
      invariant todo <= g.edges.Keys
      invariant forall from | from in g.edges && from !in todo :: g.edges[from] == END || g.edges[from] in g.nodes
    {
      var from :| from in todo;
      if g.edges[from] != END && g.edges[from] !in g.nodes {
        return false;
      }
      todo := todo - {from};
    }
    ok := true;
  }

  // ----- Unbounded iteration -----

  datatype Config<S> = At(current: string, state: S) | Halted(fault: Fault, state: S)

  /** One node execution and the edge after it; END and faults stay where they are. */
  function Advance<S>(g: Graph<S>, cancelled: nat -> bool, c: Config<S>, step: nat): Config<S> {
    if c.Halted? || c.current == END then c
    else if cancelled(step) then Halted(Cancelled, c.state)
    else if c.current !in g.nodes then Halted(NodeNotFound(c.current), c.state)
    else
      match g.nodes[c.current](c.state, step)
      case Failed(s, e) => Halted(NodeFailed(e), s)
      case Ok(s) =>
        if c.current in g.condEdges then At(g.condEdges[c.current](s), s)
        else if c.current in g.edges then At(g.edges[c.current], s)
        else Halted(NoOutgoingEdge(c.current), s)
  }

  /** The configuration after k node executions. */
  function Iterate<S>(g: Graph<S>, cancelled: nat -> bool, initial: S, k: nat): Config<S> {
    if k == 0 then At(g.entry, initial) else Advance(g, cancelled, Iterate(g, cancelled, initial, k - 1), k - 1)
  }

  predicate Ended<S>(c: Config<S>) {
    c.At? && c.current == END
  }

  function Budget(maxSteps: int): nat {
    if maxSteps <= 0 then 10 else maxSteps
  }

  /** What the bounded run must return, in terms of the unbounded iteration. */
  ghost predicate IsOutcome<S>(g: Graph<S>, cancelled: nat -> bool, initial: S, max: nat, r: Outcome<S>) {
    match r
    case Done(s) => exists k: nat | k < max :: Iterate(g, cancelled, initial, k) == At(END, s)
    case Stopped(MaxStepsReached(n), s) =>
      n == max && Iterate(g, cancelled, initial, max).At? && Iterate(g, cancelled, initial, max).state == s
      && forall k: nat | k < max :: !Ended(Iterate(g, cancelled, initial, k))
    case Stopped(fault, s) => exists k: nat | k <= max :: Iterate(g, cancelled, initial, k) == Halted(fault, s)
  }

  method Invoke<S>(g: Graph<S>, cancelled: nat -> bool, initial: S, maxSteps: int) returns (r: Outcome<S>)
    ensures IsOutcome(g, cancelled, initial, if maxSteps <= 0 then 10 else maxSteps, r)
  {
    var max := maxSteps;
    if max <= 0 {
      max := 10;
    }
    var state, current := initial, g.entry;
    var step := 0;
    while step < max
      invariant 0 <= step <= max
      invariant Iterate(g, cancelled, initial, step) == At(current, state)
      invariant forall k: nat | k < step :: !Ended(Iterate(g, cancelled, initial, k))
    {
      if current == END {
        return Done(state);
      }
      assert Iterate(g, cancelled, initial, step + 1) == Advance(g, cancelled, At(current, state), step);
      if cancelled(step) {
        return Stopped(Cancelled, state);
      }
      if current !in g.nodes {
        return Stopped(NodeNotFound(current), state);
      }
      var result := g.nodes[current](state, step);
      state := result.state;
      if result.Failed? {
        return Stopped(NodeFailed(result.err), state);
      }
      if current in g.condEdges {
        current := g.condEdges[current](state);
      } else if current in g.edges {
        current := g.edges[current];
      } else {
        return Stopped(NoOutgoingEdge(current), state);
      }
      step := step + 1;
    }
    r := Stopped(MaxStepsReached(max), state);
  }

  // ----- What the outcome depends on -----

  /** Once the iteration has ended or halted it stays so. */
  lemma {:induction false} SettledStays<S>(g: Graph<S>, cancelled: nat -> bool, initial: S, k: nat, m: nat)
    requires k <= m
    requires Ended(Iterate(g, cancelled, initial, k)) || Iterate(g, cancelled, initial, k).Halted?
    ensures Iterate(g, cancelled, initial, m) == Iterate(g, cancelled, initial, k)
    decreases m - k
  {
    if k < m {
      SettledStays(g, cancelled, initial, k, m - 1);
    }
  }

  /** Two points at which the iteration has ended or halted are the same. */
  lemma {:induction false} SettledAgree<S>(g: Graph<S>, cancelled: nat -> bool, initial: S, k: nat, m: nat)
    requires Ended(Iterate(g, cancelled, initial, k)) || Iterate(g, cancelled, initial, k).Halted?
    requires Ended(Iterate(g, cancelled, initial, m)) || Iterate(g, cancelled, initial, m).Halted?
    ensures Iterate(g, cancelled, initial, m) == Iterate(g, cancelled, initial, k)
  {
    if k <= m {
      SettledStays(g, cancelled, initial, k, m);
    } else {
      SettledStays(g, cancelled, initial, m, k);
    }
  }

  /** The point at which a run that does not exhaust its budget has settled. */
  lemma SettlesAt<S>(g: Graph<S>, cancelled: nat -> bool, initial: S, max: nat, r: Outcome<S>) returns (k: nat)
    requires IsOutcome(g, cancelled, initial, max, r) && !(r.Stopped? && r.fault.MaxStepsReached?)
    ensures k <= max && (r.Done? ==> k < max)
    ensures Iterate(g, cancelled, initial, k) == if r.Done? then At(END, r.state) else Halted(r.fault, r.state)
  {
    if r.Done? {
      k :| k < max && Iterate(g, cancelled, initial, k) == At(END, r.state);
    } else {
      k :| k <= max && Iterate(g, cancelled, initial, k) == Halted(r.fault, r.state);
    }
  }

  /** The description leaves no choice: graph, cancellations, initial state and budget determine the outcome. */
  lemma OutcomeIsUnique<S>(g: Graph<S>, cancelled: nat -> bool, initial: S, max: nat, r1: Outcome<S>, r2: Outcome<S>)
    requires IsOutcome(g, cancelled, initial, max, r1) && IsOutcome(g, cancelled, initial, max, r2)
    ensures r1 == r2
  {
    var exhausted1, exhausted2 := r1.Stopped? && r1.fault.MaxStepsReached?, r2.Stopped? && r2.fault.MaxStepsReached?;
    if !exhausted1 && !exhausted2 {
      var k := SettlesAt(g, cancelled, initial, max, r1);
      var m := SettlesAt(g, cancelled, initial, max, r2);
      SettledAgree(g, cancelled, initial, k, m);
    } else if !exhausted1 {
      var k := SettlesAt(g, cancelled, initial, max, r1);
      SettledStays(g, cancelled, initial, k, max);
    } else if !exhausted2 {
      var k := SettlesAt(g, cancelled, initial, max, r2);
      SettledStays(g, cancelled, initial, k, max);
    }
  }

  /** The bounded run succeeds exactly when the iteration reaches END after strictly fewer executions than the budget. */
  lemma {:induction false} SuccessIsReachingEnd<S>(g: Graph<S>, cancelled: nat -> bool, initial: S, max: nat, r: Outcome<S>)
    requires IsOutcome(g, cancelled, initial, max, r)
    ensures r.Done? <==> exists k: nat | k < max :: Ended(Iterate(g, cancelled, initial, k))
  {
    if r.Done? {
      var k: nat :| k < max && Iterate(g, cancelled, initial, k) == At(END, r.state);
      assert Ended(Iterate(g, cancelled, initial, k));
    } else if !r.fault.MaxStepsReached? {
      var k: nat :| k <= max && Iterate(g, cancelled, initial, k) == Halted(r.fault, r.state);
      forall j: nat | j < max ensures !Ended(Iterate(g, cancelled, initial, j)) {
        if Ended(Iterate(g, cancelled, initial, j)) {
          if j <= k {
            SettledStays(g, cancelled, initial, j, k);
          } else {
            SettledStays(g, cancelled, initial, k, j);
          }
        }
      }
    }
  }

  /** A larger budget changes nothing about a successful run. */
  lemma LargerBudgetKeepsSuccess<S>(g: Graph<S>, cancelled: nat -> bool, initial: S, max: nat, more: nat, r: Outcome<S>, r': Outcome<S>)
    requires max <= more && IsOutcome(g, cancelled, initial, max, r) && IsOutcome(g, cancelled, initial, more, r')
    requires r.Done?
    ensures r' == r
  {
    var k: nat :| k < max && Iterate(g, cancelled, initial, k) == At(END, r.state);
    assert Ended(Iterate(g, cancelled, initial, k));
    SuccessIsReachingEnd(g, cancelled, initial, more, r');
    var j: nat :| j < more && Iterate(g, cancelled, initial, j) == At(END, r'.state);
    if j <= k {
      SettledStays(g, cancelled, initial, j, k);
    } else {
      SettledStays(g, cancelled, initial, k, j);
    }
  }

  // ----- What one step does -----

  /** Step k of a run that has not ended: a cancellation stops it before the node; a missing node, a failing node and a missing
      edge stop it with their own faults; otherwise a conditional edge, else a fixed one, leads on from the node's result. */
  lemma StepFollowsGraph<S>(g: Graph<S>, cancelled: nat -> bool, initial: S, k: nat, current: string, state: S)
    requires Iterate(g, cancelled, initial, k) == At(current, state) && current != END
    ensures var next := Iterate(g, cancelled, initial, k + 1);
      if cancelled(k) then next == Halted(Cancelled, state)
      else if current !in g.nodes then next == Halted(NodeNotFound(current), state)
      else match g.nodes[current](state, k)
        case Failed(s, e) => next == Halted(NodeFailed(e), s)
        case Ok(s) =>
          && (current in g.condEdges ==> next == At(g.condEdges[current](s), s))
          && (current !in g.condEdges && current in g.edges ==> next == At(g.edges[current], s))
          && (current !in g.condEdges && current !in g.edges ==> next == Halted(NoOutgoingEdge(current), s))
  {
  }

  /** A fault within the budget is the outcome of the run. */
  lemma {:induction false} FaultIsOutcome<S>(g: Graph<S>, cancelled: nat -> bool, initial: S, max: nat, r: Outcome<S>, k: nat, fault: Fault, state: S)
    requires IsOutcome(g, cancelled, initial, max, r) && k <= max && !fault.MaxStepsReached?
    requires Iterate(g, cancelled, initial, k) == Halted(fault, state)
    ensures r == Stopped(fault, state)
  {
    var stopped := Stopped(fault, state);
    assert IsOutcome(g, cancelled, initial, max, stopped);
    OutcomeIsUnique(g, cancelled, initial, max, r, stopped);
  }

  /** A run that is cancelled before a step it would still take stops there, with the state it had. */
  lemma {:induction false} CancellationStopsRun<S>(g: Graph<S>, cancelled: nat -> bool, initial: S, max: nat, r: Outcome<S>, k: nat)
    requires IsOutcome(g, cancelled, initial, max, r) && k < max && cancelled(k)
    requires Iterate(g, cancelled, initial, k).At? && Iterate(g, cancelled, initial, k).current != END
    ensures r == Stopped(Cancelled, Iterate(g, cancelled, initial, k).state)
  {
    var c := Iterate(g, cancelled, initial, k);
    StepFollowsGraph(g, cancelled, initial, k, c.current, c.state);
    FaultIsOutcome(g, cancelled, initial, max, r, k + 1, Cancelled, c.state);
  }

  /** A node that fails stops the run with its error and the state it hands on. */
  lemma {:induction false} NodeFailureStopsRun<S>(g: Graph<S>, cancelled: nat -> bool, initial: S, max: nat, r: Outcome<S>, k: nat, s: S, e: string)
    requires IsOutcome(g, cancelled, initial, max, r) && k < max && !cancelled(k)
    requires var c := Iterate(g, cancelled, initial, k);
      c.At? && c.current != END && c.current in g.nodes && g.nodes[c.current](c.state, k) == Failed(s, e)
    ensures r == Stopped(NodeFailed(e), s)
  {
    var c := Iterate(g, cancelled, initial, k);
    StepFollowsGraph(g, cancelled, initial, k, c.current, c.state);
    FaultIsOutcome(g, cancelled, initial, max, r, k + 1, NodeFailed(e), s);
  }
}
