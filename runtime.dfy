/** How a compiled graph runs: one node at a time, each node's returned keys
    merged into the session, then the node's outgoing edge (or its router)
    picks the next node, until the end is reached. The run is bounded by
    `fuel`, the number of steps it may take, because the shipped wiring has
    no cap on the retrieve / rewrite cycle. */
module Runtime {
  import opened Wrappers
  import opened GraphState
  import opened Graph
  import ChatWithPdf

  /** How a run ends: at the end node with the final session; out of fuel at
      some node; or aborted by an error, with no session. `trace` lists the
      nodes executed, in order. */
  datatype Outcome =
    | Done(state: Session, trace: seq<Node>)
    | OutOfFuel(at: Node, state: Session, trace: seq<Node>)
    | Failed(error: NodeError, trace: seq<Node>)

  /** The entry and exit are not executed, so they do not appear in a trace. */
  function Visit(n: Node): seq<Node> {
    if n == Start || n == End then [] else [n]
  }

  /** `o` with the nodes `t` executed before it. */
  function Prefix(t: seq<Node>, o: Outcome): (r: Outcome)
    ensures r.trace == t + o.trace
    ensures r.Done? == o.Done? && r.OutOfFuel? == o.OutOfFuel? && r.Failed? == o.Failed?
    ensures !o.Failed? ==> r.state == o.state
    ensures o.OutOfFuel? ==> r.at == o.at
    ensures o.Failed? ==> r.error == o.error
  {
    o.(trace := t + o.trace)
  }

  /** The session after a node's update is merged, or the node's error. */
  function Apply(s: Session, u: Result<Update, NodeError>): Result<Session, NodeError> {
    match u
    case Failure(e) => Failure(e)
    case Success(v) => Success(Merge(s, v))
  }

  /** Executes the node itself. */
  function RunNode(g: CompiledGraph, n: Node, s: Session): Result<Session, NodeError> {
    match n
    case Start => Success(s)
    case End => Success(s)
    case Retrive => Apply(s, ChatWithPdf.Retrieve(s, g.retriever))
    case GradeDocs => Apply(s, ChatWithPdf.GradedDocuments(s, g.parts.retrievalGrader))
    case TransformQuery => Apply(s, ChatWithPdf.TransformQuery(s, g.parts.questionRewriter))
    case Generate => Apply(s, ChatWithPdf.Generate(s, g.parts.ragChain))
  }

  /** Follows the outgoing edge of `n` from session `s`. A router is handed
      the session and may write `failures` into it. */
  function Route(g: CompiledGraph, n: Node, s: Session): Result<(Node, Session), NodeError> {
    if n !in g.wiring then Failure(NoEdge)
    else match g.wiring[n]
      case Fixed(to) => Success((to, s))
      case Conditional(DecideToGenerateRouter, paths) =>
        (match ChatWithPdf.DecideToGenerate(s)
         case Failure(e) => Failure(e)
         case Success(route) =>
           if route in paths then Success((paths[route], s)) else Failure(UnknownRoute(route)))
      case Conditional(GradeGenerationRouter, paths) =>
        (match ChatWithPdf.GradeGeneration(s, g.parts.hallucinationGrader, g.parts.answerGrader)
         case Failure(e) => Failure(e)
         case Success(v) =>
           var s' := s.(failures := Some(v.failures));
           if v.verdict in paths then Success((paths[v.verdict], s')) else Failure(UnknownRoute(v.verdict)))
  }

  /** One step: run the node, then follow its edge. */
  function Step(g: CompiledGraph, n: Node, s: Session): Result<(Node, Session), NodeError> {
    match RunNode(g, n, s)
    case Failure(e) => Failure(e)
    case Success(s') => Route(g, n, s')
  }

  /** One step when the router is handed a copy of the session, as LangGraph
      hands a conditional edge a fresh read of the state: the router's write
      of `failures` is lost, and the next node sees the session as the node's
      update left it. */
  function StepWithRouterCopy(g: CompiledGraph, n: Node, s: Session): Result<(Node, Session), NodeError> {
    match RunNode(g, n, s)
    case Failure(e) => Failure(e)
    case Success(s') =>
      match Route(g, n, s')
      case Failure(e) => Failure(e)
      case Success(next) => Success((next.0, s'))
  }

  /** Handing the router a copy changes nothing but the failure count the
      next node sees: the same steps fail with the same error, and the same
      node comes next with the same question, passages and answer. */
  lemma RouterCopyOnlyLosesFailures(g: CompiledGraph, n: Node, s: Session)
    ensures var live := Step(g, n, s);
      var copy := StepWithRouterCopy(g, n, s);
      && live.Failure? == copy.Failure?
      && (live.Failure? ==> live.error == copy.error)
      && (live.Success? ==>
            && live.value.0 == copy.value.0
            && live.value.1 == copy.value.1.(failures := live.value.1.failures))
      && (live.Success? && (n !in g.wiring || g.wiring[n].Fixed? || g.wiring[n].router != GradeGenerationRouter) ==>
            live == copy)
  {
  }

  /** A transition function: the next node and session, or an error. */
  type Stepper = (Node, Session) -> Result<(Node, Session), NodeError>

  /** The run driven by `step` from node `n` with session `s` and `fuel`
      steps left. */
  function ExecWith(step: Stepper, n: Node, s: Session, fuel: nat): Outcome
    decreases fuel
  {
    if n == End then Done(s, [])
    else if fuel == 0 then OutOfFuel(n, s, [])
    else match step(n, s)
      case Failure(e) => Failed(e, Visit(n))
      case Success(next) => Prefix(Visit(n), ExecWith(step, next.0, next.1, fuel - 1))
  }

  /** The compiled graph's transition function. */
  function StepOf(g: CompiledGraph): Stepper {
    (n: Node, s: Session) => Step(g, n, s)
  }

  /** The transition function when the router is handed a copy. */
  function StepWithRouterCopyOf(g: CompiledGraph): Stepper {
    (n: Node, s: Session) => StepWithRouterCopy(g, n, s)
  }

  /** The run of compiled graph `g` from node `n`. */
  function Exec(g: CompiledGraph, n: Node, s: Session, fuel: nat): Outcome {
    ExecWith(StepOf(g), n, s, fuel)
  }

  /** One step of a run: the node's step, then the rest of the run. */
  lemma ExecUnfold(step: Stepper, n: Node, s: Session, fuel: nat)
    requires n != End && fuel > 0
    ensures step(n, s).Failure? ==> ExecWith(step, n, s, fuel) == Failed(step(n, s).error, Visit(n))
    ensures step(n, s).Success? ==>
      ExecWith(step, n, s, fuel) == Prefix(Visit(n), ExecWith(step, step(n, s).value.0, step(n, s).value.1, fuel - 1))
  {
  }

  /** How many times `m` occurs in `t`. */
  function Count(t: seq<Node>, m: Node): nat {
    if t == [] then 0 else (if t[0] == m then 1 else 0) + Count(t[1..], m)
  }

  /** The last node of `t`, if any. */
  function Last(t: seq<Node>): Option<Node> {
    if t == [] then None else if |t| == 1 then Some(t[0]) else Last(t[1..])
  }

  lemma {:induction false} CountIsMultiplicity(t: seq<Node>, m: Node)
    ensures Count(t, m) == multiset(t)[m]
  {
    if t != [] {
      CountIsMultiplicity(t[1..], m);
      assert t == [t[0]] + t[1..];
    }
  }

  lemma {:induction false} LastIsFinal(t: seq<Node>)
    ensures Last(t).Some? <==> t != []
    ensures t != [] ==> Last(t).value == t[|t| - 1]
  {
    if |t| > 1 {
      LastIsFinal(t[1..]);
    }
  }

  /** What prefixing one visited node does to a trace: its count of each
      node and its last node. */
  lemma PrefixVisit(n: Node, o: Outcome, m: Node)
    ensures Count(Prefix(Visit(n), o).trace, m) == (if n == m && n != Start && n != End then 1 else 0) + Count(o.trace, m)
    ensures Last(Prefix(Visit(n), o).trace) == if o.trace != [] then Last(o.trace) else if Visit(n) == [] then None else Some(n)
  {
    var t := Prefix(Visit(n), o).trace;
    if n == Start || n == End {
      assert t == o.trace;
    } else {
      assert t[0] == n && t[1..] == o.trace;
    }
  }

  lemma PrefixConcat(t1: seq<Node>, t2: seq<Node>, o: Outcome)
    ensures Prefix(t1, Prefix(t2, o)) == Prefix(t1 + t2, o)
  {
    assert t1 + (t2 + o.trace) == (t1 + t2) + o.trace;
  }

  /** A driver that has executed `trace` and is at `at` with `left` steps
      left either stops there or takes the step and carries on. */
  lemma RunAdvance(step: Stepper, trace: seq<Node>, at: Node, s: Session, left: nat)
    ensures at == End ==> Prefix(trace, ExecWith(step, at, s, left)) == Done(s, trace)
    ensures at != End && left == 0 ==> Prefix(trace, ExecWith(step, at, s, left)) == OutOfFuel(at, s, trace)
    ensures at != End && left > 0 && step(at, s).Failure? ==>
      Prefix(trace, ExecWith(step, at, s, left)) == Failed(step(at, s).error, trace + Visit(at))
    ensures at != End && left > 0 && step(at, s).Success? ==>
      Prefix(trace, ExecWith(step, at, s, left))
        == Prefix(trace + Visit(at), ExecWith(step, step(at, s).value.0, step(at, s).value.1, left - 1))
  {
    assert trace + [] == trace;
    if at != End && left > 0 {
      ExecUnfold(step, at, s, left);
      if step(at, s).Success? {
        PrefixConcat(trace, Visit(at), ExecWith(step, step(at, s).value.0, step(at, s).value.1, left - 1));
      }
    }
  }

  /** The runtime's dispatch for one step: calls the node (the looping
      `GradeDocs` for grading), merges its update and consults the edge,
      handing a router the live dictionary. */
  method RunStep(g: CompiledGraph, n: Node, s: Session) returns (r: Result<(Node, Session), NodeError>)
    ensures r == Step(g, n, s)
  {
    var update: Result<Update, NodeError>;
    match n {
      case Start => update := Success(Update(None, None, None, None));
      case End => update := Success(Update(None, None, None, None));
      case Retrive => update := ChatWithPdf.Retrieve(s, g.retriever);
      case GradeDocs => update := ChatWithPdf.GradeDocs(s, g.parts.retrievalGrader);
      case TransformQuery => update := ChatWithPdf.TransformQuery(s, g.parts.questionRewriter);
      case Generate => update := ChatWithPdf.Generate(s, g.parts.ragChain);
    }
    if update.Failure? {
      return Failure(update.error);
    }
    var s' := Merge(s, update.value);
    assert RunNode(g, n, s) == Success(s');
    if n !in g.wiring {
      return Failure(NoEdge);
    }
    match g.wiring[n] {
      case Fixed(to) =>
        r := Success((to, s'));
      case Conditional(DecideToGenerateRouter, paths) =>
        var route := ChatWithPdf.DecideToGenerate(s');
        if route.Failure? {
          return Failure(route.error);
        }
        if route.value in paths {
          r := Success((paths[route.value], s'));
        } else {
          r := Failure(UnknownRoute(route.value));
        }
      case Conditional(GradeGenerationRouter, paths) =>
        var state := new StateDict(s');
        var route := ChatWithPdf.GradeGenerationVDocumentsAndQuestion(
          state, g.parts.hallucinationGrader, g.parts.answerGrader);
        if route.Failure? {
          return Failure(route.error);
        }
        if route.value in paths {
          r := Success((paths[route.value], state.record));
        } else {
          r := Failure(UnknownRoute(route.value));
        }
    }
  }

  /** `graph.invoke({"question": question})`, driven step by step. */
  method Run(g: CompiledGraph, question: string, fuel: nat) returns (r: Outcome)
    ensures r == Exec(g, Start, Initial(question), fuel)
  {
    var at := Start;
    var s := Initial(question);
    var left := fuel;
    var trace: seq<Node> := [];
    ghost var step := StepOf(g);
    ghost var whole := ExecWith(step, Start, Initial(question), fuel);
    while true
      invariant whole == Prefix(trace, ExecWith(step, at, s, left))
      decreases left
    {
      RunAdvance(step, trace, at, s, left);
      if at == End {
        return Done(s, trace);
      }
      if left == 0 {
        return OutOfFuel(at, s, trace);
      }
      var next := RunStep(g, at, s);
      assert next == step(at, s);
      if next.Failure? {
        return Failed(next.error, trace + Visit(at));
      }
      trace := trace + Visit(at);
      at, s := next.value.0, next.value.1;
      left := left - 1;
    }
  }
}
