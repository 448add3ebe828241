/** What the wiring guarantees about whole runs: the order in which nodes
    can execute, that the failure count never drops, that the shipped
    wiring ends with exactly one answer and can loop forever, and that the
    post-generation branch bounds the number of answers. */
module RunProperties {
  import opened Wrappers
  import opened GraphState
  import opened Graph
  import opened Runtime
  import ChatWithPdf

  // ---------------------------------------------------------------------------
  // The two wirings
  // ---------------------------------------------------------------------------

  /** The shipped wiring: START to retrive to grade_docs, which branches to
      transform_query or generate; transform_query loops back to retrive and
      generate ends the run. */
  lemma ActiveTopology()
    ensures Successors(ActiveWiring, Start) == {Retrive}
    ensures Successors(ActiveWiring, Retrive) == {GradeDocs}
    ensures Successors(ActiveWiring, GradeDocs) == {TransformQuery, Generate}
    ensures Successors(ActiveWiring, TransformQuery) == {Retrive}
    ensures Successors(ActiveWiring, Generate) == {End}
    ensures Successors(ActiveWiring, End) == {}
  {
    assert DecidePaths["transform_query"] == TransformQuery;
    assert DecidePaths["generate"] == Generate;
  }

  /** With the grading branch on, generate leads back to itself (not
      supported), to transform_query (not useful) or to the end (useful or
      stop); every other edge is as shipped. */
  lemma ExtendedTopology()
    ensures Successors(ExtendedWiring, Start) == {Retrive}
    ensures Successors(ExtendedWiring, Retrive) == {GradeDocs}
    ensures Successors(ExtendedWiring, GradeDocs) == {TransformQuery, Generate}
    ensures Successors(ExtendedWiring, TransformQuery) == {Retrive}
    ensures Successors(ExtendedWiring, Generate) == {Generate, TransformQuery, End}
    ensures Successors(ExtendedWiring, End) == {}
  {
    ActiveTopology();
    assert GradeGenerationPaths["not supported"] == Generate;
    assert GradeGenerationPaths["not useful"] == TransformQuery;
    assert GradeGenerationPaths["useful"] == End;
  }

  /** No edge leads back into the entry. */
  predicate NoEdgeIntoStart(w: Wiring) {
    forall n :: Start !in Successors(w, n)
  }

  lemma WiringsHaveNoEdgeIntoStart()
    ensures NoEdgeIntoStart(ActiveWiring) && NoEdgeIntoStart(ExtendedWiring)
  {
    ActiveTopology();
    ExtendedTopology();
    forall n ensures Start !in Successors(ActiveWiring, n) && Start !in Successors(ExtendedWiring, n) {
      match n
      case Start =>
      case Retrive =>
      case GradeDocs =>
      case TransformQuery =>
      case Generate =>
      case End =>
    }
  }

  // ---------------------------------------------------------------------------
  // Any wiring
  // ---------------------------------------------------------------------------

  /** Every step of `step` moves along an edge of `w`. */
  ghost predicate FollowsWiring(step: Stepper, w: Wiring) {
    forall n, s {:trigger step(n, s)} :: step(n, s).Success? ==> step(n, s).value.0 in Successors(w, n)
  }

  /** A step moves along an edge of the wiring. */
  lemma StepFollowsEdge(g: CompiledGraph, n: Node, s: Session)
    ensures Step(g, n, s).Success? ==> Step(g, n, s).value.0 in Successors(g.wiring, n)
  {
    if Step(g, n, s).Success? {
      var s' := RunNode(g, n, s).value;
      match g.wiring[n]
      case Fixed(_) =>
      case Conditional(_, paths) =>
        var m := Step(g, n, s).value.0;
        assert m in paths.Values by {
          var route :| route in paths && paths[route] == m;
        }
    }
  }

  lemma CompiledStepFollowsWiring(g: CompiledGraph)
    ensures FollowsWiring(StepOf(g), g.wiring)
  {
    forall n, s ensures StepOf(g)(n, s).Success? ==> StepOf(g)(n, s).value.0 in Successors(g.wiring, n) {
      StepFollowsEdge(g, n, s);
    }
  }

  /** The trace of a run whose steps follow `w` is a path of `w`. */
  lemma {:induction false} TraceFollowsSteps(step: Stepper, w: Wiring, n: Node, s: Session, fuel: nat)
    requires NoEdgeIntoStart(w) && FollowsWiring(step, w)
    ensures var t := ExecWith(step, n, s, fuel).trace;
      && Start !in t && End !in t
      && (t != [] && n == Start ==> t[0] in Successors(w, Start))
      && (t != [] && n != Start ==> t[0] == n)
      && forall i :: 0 <= i < |t| - 1 ==> t[i + 1] in Successors(w, t[i])
    decreases fuel
  {
    if n != End && fuel > 0 && step(n, s).Success? {
      var next := step(n, s).value;
      var rest := ExecWith(step, next.0, next.1, fuel - 1);
      ExecUnfold(step, n, s, fuel);
      TraceFollowsSteps(step, w, next.0, next.1, fuel - 1);
      assert next.0 != Start;
    }
  }

  /** The nodes of a run are consecutive along the wiring's edges, and a run
      from the entry starts at one of the entry's successors. */
  lemma TraceFollowsWiring(g: CompiledGraph, n: Node, s: Session, fuel: nat)
    requires NoEdgeIntoStart(g.wiring)
    ensures var t := Exec(g, n, s, fuel).trace;
      && Start !in t && End !in t
      && (t != [] && n == Start ==> t[0] in Successors(g.wiring, Start))
      && (t != [] && n != Start ==> t[0] == n)
      && forall i :: 0 <= i < |t| - 1 ==> t[i + 1] in Successors(g.wiring, t[i])
  {
    CompiledStepFollowsWiring(g);
    TraceFollowsSteps(StepOf(g), g.wiring, n, s, fuel);
  }

  /** No step of `step` lowers the failure count. */
  ghost predicate KeepsFailures(step: Stepper) {
    forall n, s {:trigger step(n, s)} :: step(n, s).Success? ==> FailuresOr0(step(n, s).value.1) >= FailuresOr0(s)
  }

  /** No step lowers the failure count. */
  lemma StepKeepsFailuresMonotone(g: CompiledGraph, n: Node, s: Session)
    ensures Step(g, n, s).Success? ==> FailuresOr0(Step(g, n, s).value.1) >= FailuresOr0(s)
  {
    if Step(g, n, s).Success? && n in g.wiring && g.wiring[n].Conditional?
       && g.wiring[n].router == GradeGenerationRouter {
      var s' := RunNode(g, n, s).value;
      ChatWithPdf.GradeGenerationMonotone(s', g.parts.hallucinationGrader, g.parts.answerGrader);
    }
  }

  lemma CompiledStepKeepsFailures(g: CompiledGraph)
    ensures KeepsFailures(StepOf(g))
  {
    forall n, s ensures StepOf(g)(n, s).Success? ==> FailuresOr0(StepOf(g)(n, s).value.1) >= FailuresOr0(s) {
      StepKeepsFailuresMonotone(g, n, s);
    }
  }

  lemma {:induction false} FailuresNeverDecreaseWith(step: Stepper, n: Node, s: Session, fuel: nat)
    requires KeepsFailures(step)
    ensures var o := ExecWith(step, n, s, fuel);
      !o.Failed? ==> FailuresOr0(o.state) >= FailuresOr0(s)
    decreases fuel
  {
    if n != End && fuel > 0 && step(n, s).Success? {
      var next := step(n, s).value;
      var rest := ExecWith(step, next.0, next.1, fuel - 1);
      ExecUnfold(step, n, s, fuel);
      FailuresNeverDecreaseWith(step, next.0, next.1, fuel - 1);
    }
  }

  /** The failure count a run ends with is at least the one it started with. */
  lemma FailuresNeverDecrease(g: CompiledGraph, n: Node, s: Session, fuel: nat)
    ensures var o := Exec(g, n, s, fuel);
      !o.Failed? ==> FailuresOr0(o.state) >= FailuresOr0(s)
  {
    CompiledStepKeepsFailures(g);
    FailuresNeverDecreaseWith(StepOf(g), n, s, fuel);
  }

  // ---------------------------------------------------------------------------
  // The shipped wiring
  // ---------------------------------------------------------------------------

  /** What holds of the session whenever control reaches `n` in the shipped
      wiring: no failure was ever counted (and the key is written from
      grading on), an answer exists only at the end, passages are present
      from grading on, and generate (and the end) see a non-empty set of
      passages, each of which the relevance grader accepted for the current
      question. */
  predicate ActiveInv(g: CompiledGraph, n: Node, s: Session) {
    && FailuresOr0(s) == 0
    && (n in {GradeDocs, TransformQuery, Generate, End} ==> s.documents.Some? && s.failures.Some?)
    && (n in {Generate, End} ==> s.documents.value != [])
    && (n in {Generate, End} ==>
          forall p :: p in s.documents.value ==> ChatWithPdf.IsYes(g.parts.retrievalGrader(s.question, p.content)))
    && (n != End ==> s.generation.None?)
    && (n == End ==> s.generation == Some(g.parts.ragChain(s.documents.value, s.question)))
  }

  /** What one step from `n` may do in the shipped wiring: fail only at
      retrieve without a retriever; otherwise keep the invariant and reach
      the end exactly from generate. */
  predicate ActiveStepOK(g: CompiledGraph, n: Node, s: Session, r: Result<(Node, Session), NodeError>) {
    && (r.Failure? ==> n == Retrive && g.retriever.None? && r.error == RetrieverNotInitialized)
    && (r.Success? ==> ActiveInv(g, r.value.0, r.value.1) && (r.value.0 == End <==> n == Generate))
  }

  ghost predicate ActiveStepper(g: CompiledGraph, step: Stepper) {
    forall n, s {:trigger step(n, s)} :: ActiveInv(g, n, s) && n != End ==> ActiveStepOK(g, n, s, step(n, s))
  }

  lemma ActiveStep(g: CompiledGraph, n: Node, s: Session)
    requires g.wiring == ActiveWiring && ActiveInv(g, n, s) && n != End
    ensures ActiveStepOK(g, n, s, Step(g, n, s))
  {
    match n
    case Start =>
    case Retrive =>
    case GradeDocs =>
      var s' := RunNode(g, n, s).value;
      forall p | p in s'.documents.value
        ensures ChatWithPdf.IsYes(g.parts.retrievalGrader(s'.question, p.content))
      {
        ChatWithPdf.RelevantMembership(s.documents.value, s.question, g.parts.retrievalGrader, p);
      }
      assert "transform_query" in DecidePaths && "generate" in DecidePaths;
    case TransformQuery =>
    case Generate =>
  }

  lemma ActiveCompiledStep(g: CompiledGraph)
    requires g.wiring == ActiveWiring
    ensures ActiveStepper(g, StepOf(g))
  {
    forall n, s | ActiveInv(g, n, s) && n != End ensures ActiveStepOK(g, n, s, StepOf(g)(n, s)) {
      ActiveStep(g, n, s);
    }
  }

  /** From any point of a shipped run: only a missing retriever aborts it,
      and the invariant holds wherever the run stops. */
  lemma {:induction false} ActiveRunKeepsInv(g: CompiledGraph, step: Stepper, n: Node, s: Session, fuel: nat)
    requires ActiveStepper(g, step) && ActiveInv(g, n, s)
    ensures var o := ExecWith(step, n, s, fuel);
      && (o.Failed? ==> o.error == RetrieverNotInitialized && g.retriever.None?)
      && (o.Done? ==> ActiveInv(g, End, o.state))
      && (o.OutOfFuel? ==> o.at != End && ActiveInv(g, o.at, o.state))
    decreases fuel
  {
    if n != End && fuel > 0 {
      var st := step(n, s);
      assert ActiveStepOK(g, n, s, st);
      ExecUnfold(step, n, s, fuel);
      if st.Success? {
        var rest := ExecWith(step, st.value.0, st.value.1, fuel - 1);
        ActiveRunKeepsInv(g, step, st.value.0, st.value.1, fuel - 1);
      }
    }
  }

  /** From any point of a shipped run: a finished run has executed generate
      exactly once, as its last node; an unfinished one has not executed
      it. */
  lemma {:induction false} ActiveRunGeneratesOnce(g: CompiledGraph, step: Stepper, n: Node, s: Session, fuel: nat)
    requires ActiveStepper(g, step) && ActiveInv(g, n, s)
    ensures var o := ExecWith(step, n, s, fuel);
      && (o.Done? && n != End ==> Last(o.trace) == Some(Generate) && Count(o.trace, Generate) == 1)
      && (!o.Done? ==> Count(o.trace, Generate) == 0)
    decreases fuel
  {
    if n != End && fuel > 0 {
      var st := step(n, s);
      assert ActiveStepOK(g, n, s, st);
      ExecUnfold(step, n, s, fuel);
      if st.Success? {
        var rest := ExecWith(step, st.value.0, st.value.1, fuel - 1);
        ActiveRunGeneratesOnce(g, step, st.value.0, st.value.1, fuel - 1);
        PrefixVisit(n, rest, Generate);
      }
    }
  }

  /** The first two steps of a shipped run: the entry hands the question to
      retrieve, which aborts the run exactly when no retriever was built;
      with one, the run carries on from grade_docs. */
  lemma ActiveRunStart(g: CompiledGraph, question: string, fuel: nat)
    requires g.wiring == ActiveWiring
    ensures var o := Exec(g, Start, Initial(question), fuel);
      && (g.retriever.None? && fuel >= 2 ==> o == Failed(RetrieverNotInitialized, [Retrive]))
      && (g.retriever.Some? && fuel >= 2 ==>
            && Step(g, Retrive, Initial(question)).Success?
            && Step(g, Retrive, Initial(question)).value.0 == GradeDocs
            && o == Prefix([Retrive], Exec(g, GradeDocs, Step(g, Retrive, Initial(question)).value.1, fuel - 2)))
      && (o.Failed? ==> fuel >= 2)
  {
    var s0 := Initial(question);
    if fuel >= 1 {
      ExecUnfold(StepOf(g), Start, s0, fuel);
      assert Step(g, Start, s0) == Success((Retrive, s0));
      if fuel >= 2 {
        ExecUnfold(StepOf(g), Retrive, s0, fuel - 1);
        if g.retriever.Some? {
          var rest := Exec(g, GradeDocs, Step(g, Retrive, s0).value.1, fuel - 2);
          PrefixConcat([], [Retrive], rest);
        }
      }
    }
  }

  /** A shipped run visits retrive first, and every node follows its
      predecessor along an edge. */
  lemma ActiveRunPath(g: CompiledGraph, question: string, fuel: nat)
    requires g.wiring == ActiveWiring
    ensures var t := Exec(g, Start, Initial(question), fuel).trace;
      && (t != [] ==> t[0] == Retrive)
      && (forall i :: 0 <= i < |t| - 1 ==> t[i + 1] in Successors(ActiveWiring, t[i]))
  {
    WiringsHaveNoEdgeIntoStart();
    TraceFollowsWiring(g, Start, Initial(question), fuel);
    ActiveTopology();
  }

  /** A run of the shipped wiring with the question it is invoked with:
      - it aborts only when no retriever was built, at the first retrieve,
        returning no session;
      - it visits retrive first, and every node follows its predecessor
        along an edge;
      - when it finishes, generate ran exactly once, as the last node, on a
        non-empty set of passages that the relevance grader accepted for the
        final question, and the answer is the RAG chain's answer for the
        final passages and question;
      - the failure count stays 0 throughout. */
  lemma ActiveRun(g: CompiledGraph, question: string, fuel: nat)
    requires g.wiring == ActiveWiring
    ensures var o := Exec(g, Start, Initial(question), fuel);
      && (o.Failed? <==> g.retriever.None? && fuel >= 2)
      && (o.Failed? ==> o == Failed(RetrieverNotInitialized, [Retrive]))
      && (o.trace != [] ==> o.trace[0] == Retrive)
      && (forall i :: 0 <= i < |o.trace| - 1 ==> o.trace[i + 1] in Successors(ActiveWiring, o.trace[i]))
      && (o.Done? ==>
            && o.trace != [] && o.trace[|o.trace| - 1] == Generate
            && multiset(o.trace)[Generate] == 1
            && o.state.failures == Some(0)
            && o.state.documents.Some? && o.state.documents.value != []
            && (forall p :: p in o.state.documents.value ==>
                  ChatWithPdf.IsYes(g.parts.retrievalGrader(o.state.question, p.content)))
            && o.state.generation == Some(g.parts.ragChain(o.state.documents.value, o.state.question)))
      && (o.OutOfFuel? ==> FailuresOr0(o.state) == 0 && o.state.generation.None?)
  {
    var s0 := Initial(question);
    var o := Exec(g, Start, s0, fuel);
    ActiveCompiledStep(g);
    ActiveRunKeepsInv(g, StepOf(g), Start, s0, fuel);
    ActiveRunGeneratesOnce(g, StepOf(g), Start, s0, fuel);
    ActiveRunStart(g, question, fuel);
    ActiveRunPath(g, question, fuel);
    LastIsFinal(o.trace);
    CountIsMultiplicity(o.trace, Generate);
  }

  /** `step` never leaves the region `inside`, and the end lies outside it. */
  ghost predicate StaysInside(inside: (Node, Session) -> bool, step: Stepper) {
    forall n, s {:trigger step(n, s)} :: inside(n, s) ==>
      && step(n, s).Success?
      && step(n, s).value.0 != End
      && inside(step(n, s).value.0, step(n, s).value.1)
  }

  /** A run that never leaves such a region never finishes and never fails:
      every amount of fuel runs out. */
  lemma {:induction false} NeverEnds(inside: (Node, Session) -> bool, step: Stepper, n: Node, s: Session, fuel: nat)
    requires StaysInside(inside, step) && inside(n, s) && n != End
    ensures ExecWith(step, n, s, fuel).OutOfFuel?
    decreases fuel
  {
    if fuel > 0 {
      var next := step(n, s).value;
      var rest := ExecWith(step, next.0, next.1, fuel - 1);
      ExecUnfold(step, n, s, fuel);
      NeverEnds(inside, step, next.0, next.1, fuel - 1);
    }
  }

  /** A session from which either wiring, with a relevance grader that never
      says yes, cycles through retrieve, grading and rewriting. */
  predicate InLoop(n: Node, s: Session) {
    && n in {Start, Retrive, GradeDocs, TransformQuery}
    && (n in {GradeDocs, TransformQuery} ==> s.documents.Some?)
  }

  lemma LoopStep(g: CompiledGraph, n: Node, s: Session)
    requires (g.wiring == ActiveWiring || g.wiring == ExtendedWiring) && g.retriever.Some?
    requires forall q, c :: !ChatWithPdf.IsYes(g.parts.retrievalGrader(q, c))
    requires InLoop(n, s)
    ensures Step(g, n, s).Success? && InLoop(Step(g, n, s).value.0, Step(g, n, s).value.1)
  {
    if n == GradeDocs {
      var docs := s.documents.value;
      ChatWithPdf.RelevantEmptyIff(docs, s.question, g.parts.retrievalGrader);
      assert "transform_query" in DecidePaths;
    }
  }

  /** Neither wiring caps the retrieve / rewrite cycle (the failure count of
      the grading branch only counts rejected answers): when the relevance
      grader never says yes, no amount of fuel finishes the run. */
  lemma RewriteLoopUnbounded(g: CompiledGraph, question: string, fuel: nat)
    requires (g.wiring == ActiveWiring || g.wiring == ExtendedWiring) && g.retriever.Some?
    requires forall q, c :: !ChatWithPdf.IsYes(g.parts.retrievalGrader(q, c))
    ensures Exec(g, Start, Initial(question), fuel).OutOfFuel?
  {
    var inside := (n: Node, s: Session) => InLoop(n, s);
    forall n, s | inside(n, s)
      ensures StepOf(g)(n, s).Success? && StepOf(g)(n, s).value.0 != End
      ensures inside(StepOf(g)(n, s).value.0, StepOf(g)(n, s).value.1)
    {
      LoopStep(g, n, s);
    }
    NeverEnds(inside, StepOf(g), Start, Initial(question), fuel);
  }

  // ---------------------------------------------------------------------------
  // The wiring with the post-generation grading branch
  // ---------------------------------------------------------------------------

  /** The answer was judged grounded and responsive. */
  predicate JudgedUseful(g: CompiledGraph, s: Session) {
    && s.documents.Some? && s.generation.Some?
    && ChatWithPdf.IsYes(g.parts.hallucinationGrader(s.documents.value, s.generation.value))
    && ChatWithPdf.IsYes(g.parts.answerGrader(s.question, s.generation.value))
  }

  function UsefulFor(g: CompiledGraph): Session -> bool {
    (s: Session) => JudgedUseful(g, s)
  }

  /** What holds whenever control reaches `n` with the grading branch on: at
      most one rejected answer so far (two at the end), passages present from
      grading on and non-empty at generate, and the run ends only with the
      `answer` chain's answer for the final passages and question, which was
      judged `useful` or was rejected for the second time. */
  predicate ExtendedInv(useful: Session -> bool, answer: (seq<Passage>, string) -> string, n: Node, s: Session) {
    && 0 <= FailuresOr0(s) <= (if n == End then 2 else 1)
    && (n in {GradeDocs, TransformQuery, Generate, End} ==> s.documents.Some?)
    && (n in {Generate, End} ==> s.documents.value != [])
    && (n == End ==> s.generation == Some(answer(s.documents.value, s.question)) && (FailuresOr0(s) == 2 || useful(s)))
  }

  /** The number of times generate may still run from `n`. */
  function GenerateBudget(n: Node, s: Session): int {
    if n == End then 0 else 2 - FailuresOr0(s)
  }

  /** What one step from `n` may do with the grading branch on: fail only at
      retrieve without a retriever; otherwise keep the invariant, reach the
      end only from generate, and spend one unit of budget per generate. */
  predicate ExtendedStepOK(useful: Session -> bool, answer: (seq<Passage>, string) -> string, noRetriever: bool, n: Node, s: Session, r: Result<(Node, Session), NodeError>) {
    && (r.Failure? ==> n == Retrive && noRetriever && r.error == RetrieverNotInitialized)
    && (r.Success? ==>
          && ExtendedInv(useful, answer, r.value.0, r.value.1)
          && (r.value.0 == End ==> n == Generate)
          && GenerateBudget(r.value.0, r.value.1) + (if n == Generate then 1 else 0) <= GenerateBudget(n, s))
  }

  ghost predicate ExtendedStepper(useful: Session -> bool, answer: (seq<Passage>, string) -> string, noRetriever: bool, step: Stepper) {
    forall n, s {:trigger step(n, s)} :: ExtendedInv(useful, answer, n, s) && n != End ==> ExtendedStepOK(useful, answer, noRetriever, n, s, step(n, s))
  }

  /** Generate followed by the grading router: a useful answer ends the
      run with the count unchanged; a rejected one adds a failure and either
      stops the run (second rejection) or goes back to generate or to
      transform_query. */
  lemma ExtendedGenerateStep(g: CompiledGraph, s: Session)
    requires g.wiring == ExtendedWiring && ExtendedInv(UsefulFor(g), g.parts.ragChain, Generate, s)
    ensures Step(g, Generate, s).Success?
    ensures ExtendedStepOK(UsefulFor(g), g.parts.ragChain, g.retriever.None?, Generate, s, Step(g, Generate, s))
  {
    var s' := Merge(s, ChatWithPdf.Generate(s, g.parts.ragChain).value);
    assert RunNode(g, Generate, s) == Success(s');
    var v := ChatWithPdf.GradeGeneration(s', g.parts.hallucinationGrader, g.parts.answerGrader).value;
    var s'' := s'.(failures := Some(v.failures));
    assert v.verdict in GradeGenerationPaths;
    assert Step(g, Generate, s) == Success((GradeGenerationPaths[v.verdict], s''));
    if v.verdict == "useful" {
      assert JudgedUseful(g, s'');
    }
  }

  /** The entry, retrieve and transform_query move to their single
      successor; only a missing retriever makes one fail. */
  lemma ExtendedFixedStep(g: CompiledGraph, n: Node, s: Session)
    requires g.wiring == ExtendedWiring && ExtendedInv(UsefulFor(g), g.parts.ragChain, n, s)
    requires n == Start || n == Retrive || n == TransformQuery
    ensures ExtendedStepOK(UsefulFor(g), g.parts.ragChain, g.retriever.None?, n, s, Step(g, n, s))
  {
  }

  /** Grading the passages leads to transform_query or, with passages left,
      to generate. */
  lemma ExtendedGradeDocsStep(g: CompiledGraph, s: Session)
    requires g.wiring == ExtendedWiring && ExtendedInv(UsefulFor(g), g.parts.ragChain, GradeDocs, s)
    ensures ExtendedStepOK(UsefulFor(g), g.parts.ragChain, g.retriever.None?, GradeDocs, s, Step(g, GradeDocs, s))
  {
    var s' := Merge(s, ChatWithPdf.GradedDocuments(s, g.parts.retrievalGrader).value);
    assert s'.documents.Some? && FailuresOr0(s') == FailuresOr0(s);
    assert RunNode(g, GradeDocs, s) == Success(s');
    var route := ChatWithPdf.DecideToGenerate(s').value;
    assert route in DecidePaths;
    assert Step(g, GradeDocs, s) == Success((DecidePaths[route], s'));
  }

  lemma ExtendedStep(g: CompiledGraph, n: Node, s: Session)
    requires g.wiring == ExtendedWiring && ExtendedInv(UsefulFor(g), g.parts.ragChain, n, s) && n != End
    ensures ExtendedStepOK(UsefulFor(g), g.parts.ragChain, g.retriever.None?, n, s, Step(g, n, s))
  {
    if n == GradeDocs {
      ExtendedGradeDocsStep(g, s);
    } else if n == Generate {
      ExtendedGenerateStep(g, s);
    } else {
      ExtendedFixedStep(g, n, s);
    }
  }

  lemma ExtendedCompiledStep(g: CompiledGraph)
    requires g.wiring == ExtendedWiring
    ensures ExtendedStepper(UsefulFor(g), g.parts.ragChain, g.retriever.None?, StepOf(g))
  {
    forall n, s | ExtendedInv(UsefulFor(g), g.parts.ragChain, n, s) && n != End
      ensures ExtendedStepOK(UsefulFor(g), g.parts.ragChain, g.retriever.None?, n, s, StepOf(g)(n, s))
    {
      ExtendedStep(g, n, s);
    }
  }

  /** From any point of a run with the grading branch on: only a missing
      retriever aborts it, and the invariant holds wherever the run stops. */
  lemma {:induction false} ExtendedRunKeepsInv(useful: Session -> bool, answer: (seq<Passage>, string) -> string, noRetriever: bool, step: Stepper, n: Node, s: Session, fuel: nat)
    requires ExtendedStepper(useful, answer, noRetriever, step) && ExtendedInv(useful, answer, n, s)
    ensures var o := ExecWith(step, n, s, fuel);
      && (o.Failed? ==> o.error == RetrieverNotInitialized && noRetriever)
      && (o.Done? ==> ExtendedInv(useful, answer, End, o.state))
      && (o.OutOfFuel? ==> ExtendedInv(useful, answer, o.at, o.state))
    decreases fuel
  {
    if n != End && fuel > 0 {
      var st := step(n, s);
      assert ExtendedStepOK(useful, answer, noRetriever, n, s, st);
      ExecUnfold(step, n, s, fuel);
      if st.Success? {
        var rest := ExecWith(step, st.value.0, st.value.1, fuel - 1);
        ExtendedRunKeepsInv(useful, answer, noRetriever, step, st.value.0, st.value.1, fuel - 1);
      }
    }
  }

  /** From any point of a run with the grading branch on: generate runs no
      more often than the budget allows, and a finished run ends with it. */
  lemma {:induction false} ExtendedRunWithinBudget(useful: Session -> bool, answer: (seq<Passage>, string) -> string, noRetriever: bool, step: Stepper, n: Node, s: Session, fuel: nat)
    requires ExtendedStepper(useful, answer, noRetriever, step) && ExtendedInv(useful, answer, n, s)
    ensures var o := ExecWith(step, n, s, fuel);
      && Count(o.trace, Generate) <= GenerateBudget(n, s)
      && (o.Done? && n != End ==> Last(o.trace) == Some(Generate))
    decreases fuel
  {
    if n != End && fuel > 0 {
      var st := step(n, s);
      assert ExtendedStepOK(useful, answer, noRetriever, n, s, st);
      ExecUnfold(step, n, s, fuel);
      if st.Success? {
        var rest := ExecWith(step, st.value.0, st.value.1, fuel - 1);
        ExtendedRunWithinBudget(useful, answer, noRetriever, step, st.value.0, st.value.1, fuel - 1);
        PrefixVisit(n, rest, Generate);
      }
    }
  }

  /** A run with the grading branch on, from the question it is invoked
      with: generate runs at most twice, so the post-generation router yields at most two
      rejections; the count ends at 2 or less; and a finished run ends at
      generate with the RAG chain's answer for the final passages and
      question, either judged useful or after the second rejection stopped
      it. This bound rests on the router's write of the count being kept
      (see `ExtendedRunWithRouterCopyKeepsGenerating` for a run that exceeds
      it when the write is lost). */
  lemma ExtendedRun(g: CompiledGraph, question: string, fuel: nat)
    requires g.wiring == ExtendedWiring
    ensures var o := Exec(g, Start, Initial(question), fuel);
      && (o.Failed? ==> o.error == RetrieverNotInitialized && g.retriever.None?)
      && multiset(o.trace)[Generate] <= 2
      && (!o.Failed? ==> 0 <= FailuresOr0(o.state) <= 2)
      && (o.Done? ==>
            && o.trace != [] && o.trace[|o.trace| - 1] == Generate
            && o.state.documents.Some? && o.state.documents.value != []
            && o.state.generation == Some(g.parts.ragChain(o.state.documents.value, o.state.question))
            && (FailuresOr0(o.state) == 2 || JudgedUseful(g, o.state)))
  {
    ExtendedCompiledStep(g);
    ExtendedRunKeepsInv(UsefulFor(g), g.parts.ragChain, g.retriever.None?, StepOf(g), Start, Initial(question), fuel);
    ExtendedRunWithinBudget(UsefulFor(g), g.parts.ragChain, g.retriever.None?, StepOf(g), Start, Initial(question), fuel);
    var o := Exec(g, Start, Initial(question), fuel);
    LastIsFinal(o.trace);
    CountIsMultiplicity(o.trace, Generate);
  }

  // ---------------------------------------------------------------------------
  // The grading branch when the router's write of the count is lost
  // ---------------------------------------------------------------------------

  /** Where a run with the grading branch on stands while no failure has
      been kept: every node writes back the count it read, 0 when absent. */
  predicate CountNeverKept(n: Node, s: Session) {
    && n != End
    && FailuresOr0(s) == 0
    && (n in {GradeDocs, TransformQuery, Generate} ==> s.documents.Some?)
  }

  /** With the router handed a copy and answers that are never grounded:
      every node keeps the count at 0, so each grading computes a count of 1
      and answers "not supported" (never "stop"), back to generate. */
  lemma CopyRoutedStep(g: CompiledGraph, n: Node, s: Session)
    requires g.wiring == ExtendedWiring && g.retriever.Some?
    requires forall d, a :: !ChatWithPdf.IsYes(g.parts.hallucinationGrader(d, a))
    requires CountNeverKept(n, s)
    ensures var r := StepWithRouterCopy(g, n, s);
      && r.Success? && r.value.0 != End && CountNeverKept(r.value.0, r.value.1)
      && (n == Generate ==> r.value.0 == Generate)
  {
    match n
    case Start =>
    case Retrive =>
    case GradeDocs =>
      var s' := RunNode(g, n, s).value;
      assert "transform_query" in DecidePaths && "generate" in DecidePaths;
    case TransformQuery =>
    case Generate =>
      var s' := RunNode(g, n, s).value;
      var v := ChatWithPdf.GradeGeneration(s', g.parts.hallucinationGrader, g.parts.answerGrader).value;
      assert v.verdict == "not supported";
      assert "not supported" in GradeGenerationPaths;
  }

  /** The grading branch as the source writes it, with the router's write
      lost: when the answers are never grounded, "stop" is never reached and
      no amount of fuel finishes the run, although `ExtendedRun` bounds the
      same run to two answers when the write is kept. */
  lemma ExtendedRunWithRouterCopyUnbounded(g: CompiledGraph, question: string, fuel: nat)
    requires g.wiring == ExtendedWiring && g.retriever.Some?
    requires forall d, a :: !ChatWithPdf.IsYes(g.parts.hallucinationGrader(d, a))
    ensures ExecWith(StepWithRouterCopyOf(g), Start, Initial(question), fuel).OutOfFuel?
  {
    var inside := (n: Node, s: Session) => CountNeverKept(n, s);
    forall n, s | inside(n, s)
      ensures StepWithRouterCopyOf(g)(n, s).Success? && StepWithRouterCopyOf(g)(n, s).value.0 != End
      ensures inside(StepWithRouterCopyOf(g)(n, s).value.0, StepWithRouterCopyOf(g)(n, s).value.1)
    {
      CopyRoutedStep(g, n, s);
    }
    NeverEnds(inside, StepWithRouterCopyOf(g), Start, Initial(question), fuel);
  }

  /** From generate, with the router's write lost and answers that are never
      grounded: every step runs generate again, so each unit of fuel adds
      one generate to the trace. */
  lemma {:induction false} CopyRoutedGenerateCycle(g: CompiledGraph, s: Session, fuel: nat)
    requires g.wiring == ExtendedWiring && g.retriever.Some?
    requires forall d, a :: !ChatWithPdf.IsYes(g.parts.hallucinationGrader(d, a))
    requires CountNeverKept(Generate, s)
    ensures var o := ExecWith(StepWithRouterCopyOf(g), Generate, s, fuel);
      o.OutOfFuel? && Count(o.trace, Generate) == fuel
    decreases fuel
  {
    if fuel > 0 {
      var step := StepWithRouterCopyOf(g);
      CopyRoutedStep(g, Generate, s);
      var next := step(Generate, s).value;
      var rest := ExecWith(step, next.0, next.1, fuel - 1);
      ExecUnfold(step, Generate, s, fuel);
      CopyRoutedGenerateCycle(g, next.1, fuel - 1);
      PrefixVisit(Generate, rest, Generate);
    }
  }

  /** The facts that the first three steps of both runs below share: with a
      retriever that always finds passages and a relevance grader that
      accepts every one, the run goes START, retrive, grade_docs and then
      reaches generate with those passages and no failure kept. */
  lemma ReachesGenerate(g: CompiledGraph, step: Stepper, question: string)
    requires g.wiring == ExtendedWiring && g.retriever.Some?
    requires forall q :: g.retriever.value(q) != []
    requires forall q, c :: ChatWithPdf.IsYes(g.parts.retrievalGrader(q, c))
    requires step == StepOf(g) || step == StepWithRouterCopyOf(g)
    ensures var s0 := Initial(question);
      && step(Start, s0) == Success((Retrive, s0))
      && step(Retrive, s0).Success? && step(Retrive, s0).value.0 == GradeDocs
      && var s1 := step(Retrive, s0).value.1;
         && step(GradeDocs, s1).Success? && step(GradeDocs, s1).value.0 == Generate
         && CountNeverKept(Generate, step(GradeDocs, s1).value.1)
  {
    var s0 := Initial(question);
    var s1 := Merge(s0, ChatWithPdf.Retrieve(s0, g.retriever).value);
    assert step(Retrive, s0) == Success((GradeDocs, s1));
    var docs := s1.documents.value;
    ChatWithPdf.RelevantEmptyIff(docs, s1.question, g.parts.retrievalGrader);
    assert !ChatWithPdf.IsYes(g.parts.retrievalGrader(s1.question, docs[0].content)) ==> false;
    var s2 := Merge(s1, ChatWithPdf.GradedDocuments(s1, g.parts.retrievalGrader).value);
    assert "generate" in DecidePaths;
    assert step(GradeDocs, s1) == Success((Generate, s2));
  }

  /** The grading branch as the source writes it, with the router's write
      lost: with passages always found and accepted and answers never
      grounded, "stop" is never reached, no amount of fuel finishes the run,
      and generate runs once for each step after the first three, beyond
      `ExtendedRun`'s bound of two as soon as the fuel reaches 6. */
  lemma ExtendedRunWithRouterCopyKeepsGenerating(g: CompiledGraph, question: string, fuel: nat)
    requires g.wiring == ExtendedWiring && g.retriever.Some?
    requires forall q :: g.retriever.value(q) != []
    requires forall q, c :: ChatWithPdf.IsYes(g.parts.retrievalGrader(q, c))
    requires forall d, a :: !ChatWithPdf.IsYes(g.parts.hallucinationGrader(d, a))
    ensures var o := ExecWith(StepWithRouterCopyOf(g), Start, Initial(question), fuel);
      && o.OutOfFuel?
      && (fuel >= 3 ==> multiset(o.trace)[Generate] == fuel - 3)
  {
    var step := StepWithRouterCopyOf(g);
    var s0 := Initial(question);
    ExtendedRunWithRouterCopyUnbounded(g, question, fuel);
    if fuel >= 3 {
      ReachesGenerate(g, step, question);
      var s1 := step(Retrive, s0).value.1;
      var s2 := step(GradeDocs, s1).value.1;
      ThreeStepsToGenerate(step, s0, s1, s2, fuel);
      CopyRoutedGenerateCycle(g, s2, fuel - 3);
      TwoThenGenerates(ExecWith(step, Generate, s2, fuel - 3), fuel - 3);
    }
  }

  /** START, retrive and grade_docs lead to generate: the run from START is
      the run from generate after those two nodes. */
  lemma ThreeStepsToGenerate(step: Stepper, s0: Session, s1: Session, s2: Session, fuel: nat)
    requires fuel >= 3
    requires step(Start, s0) == Success((Retrive, s0))
    requires step(Retrive, s0) == Success((GradeDocs, s1))
    requires step(GradeDocs, s1) == Success((Generate, s2))
    ensures ExecWith(step, Start, s0, fuel) == Prefix([Retrive, GradeDocs], ExecWith(step, Generate, s2, fuel - 3))
  {
    ExecUnfold(step, Start, s0, fuel);
    ExecUnfold(step, Retrive, s0, fuel - 1);
    ExecUnfold(step, GradeDocs, s1, fuel - 2);
    var rest := ExecWith(step, Generate, s2, fuel - 3);
    PrefixConcat([Retrive], [GradeDocs], rest);
  }

  /** Putting retrive and grade_docs in front adds no generate. */
  lemma TwoThenGenerates(rest: Outcome, k: nat)
    requires Count(rest.trace, Generate) == k
    ensures multiset(Prefix([Retrive, GradeDocs], rest).trace)[Generate] == k
  {
    CountIsMultiplicity(rest.trace, Generate);
    assert multiset([Retrive, GradeDocs] + rest.trace) == multiset([Retrive, GradeDocs]) + multiset(rest.trace);
  }

  /** The same run with the router's write kept: the first rejection routes
      back to generate with a count of 1, the second answers "stop", and the
      run finishes after exactly two answers. */
  lemma ExtendedRunStopsAfterTwoAnswers(g: CompiledGraph, question: string, fuel: nat)
    requires g.wiring == ExtendedWiring && g.retriever.Some?
    requires forall q :: g.retriever.value(q) != []
    requires forall q, c :: ChatWithPdf.IsYes(g.parts.retrievalGrader(q, c))
    requires forall d, a :: !ChatWithPdf.IsYes(g.parts.hallucinationGrader(d, a))
    requires fuel >= 5
    ensures var o := Exec(g, Start, Initial(question), fuel);
      && o.Done?
      && o.trace == [Retrive, GradeDocs, Generate, Generate]
      && o.state.failures == Some(2)
  {
    var step := StepOf(g);
    var s0 := Initial(question);
    ReachesGenerate(g, step, question);
    var s1 := step(Retrive, s0).value.1;
    var s2 := step(GradeDocs, s1).value.1;
    var s3 := Merge(s2, ChatWithPdf.Generate(s2, g.parts.ragChain).value);
    var v3 := ChatWithPdf.GradeGeneration(s3, g.parts.hallucinationGrader, g.parts.answerGrader).value;
    assert v3.verdict == "not supported" && v3.failures == 1;
    assert "not supported" in GradeGenerationPaths;
    var s4 := s3.(failures := Some(1));
    assert step(Generate, s2) == Success((Generate, s4));
    var s5 := Merge(s4, ChatWithPdf.Generate(s4, g.parts.ragChain).value);
    var v5 := ChatWithPdf.GradeGeneration(s5, g.parts.hallucinationGrader, g.parts.answerGrader).value;
    assert v5.verdict == "stop" && v5.failures == 2;
    assert "stop" in GradeGenerationPaths;
    var s6 := s5.(failures := Some(2));
    assert step(Generate, s4) == Success((End, s6));
    ExecUnfold(step, Start, s0, fuel);
    ExecUnfold(step, Retrive, s0, fuel - 1);
    ExecUnfold(step, GradeDocs, s1, fuel - 2);
    ExecUnfold(step, Generate, s2, fuel - 3);
    ExecUnfold(step, Generate, s4, fuel - 4);
    assert ExecWith(step, End, s6, fuel - 5) == Done(s6, []);
  }
}
