/** The workflow graph: its nodes, the edges `Graph_builder.build` wires
    between them, and the build itself with its error wrapping. */
module Graph {
  import opened Wrappers
  import ChatWithPdf

  /** The graph's entry and exit and its four nodes. `Retrive` keeps the
      name the node is registered under ("retrive"). */
  datatype Node = Start | Retrive | GradeDocs | TransformQuery | Generate | End

  /** The two routing functions a conditional edge can consult. */
  datatype Router = DecideToGenerateRouter | GradeGenerationRouter

  /** Where control goes after a node: one fixed successor (`add_edge`), or
      the node a router's returned label maps to (`add_conditional_edges`). */
  datatype Target = Fixed(to: Node) | Conditional(router: Router, paths: map<string, Node>)

  /** The outgoing edge of each node that has one. */
  type Wiring = map<Node, Target>

  /** The path map of the branch after grading. */
  const DecidePaths: map<string, Node> :=
    map["transform_query" := TransformQuery, "generate" := Generate]

  /** The path map of the post-generation branch (present in the source
      but switched off). */
  const GradeGenerationPaths: map<string, Node> :=
    map["not supported" := Generate, "useful" := End, "not useful" := TransformQuery, "stop" := End]

  /** The wiring as shipped: generate leads straight to the end. */
  const ActiveWiring: Wiring := map[
    Start := Fixed(Retrive),
    Retrive := Fixed(GradeDocs),
    GradeDocs := Conditional(DecideToGenerateRouter, DecidePaths),
    TransformQuery := Fixed(Retrive),
    Generate := Fixed(End)]

  /** The wiring with the post-generation grading branch switched on in
      place of the direct edge from generate to the end. */
  const ExtendedWiring: Wiring :=
    ActiveWiring[Generate := Conditional(GradeGenerationRouter, GradeGenerationPaths)]

  function WiringFor(withGradeGeneration: bool): Wiring {
    if withGradeGeneration then ExtendedWiring else ActiveWiring
  }

  /** The nodes control may pass to from `n`. */
  function Successors(w: Wiring, n: Node): set<Node> {
    if n !in w then {}
    else match w[n]
      case Fixed(to) => {to}
      case Conditional(_, paths) => paths.Values
  }

  /** The graph under construction (`StateGraph`): its registered nodes and
      the edges added so far. */
  class StateGraph {
    var nodes: set<Node>
    var wiring: Wiring

    constructor ()
      ensures nodes == {} && wiring == map[]
    {
      nodes := {};
      wiring := map[];
    }

    method AddNode(n: Node)
      modifies this
      ensures nodes == old(nodes) + {n} && wiring == old(wiring)
    {
      nodes := nodes + {n};
    }

    method AddEdge(from: Node, to: Node)
      modifies this
      ensures nodes == old(nodes) && wiring == old(wiring)[from := Fixed(to)]
    {
      wiring := wiring[from := Fixed(to)];
    }

    method AddConditionalEdges(from: Node, router: Router, paths: map<string, Node>)
      modifies this
      ensures nodes == old(nodes) && wiring == old(wiring)[from := Conditional(router, paths)]
    {
      wiring := wiring[from := Conditional(router, paths)];
    }
  }

  /** A compiled graph: its wiring and the collaborators its nodes call. */
  datatype CompiledGraph = CompiledGraph(wiring: Wiring, retriever: Option<ChatWithPdf.Retriever>, parts: ChatWithPdf.Components)

  /** `build` turns every failure of its collaborators into a `RuntimeError`
      that names the step; no graph is returned. */
  datatype BuildError = RetrieverBuildFailed(cause: string) | InitComponentsFailed(cause: string)

  /** `Graph_builder`: holds the PDF's path and, once `Build` has got that
      far, the graph it wires. */
  class GraphBuilder {
    const pdfPath: string
    var graph: StateGraph?

    constructor (pdfPath: string)
      ensures this.pdfPath == pdfPath && graph == null
    {
      this.pdfPath := pdfPath;
      graph := null;
    }

    /** `build`: indexes the PDF, creates the graph, builds the chains, then
        registers the four nodes and wires them. `buildPdfRetriever` and
        `initComponents` stand for the indexing step and `init_components`;
        `withGradeGeneration` switches on the post-generation branch, which
        the source ships switched off. */
    method Build(
      buildPdfRetriever: string -> Result<Option<ChatWithPdf.Retriever>, string>,
      initComponents: Result<ChatWithPdf.Components, string>,
      withGradeGeneration: bool) returns (r: Result<CompiledGraph, BuildError>)
      modifies this
      ensures buildPdfRetriever(pdfPath).Failure? ==>
        r == Failure(RetrieverBuildFailed(buildPdfRetriever(pdfPath).error)) && graph == old(graph)
      ensures buildPdfRetriever(pdfPath).Success? ==> graph != null && fresh(graph)
      ensures buildPdfRetriever(pdfPath).Success? && initComponents.Failure? ==>
        r == Failure(InitComponentsFailed(initComponents.error))
        && graph.nodes == {} && graph.wiring == map[]
      ensures buildPdfRetriever(pdfPath).Success? && initComponents.Success? ==>
        && r.Success?
        && r.value.wiring == WiringFor(withGradeGeneration)
        && r.value.retriever == buildPdfRetriever(pdfPath).value
        && r.value.parts == initComponents.value
        && graph.nodes == {Retrive, GradeDocs, TransformQuery, Generate}
        && graph.wiring == r.value.wiring
    {
      var built := buildPdfRetriever(pdfPath);
      if built.Failure? {
        return Failure(RetrieverBuildFailed(built.error));
      }
      var retriever := built.value;
      var g := new StateGraph();
      graph := g;
      if initComponents.Failure? {
        return Failure(InitComponentsFailed(initComponents.error));
      }
      var parts := initComponents.value;

      g.AddNode(Retrive);
      g.AddNode(GradeDocs);
      g.AddNode(TransformQuery);
      g.AddNode(Generate);

      g.AddEdge(Start, Retrive);
      g.AddEdge(Retrive, GradeDocs);
      g.AddConditionalEdges(GradeDocs, DecideToGenerateRouter, DecidePaths);
      g.AddEdge(TransformQuery, Retrive);
      if withGradeGeneration {
        g.AddConditionalEdges(Generate, GradeGenerationRouter, GradeGenerationPaths);
      } else {
        g.AddEdge(Generate, End);
      }
      r := Success(CompiledGraph(g.wiring, retriever, parts));
    }
  }
}
