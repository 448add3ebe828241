/** The session record that the workflow threads through its nodes (the
    `GraphState` typed dictionary), the per-key updates a node returns, and
    the runtime's rule for merging an update into the record. */
module GraphState {
  import opened Wrappers

  /** A retrieved chunk of the indexed PDF; only its text is used. */
  datatype Passage = Passage(content: string)

  /** The graph is invoked with only `question` set, so every other key may
      be absent: `None` stands for a key the dictionary does not hold. */
  datatype Session = Session(
    question: string,
    generation: Option<string>,
    documents: Option<seq<Passage>>,
    failures: Option<int>)

  /** The record a run starts from: `{"question": question}`. */
  function Initial(question: string): Session {
    Session(question, None, None, None)
  }

  /** `state.get("failures", 0)` */
  function FailuresOr0(s: Session): int {
    s.failures.GetOr(0)
  }

  /** The dictionary a node returns: the keys it sets, `None` for the rest. */
  datatype Update = Update(
    question: Option<string>,
    generation: Option<string>,
    documents: Option<seq<Passage>>,
    failures: Option<int>)

  /** The runtime writes every key the node returned and keeps the others. */
  function Merge(s: Session, u: Update): Session {
    Session(
      u.question.GetOr(s.question),
      if u.generation.Some? then u.generation else s.generation,
      if u.documents.Some? then u.documents else s.documents,
      if u.failures.Some? then u.failures else s.failures)
  }

  /** The ways a node or a routing step can fail: the retriever was never
      built, a key the node reads is absent (`KeyError`), a router returned a
      label its path map lacks, or a node has no outgoing edge. */
  datatype NodeError =
    | RetrieverNotInitialized
    | MissingKey(key: string)
    | UnknownRoute(route: string)
    | NoEdge

  /** The live dictionary handed to a router, which may write into it. */
  class StateDict {
    var record: Session

    constructor (s: Session)
      ensures record == s
    {
      record := s;
    }
  }
}
