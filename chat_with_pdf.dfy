/** The workflow's node functions and decision rules: retrieval, per-passage
    relevance grading, query rewriting, answer generation, the branch after
    grading, and the post-generation grade with its failure counter.

    Every language-model chain and the retriever are parameters: a total
    function from the chain's inputs to its text reply. */
module ChatWithPdf {
  import opened Wrappers
  import opened GraphState
  import PyStr

  /** The vector-store retriever: question to ranked passages. */
  type Retriever = string -> seq<Passage>

  /** The five chains `init_components` returns, in its order. */
  datatype Components = Components(
    retrievalGrader: (string, string) -> string,          // (question, document) to "yes"/"no"
    ragChain: (seq<Passage>, string) -> string,           // (context, question) to answer
    hallucinationGrader: (seq<Passage>, string) -> string, // (facts, generation) to "yes"/"no"
    answerGrader: (string, string) -> string,             // (question, generation) to "yes"/"no"
    questionRewriter: string -> string)                   // question to rewritten question

  // ---------------------------------------------------------------------------
  // The yes/no parser for free-text grader replies
  // ---------------------------------------------------------------------------

  /** `_is_yes`: the reply, stripped and lower-cased, starts with "yes". */
  predicate IsYes(text: string) {
    PyStr.StartsWith(PyStr.Lower(PyStr.Strip(text)), "yes")
  }

  /** `t` begins with y, e, s in either letter case. */
  predicate YesPrefix(t: string) {
    |t| >= 3
    && PyStr.LowerChar(t[0]) == 'y'
    && PyStr.LowerChar(t[1]) == 'e'
    && PyStr.LowerChar(t[2]) == 's'
  }

  /** The reply's first three non-blank characters, from index `k`, are
      y, e, s in either letter case. */
  predicate YesAt(text: string, k: int) {
    0 <= k <= |text| && PyStr.AllSpace(text[..k]) && YesPrefix(text[k..])
  }

  lemma LowerStartsWithYes(t: string)
    ensures PyStr.StartsWith(PyStr.Lower(t), "yes") <==> YesPrefix(t)
  {
    var low := PyStr.Lower(t);
    PyStr.LowerSpec(t);
    if |t| >= 3 {
      assert low[..3] == [low[0], low[1], low[2]];
    }
  }

  /** Dropping trailing blanks cannot create or destroy a "yes" prefix. */
  lemma RStripKeepsYesPrefix(l: string)
    ensures YesPrefix(PyStr.RStrip(l)) <==> YesPrefix(l)
  {
    PyStr.RStripSpec(l);
  }

  /** Dropping leading blanks leaves a "yes" prefix exactly when one follows
      the blanks. */
  lemma LStripYesPrefix(text: string)
    ensures YesPrefix(PyStr.LStrip(text)) <==> exists k :: YesAt(text, k)
  {
    var l := PyStr.LStrip(text);
    PyStr.LStripSpec(text);
    var k0 := |text| - |l|;
    if YesPrefix(l) {
      assert YesAt(text, k0);
    }
    if k :| YesAt(text, k) {
      assert !PyStr.IsSpace(text[k]);
    }
  }

  /** An affirmative reply is exactly one whose text after leading blanks
      begins with "yes" in any letter case; empty, blank and other replies
      are negative. */
  lemma IsYesIff(text: string)
    ensures IsYes(text) <==> exists k :: YesAt(text, k)
  {
    LowerStartsWithYes(PyStr.Strip(text));
    RStripKeepsYesPrefix(PyStr.LStrip(text));
    LStripYesPrefix(text);
  }

  lemma AffirmativeReplies()
    ensures IsYes("yes") && IsYes("  Yes, it is relevant.") && IsYes("\nYES")
  {
    assert YesAt("yes", 0);
    assert YesAt("  Yes, it is relevant.", 2);
    assert YesAt("\nYES", 1);
    IsYesIff("yes");
    IsYesIff("  Yes, it is relevant.");
    IsYesIff("\nYES");
  }

  lemma NegativeReplies()
    ensures !IsYes("") && !IsYes("no")
  {
    IsYesIff("");
    IsYesIff("no");
  }

  /** "yes" counts only at the start of the reply. */
  lemma LateYesIsNegative()
    ensures !IsYes("Maybe yes")
  {
    var maybe := "Maybe yes";
    IsYesIff(maybe);
    forall k | 0 < k <= |maybe| ensures !PyStr.AllSpace(maybe[..k]) {
      assert maybe[..k][0] == 'M';
    }
  }

  // ---------------------------------------------------------------------------
  // Nodes
  // ---------------------------------------------------------------------------

  /** `retrieve`: replaces `documents` with the retriever's passages for the
      current question and writes `failures` (0 when absent); fails when no
      retriever was built. */
  function Retrieve(s: Session, retriever: Option<Retriever>): (r: Result<Update, NodeError>)
    ensures r.Failure? <==> retriever.None?
    ensures r.Failure? ==> r.error == RetrieverNotInitialized
    ensures r.Success? ==>
      Merge(s, r.value) == s.(documents := Some(retriever.value(s.question)),
                              failures := Some(FailuresOr0(s)))
  {
    var question := s.question;
    if retriever.None? then Failure(RetrieverNotInitialized)
    else
      var docs := retriever.value(question);
      var failures := FailuresOr0(s);
      Success(Update(Some(question), None, Some(docs), Some(failures)))
  }

  /** `generate`: sets `generation` to the RAG chain's answer over the
      current passages and question; everything else is kept. */
  function Generate(s: Session, ragChain: (seq<Passage>, string) -> string): (r: Result<Update, NodeError>)
    ensures r.Failure? <==> s.documents.None?
    ensures r.Failure? ==> r.error == MissingKey("documents")
    ensures r.Success? ==>
      Merge(s, r.value) == s.(generation := Some(ragChain(s.documents.value, s.question)),
                              failures := Some(FailuresOr0(s)))
  {
    var question := s.question;
    if s.documents.None? then Failure(MissingKey("documents"))
    else
      var docs := s.documents.value;
      var generation := ragChain(docs, question);
      Success(Update(Some(question), Some(generation), Some(docs), Some(FailuresOr0(s))))
  }

  /** `transform_query`: replaces `question` with the rewriter's output;
      `documents` and `generation` are kept. */
  function TransformQuery(s: Session, questionRewriter: string -> string): (r: Result<Update, NodeError>)
    ensures r.Failure? <==> s.documents.None?
    ensures r.Failure? ==> r.error == MissingKey("documents")
    ensures r.Success? ==>
      Merge(s, r.value) == s.(question := questionRewriter(s.question),
                              failures := Some(FailuresOr0(s)))
  {
    if s.documents.None? then Failure(MissingKey("documents"))
    else
      var documents := s.documents.value;
      var newQuestion := questionRewriter(s.question);
      Success(Update(Some(newQuestion), None, Some(documents), Some(FailuresOr0(s))))
  }

  // ---------------------------------------------------------------------------
  // Relevance grading
  // ---------------------------------------------------------------------------

  /** The passages, in their original order, whose relevance reply is
      affirmative. */
  function Relevant(docs: seq<Passage>, question: string, grader: (string, string) -> string): seq<Passage>
    decreases |docs|
  {
    if docs == [] then []
    else
      var kept := Relevant(docs[..|docs| - 1], question, grader);
      var last := docs[|docs| - 1];
      if IsYes(grader(question, last.content)) then kept + [last] else kept
  }

  /** `xs` is `ys` with some elements left out and the rest in order. */
  predicate IsSubsequence<T(==)>(xs: seq<T>, ys: seq<T>)
    decreases |ys|
  {
    if xs == [] then true
    else if ys == [] then false
    else (xs[|xs| - 1] == ys[|ys| - 1] && IsSubsequence(xs[..|xs| - 1], ys[..|ys| - 1]))
         || IsSubsequence(xs, ys[..|ys| - 1])
  }

  /** Grading only drops passages: the kept ones keep their relative order. */
  lemma {:induction false} RelevantIsSubsequence(docs: seq<Passage>, question: string, grader: (string, string) -> string)
    ensures IsSubsequence(Relevant(docs, question, grader), docs)
    decreases |docs|
  {
    if docs != [] {
      var init := docs[..|docs| - 1];
      RelevantIsSubsequence(init, question, grader);
      var kept := Relevant(init, question, grader);
      var last := docs[|docs| - 1];
      if IsYes(grader(question, last.content)) {
        var r := kept + [last];
        assert r[..|r| - 1] == kept;
      } else if kept != [] {
        assert docs[..|docs| - 1] == init;
      }
    }
  }

  /** Each passage is kept with all its occurrences when its reply is
      affirmative and dropped entirely otherwise; nothing is added. */
  lemma {:induction false} RelevantCount(docs: seq<Passage>, question: string, grader: (string, string) -> string, p: Passage)
    ensures multiset(Relevant(docs, question, grader))[p]
            == if IsYes(grader(question, p.content)) then multiset(docs)[p] else 0
    decreases |docs|
  {
    if docs != [] {
      var init := docs[..|docs| - 1];
      RelevantCount(init, question, grader, p);
      assert docs == init + [docs[|docs| - 1]];
    }
  }

  /** A passage survives grading iff it was retrieved and its reply is "yes". */
  lemma RelevantMembership(docs: seq<Passage>, question: string, grader: (string, string) -> string, p: Passage)
    ensures p in Relevant(docs, question, grader) <==> p in docs && IsYes(grader(question, p.content))
  {
    RelevantCount(docs, question, grader, p);
  }

  /** Grading leaves nothing exactly when every reply is negative. */
  lemma RelevantEmptyIff(docs: seq<Passage>, question: string, grader: (string, string) -> string)
    ensures Relevant(docs, question, grader) == []
            <==> forall p :: p in docs ==> !IsYes(grader(question, p.content))
  {
    var r := Relevant(docs, question, grader);
    forall p ensures p in r <==> p in docs && IsYes(grader(question, p.content)) {
      RelevantMembership(docs, question, grader, p);
    }
    if r != [] {
      assert r[0] in r;
    }
  }

  /** What `grade_docs` returns: `documents` narrowed to the relevant
      passages, `question` kept, `failures` written (0 when absent). */
  function GradedDocuments(s: Session, grader: (string, string) -> string): (r: Result<Update, NodeError>)
    ensures r.Failure? <==> s.documents.None?
    ensures r.Failure? ==> r.error == MissingKey("documents")
    ensures r.Success? ==>
      var kept := Relevant(s.documents.value, s.question, grader);
      Merge(s, r.value) == s.(documents := Some(kept), failures := Some(FailuresOr0(s)))
  {
    if s.documents.None? then Failure(MissingKey("documents"))
    else
      var kept := Relevant(s.documents.value, s.question, grader);
      Success(Update(Some(s.question), None, Some(kept), Some(FailuresOr0(s))))
  }

  /** `grade_docs`: asks the relevance grader about each passage in turn and
      appends the affirmed ones to the filtered list. */
  method GradeDocs(s: Session, retrievalGrader: (string, string) -> string) returns (r: Result<Update, NodeError>)
    ensures r == GradedDocuments(s, retrievalGrader)
  {
    var question := s.question;
    if s.documents.None? {
      return Failure(MissingKey("documents"));
    }
    var docs := s.documents.value;
    var failures := FailuresOr0(s);
    var filtered: seq<Passage> := [];
    for i := 0 to |docs|
      invariant filtered == Relevant(docs[..i], question, retrievalGrader)
    {
      var score := retrievalGrader(question, docs[i].content);
      assert docs[..i + 1][..i] == docs[..i];
      if IsYes(score) {
        filtered := filtered + [docs[i]];
      }
    }
    assert docs[..|docs|] == docs;
    r := Success(Update(Some(question), None, Some(filtered), Some(failures)));
  }

  // ---------------------------------------------------------------------------
  // The branch after grading
  // ---------------------------------------------------------------------------

  /** `decide_to_generate`: "transform_query" when no passage survived
      grading, "generate" otherwise; there is no third answer. */
  function DecideToGenerate(s: Session): (r: Result<string, NodeError>)
    ensures r.Failure? <==> s.documents.None?
    ensures r.Failure? ==> r.error == MissingKey("documents")
    ensures r.Success? ==> (r.value == "transform_query" <==> s.documents.value == [])
    ensures r.Success? ==> (r.value == "generate" <==> s.documents.value != [])
  {
    if s.documents.None? then Failure(MissingKey("documents"))
    else if s.documents.value == [] then Success("transform_query")
    else Success("generate")
  }

  // ---------------------------------------------------------------------------
  // Grading the generation (the router of the extended wiring)
  // ---------------------------------------------------------------------------

  /** A router's verdict and the failure count it writes back. */
  datatype Grading = Grading(verdict: string, failures: int)

  /** The number of rejected generations at which the router gives up. */
  const StopThreshold: int := 2

  /** `grade_generation_v_documents_and_question`: an answer that is grounded
      and addresses the question is "useful" and leaves the count alone;
      any other answer adds exactly one failure, and gives "stop" once the
      count reaches the threshold, else "not supported" (ungrounded) or
      "not useful" (grounded, but not an answer). */
  function GradeGeneration(
    s: Session,
    hallucinationGrader: (seq<Passage>, string) -> string,
    answerGrader: (string, string) -> string): (r: Result<Grading, NodeError>)
    ensures r.Failure? <==> s.documents.None? || s.generation.None?
    ensures r.Failure? ==> r.error == MissingKey(if s.documents.None? then "documents" else "generation")
    ensures r.Success? ==>
      var grounded := IsYes(hallucinationGrader(s.documents.value, s.generation.value));
      var useful := grounded && IsYes(answerGrader(s.question, s.generation.value));
      var failures := FailuresOr0(s) + (if useful then 0 else 1);
      && r.value.failures == failures
      && (r.value.verdict == "useful" <==> useful)
      && (r.value.verdict == "stop" <==> !useful && failures >= StopThreshold)
      && (r.value.verdict == "not supported" <==> !grounded && failures < StopThreshold)
      && (r.value.verdict == "not useful" <==> grounded && !useful && failures < StopThreshold)
  {
    var question := s.question;
    if s.documents.None? then Failure(MissingKey("documents"))
    else if s.generation.None? then Failure(MissingKey("generation"))
    else
      var documents := s.documents.value;
      var generation := s.generation.value;
      var failures := FailuresOr0(s);
      if IsYes(hallucinationGrader(documents, generation)) then
        if IsYes(answerGrader(question, generation)) then
          Success(Grading("useful", failures))
        else if failures + 1 >= StopThreshold then Success(Grading("stop", failures + 1))
        else Success(Grading("not useful", failures + 1))
      else if failures + 1 >= StopThreshold then Success(Grading("stop", failures + 1))
      else Success(Grading("not supported", failures + 1))
  }

  /** The answer grader is consulted only after the hallucination grader said
      yes: when it said no, the answer grader cannot change the outcome. */
  lemma AnswerGraderOnlyWhenGrounded(
    s: Session,
    hallucinationGrader: (seq<Passage>, string) -> string,
    answerGrader1: (string, string) -> string,
    answerGrader2: (string, string) -> string)
    requires s.documents.Some? && s.generation.Some?
    requires !IsYes(hallucinationGrader(s.documents.value, s.generation.value))
    ensures GradeGeneration(s, hallucinationGrader, answerGrader1)
         == GradeGeneration(s, hallucinationGrader, answerGrader2)
  {
  }

  /** The count never goes down, and rises by at most one per grading. */
  lemma GradeGenerationMonotone(
    s: Session,
    hallucinationGrader: (seq<Passage>, string) -> string,
    answerGrader: (string, string) -> string)
    ensures var r := GradeGeneration(s, hallucinationGrader, answerGrader);
      r.Success? ==> FailuresOr0(s) <= r.value.failures <= FailuresOr0(s) + 1
  {
  }

  /** Two ungrounded answers in a row, starting from no failures: the first
      is sent back for another attempt, the second stops the run. */
  lemma TwoUngroundedAnswersStop(
    s: Session,
    hallucinationGrader: (seq<Passage>, string) -> string,
    answerGrader: (string, string) -> string)
    requires s.documents.Some? && s.generation.Some? && FailuresOr0(s) == 0
    requires !IsYes(hallucinationGrader(s.documents.value, s.generation.value))
    ensures GradeGeneration(s, hallucinationGrader, answerGrader) == Success(Grading("not supported", 1))
    ensures GradeGeneration(s.(failures := Some(1)), hallucinationGrader, answerGrader)
         == Success(Grading("stop", 2))
  {
  }

  /** `grade_generation_v_documents_and_question` as the source runs it: it
      writes the new count into the dictionary it was handed and returns the
      verdict. */
  method GradeGenerationVDocumentsAndQuestion(
    state: StateDict,
    hallucinationGrader: (seq<Passage>, string) -> string,
    answerGrader: (string, string) -> string) returns (r: Result<string, NodeError>)
    modifies state
    ensures match GradeGeneration(old(state.record), hallucinationGrader, answerGrader)
      case Failure(e) => r == Failure(e) && state.record == old(state.record)
      case Success(g) => r == Success(g.verdict) && state.record == old(state.record).(failures := Some(g.failures))
  {
    var question := state.record.question;
    if state.record.documents.None? {
      return Failure(MissingKey("documents"));
    }
    var documents := state.record.documents.value;
    if state.record.generation.None? {
      return Failure(MissingKey("generation"));
    }
    var generation := state.record.generation.value;
    var score := hallucinationGrader(documents, generation);
    var grade := IsYes(score);
    var failures := FailuresOr0(state.record);
    if grade {
      score := answerGrader(question, generation);
      grade := IsYes(score);
      if grade {
        state.record := state.record.(failures := Some(failures));
        return Success("useful");
      } else {
        failures := failures + 1;
        state.record := state.record.(failures := Some(failures));
        if failures >= StopThreshold {
          return Success("stop");
        }
        return Success("not useful");
      }
    } else {
      failures := failures + 1;
      state.record := state.record.(failures := Some(failures));
      if failures >= StopThreshold {
        return Success("stop");
      }
      return Success("not supported");
    }
  }
}
