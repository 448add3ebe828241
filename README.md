# Corrective-RAG workflow over a PDF: a verified model

This project models the question-answering workflow of a "chat with your PDF"
application: a LangGraph state machine that retrieves passages for a
question, asks a grader model which passages are relevant, rewrites the
question and retrieves again when none are, and otherwise generates an
answer from the relevant passages. A second branch exists in the source but
is commented out. It grades the answer and retries generation or rewriting.
It is meant to give up after two rejected answers, but its router keeps the
count by writing into the state it is handed, and LangGraph most likely does
not keep that write (see "## Findings"). Neither wiring caps the retrieve /
rewrite cycle.

The model has seven modules:

- `Wrappers` (`wrappers.dfy`): `Option` and `Result`.
- `PyStr` (`py_str.dfy`): the parts of Python's `str` that the yes/no parser
  `_is_yes` uses (`isspace`, `strip`, `lower`, `startswith`).
- `GraphState` (`graph_state.dfy`): the `GraphState` session record, the
  dictionary a node returns, and the runtime's merge of that dictionary into
  the session. Every key except `question` may be absent, because the graph is
  invoked with `{"question": q}` only; reading an absent key with `state[k]` is
  the `MissingKey(k)` error.
- `ChatWithPdf` (`chat_with_pdf.dfy`): the node functions `retrieve`,
  `grade_docs`, `transform_query` and `generate`, the branch
  `decide_to_generate`, and the post-generation grader
  `grade_generation_v_documents_and_question`. Every language-model chain and
  the retriever is a parameter: a total function from the chain's inputs to
  its reply.
- `Graph` (`graph_builder.dfy`): the node and edge vocabulary, the graph under
  construction (`StateGraph`, updated in place), and `Graph_builder.build`
  with its error wrapping. A flag switches on the commented-out branch.
- `Runtime` (`runtime.dfy`): how a compiled graph runs.
  - Each step runs the node, merges its update and follows the node's edge or
    router.
  - A run is a function bounded by `fuel`, because the shipped wiring has no
    cap on its retrieve/rewrite cycle.
  - An imperative driver loop is proved equal to that function.
  - A second step function hands the post-generation router a copy of the
    session, so that the router's write of the count is lost.
- `RunProperties` (`run_properties.dfy`): properties of whole runs under both
  wirings.

`grade_docs` builds its result by appending inside a loop, so it is a method
(`ChatWithPdf.GradeDocs`). That method is proved equal to the function
`ChatWithPdf.GradedDocuments`, which the runtime uses. The post-generation
grader writes the failure count into the dictionary it is handed. It is
modelled twice:
- as the method `ChatWithPdf.GradeGenerationVDocumentsAndQuestion`, which
  takes a `GraphState.StateDict` object (the dictionary) and updates its
  `record` field in place;
- as the pure function `ChatWithPdf.GradeGeneration`, to which the method is
  proved equal.

## Model

| member | source | states |
|---|---|---|
| PyStr.LStripSpec | src/Nodes/chat_with_pdf.py:147 | stripping on the left removes exactly the longest prefix of Python whitespace: the rest is a suffix of the input, and it is empty or starts with a non-blank character |
| PyStr.RStripSpec | src/Nodes/chat_with_pdf.py:147 | stripping on the right removes exactly the longest all-blank suffix: the rest is a prefix of the input, and it is empty or ends with a non-blank character |
| PyStr.LowerSpec | src/Nodes/chat_with_pdf.py:147 | lower-casing keeps the length and maps every character |
| ChatWithPdf.IsYesIff | src/Nodes/chat_with_pdf.py:146-147 | a reply counts as "yes" if and only if its first three characters after the leading blanks are y, e, s in either letter case |
| ChatWithPdf.AffirmativeReplies | src/Nodes/chat_with_pdf.py:146-147 | "yes", "  Yes, it is relevant." and "\nYES" count as yes |
| ChatWithPdf.NegativeReplies | src/Nodes/chat_with_pdf.py:146-147 | the empty reply and "no" count as no |
| ChatWithPdf.LateYesIsNegative | src/Nodes/chat_with_pdf.py:146-147 | a "yes" that does not open the reply ("Maybe yes") counts as no |
| ChatWithPdf.Retrieve | src/Nodes/chat_with_pdf.py:105-124 | fails with "retriever not initialized" exactly when there is no retriever; otherwise the merged session has the retriever's passages for the current question and the failure count (0 when absent), and everything else is unchanged |
| ChatWithPdf.Generate | src/Nodes/chat_with_pdf.py:127-142 | fails with a missing-key error exactly when `documents` is absent; otherwise only `generation` changes, to the RAG chain's answer for (documents, question), and the failure count is written (0 when absent) |
| ChatWithPdf.TransformQuery | src/Nodes/chat_with_pdf.py:178-194 | fails with a missing-key error exactly when `documents` is absent; otherwise only `question` changes, to the rewriter's output, and the failure count is written (0 when absent) |
| ChatWithPdf.RelevantIsSubsequence | src/Nodes/chat_with_pdf.py:165-176 | the kept passages are a subsequence of the retrieved ones: same relative order, nothing added |
| ChatWithPdf.RelevantCount | src/Nodes/chat_with_pdf.py:165-176 | each passage is kept as often as it was retrieved when the relevance grader says yes to it, and not at all otherwise |
| ChatWithPdf.RelevantMembership | src/Nodes/chat_with_pdf.py:165-176 | a passage is kept if and only if it was retrieved and the relevance grader's reply for it is yes |
| ChatWithPdf.RelevantEmptyIff | src/Nodes/chat_with_pdf.py:165-176 | nothing is kept if and only if every reply is no |
| ChatWithPdf.GradedDocuments | src/Nodes/chat_with_pdf.py:150-176 | fails with a missing-key error exactly when `documents` is absent; otherwise only `documents` changes, to the relevant passages, and the failure count is written (0 when absent) |
| ChatWithPdf.GradeDocs | src/Nodes/chat_with_pdf.py:160-176 | the appending loop returns exactly what `GradedDocuments` specifies |
| ChatWithPdf.DecideToGenerate | src/Nodes/chat_with_pdf.py:198-223 | fails with a missing-key error exactly when `documents` is absent; otherwise answers "transform_query" if and only if no passage is left, and "generate" if and only if some passage is left |
| ChatWithPdf.GradeGeneration | src/Nodes/chat_with_pdf.py:233-279 | fails when `documents` is absent, else when `generation` is absent, naming the first missing key. A grounded and responsive answer is "useful" and keeps the count; any other answer raises the count by exactly one. After that increment the verdict is "stop" if and only if the count reached 2, else "not supported" (ungrounded) or "not useful" (grounded but not an answer) |
| ChatWithPdf.AnswerGraderOnlyWhenGrounded | src/Nodes/chat_with_pdf.py:256-261 | when the hallucination grader says no, the answer grader cannot affect the outcome |
| ChatWithPdf.GradeGenerationMonotone | src/Nodes/chat_with_pdf.py:253-279 | the count written back never decreases and rises by at most one |
| ChatWithPdf.TwoUngroundedAnswersStop | src/Nodes/chat_with_pdf.py:273-279 | from no failures, an ungrounded answer gives "not supported" with count 1, and a second ungrounded answer gives "stop" with count 2 |
| ChatWithPdf.GradeGenerationVDocumentsAndQuestion | src/Nodes/chat_with_pdf.py:233-279 | the in-place router returns `GradeGeneration`'s verdict, writes its count into the dictionary it was handed, and leaves that dictionary alone on a missing key |
| Graph.StateGraph.constructor | src/graph/graph_builder.py:22 | a new graph has no nodes and no edges |
| Graph.StateGraph.AddNode | src/graph/graph_builder.py:35-38 | registers one node and leaves the edges alone |
| Graph.StateGraph.AddEdge | src/graph/graph_builder.py:40-41 | sets the node's outgoing edge to a fixed successor and leaves everything else alone |
| Graph.StateGraph.AddConditionalEdges | src/graph/graph_builder.py:42-48 | sets the node's outgoing edge to a router with its path map and leaves everything else alone |
| Graph.GraphBuilder.constructor | src/graph/graph_builder.py:14-15 | keeps the PDF path; no graph yet |
| Graph.GraphBuilder.Build | src/graph/graph_builder.py:16-67 | a failing retriever build is reported as such, with no graph created. A failing component init is reported after an empty graph was created. Otherwise the result has the wiring (shipped or extended), the built retriever and the components, and the graph holds the four nodes |
| Runtime.RunStep | src/graph/graph_builder.py:35-61 | one runtime step, with the looping `GradeDocs` and the in-place router, equals the specification `Step` |
| Runtime.RunAdvance | src/main.py:161 | a driver at a node either stops there (end, or out of fuel) or takes one step and continues with the rest of the run |
| Runtime.Run | src/main.py:161 | the driver loop's outcome equals the run function `Exec` from the entry with `{"question": q}` |
| Runtime.RouterCopyOnlyLosesFailures | src/Nodes/chat_with_pdf.py:264-276 | handing the router a copy of the session changes only the failure count the next node sees: the same steps fail with the same error, the same node comes next, and steps without the post-generation router are identical |
| RunProperties.ActiveTopology | src/graph/graph_builder.py:40-61 | shipped successors: START to retrive, retrive to grade_docs, grade_docs to {transform_query, generate}, transform_query to retrive, generate to END |
| RunProperties.ExtendedTopology | src/graph/graph_builder.py:50-59 | with the branch on, generate leads to {generate, transform_query, END}; the other edges are as shipped |
| RunProperties.WiringsHaveNoEdgeIntoStart | src/graph/graph_builder.py:40-61 | no edge of either wiring leads back into START |
| RunProperties.StepFollowsEdge | src/graph/graph_builder.py:40-61 | every successful step moves along an edge of the wiring |
| RunProperties.TraceFollowsWiring | src/graph/graph_builder.py:40-61 | the nodes a run executes are consecutive along the edges; START and END never appear; a run from START begins at START's successor |
| RunProperties.StepKeepsFailuresMonotone | src/Nodes/chat_with_pdf.py:253-279 | no step lowers the failure count |
| RunProperties.FailuresNeverDecrease | src/Nodes/chat_with_pdf.py:253-279 | the count a run ends with is at least the count it started with |
| RunProperties.ActiveStep | src/graph/graph_builder.py:40-61 | in the shipped wiring a step fails only at retrive without a retriever, keeps the run invariant, and reaches END exactly from generate |
| RunProperties.ActiveRunKeepsInv | src/graph/graph_builder.py:40-61 | the invariant holds wherever a shipped run stops, and only a missing retriever aborts it |
| RunProperties.ActiveRunGeneratesOnce | src/graph/graph_builder.py:61 | a finished shipped run has executed generate exactly once, as its last node; an unfinished one, out of fuel or aborted, has not executed it |
| RunProperties.ActiveRunStart | src/graph/graph_builder.py:40 | the entry hands the question to retrive, which aborts the run exactly when no retriever was built; with a retriever the run goes on from grade_docs |
| RunProperties.ActiveRunPath | src/graph/graph_builder.py:40-49 | a shipped run executes retrive first, and each node follows its predecessor along an edge |
| RunProperties.ActiveRun | src/graph/graph_builder.py:40-61 | a shipped run aborts if and only if there is no retriever (and it got that far). A finished run ran generate once, last, on a non-empty set of passages, each of which the relevance grader accepted for the final question, and its answer is the RAG chain's for the final passages and question. The failure count stays 0 |
| RunProperties.LoopStep | src/graph/graph_builder.py:40-49 | in either wiring, with a relevance grader that never says yes, each step stays inside retrive, grade_docs and transform_query |
| RunProperties.NeverEnds | src/graph/graph_builder.py:40-61 | a run whose steps never leave a region without END neither finishes nor fails: every fuel runs out |
| RunProperties.RewriteLoopUnbounded | src/graph/graph_builder.py:40-49 | in either wiring, with such a grader, no fuel is enough for a run to finish: the retrieve / rewrite cycle has no cap, with or without the grading branch |
| RunProperties.ExtendedGenerateStep | src/Nodes/chat_with_pdf.py:249-279 | with the branch on, generate followed by the router keeps the invariant and uses up one unit of the generate budget |
| RunProperties.ExtendedRunKeepsInv | src/graph/graph_builder.py:50-59 | with the branch on, the invariant holds wherever the run stops, and only a missing retriever aborts it |
| RunProperties.ExtendedRunWithinBudget | src/graph/graph_builder.py:50-59 | with the branch on, generate runs no more often than the budget (2 minus the count) allows, and a finished run ends with it |
| RunProperties.ExtendedRun | src/graph/graph_builder.py:50-59 | with the branch on, generate runs at most twice and the count ends at 2 or less. A finished run ends at generate with a non-empty set of passages, and its answer is the RAG chain's for the final passages and question and was judged useful or rejected for the second time |
| RunProperties.CopyRoutedStep | src/Nodes/chat_with_pdf.py:253-279 | with the branch on, the router handed a copy and answers that are never grounded: each node keeps the count at 0, and generate is always followed by "not supported" and generate again, never by "stop" |
| RunProperties.ExtendedRunWithRouterCopyUnbounded | src/Nodes/chat_with_pdf.py:264-276 | with the branch on and the router's write lost, answers that are never grounded make every fuel run out: "stop" never ends the run |
| RunProperties.CopyRoutedGenerateCycle | src/Nodes/chat_with_pdf.py:264-276 | with the router's write lost and answers never grounded, a run standing at generate runs generate once for every unit of fuel |
| RunProperties.ReachesGenerate | src/graph/graph_builder.py:40-49 | with a retriever that always finds passages and a relevance grader that accepts every one, a run goes from START through retrive and grade_docs to generate, with no failure kept |
| RunProperties.ExtendedRunWithRouterCopyKeepsGenerating | src/Nodes/chat_with_pdf.py:253-279 | with the router's write lost, passages always found and accepted, and answers never grounded, the run never finishes and runs generate `fuel - 3` times, more than two as soon as the fuel reaches 6 |
| RunProperties.ExtendedRunStopsAfterTwoAnswers | src/Nodes/chat_with_pdf.py:253-279 | the same run with the router's write kept finishes after retrive, grade_docs and two generates, with the count at 2 |

## Left out

- The prompt texts and the LangChain/Ollama chains built by `init_components` (src/Nodes/chat_with_pdf.py:7-102). The chains and the retriever are parameters, total functions from their inputs to their reply. An exception raised by a chain or by `retriever.invoke` (an unreachable Ollama server, say) is therefore not modelled, and `RunProperties.ActiveRun`'s "aborts if and only if there is no retriever" holds only under that assumption. `init_components` itself is a parameter of `Build` that either yields the five chains or fails.
- Printed progress messages in every node: they do not affect behaviour.
- Building the retriever: the indexing code of src/tools/PDF_tool.py is not modelled. Indexing is a parameter of `Build` that yields a retriever, no retriever, or an error. The source's `build_pdf_retriver` either raises or returns a retriever (src/tools/PDF_tool.py:15-54), so after a successful build the "retriever not initialized" branch of `retrieve` (src/Nodes/chat_with_pdf.py:117-118) cannot be taken; the model keeps that defensive check, and the abort cases of the run lemmas describe it.
- The voice interface (src/voice/voice_input.py) and the Streamlit interface (src/main.py): they are not part of this model.
- The pydantic classes `GradeDocuments`, `HallucinationCheck` and `GradeAnswer` in src/state/graph_State.py: the workflow does not use them.
- LangGraph's own behaviour beyond running one node at a time and following its edge:
  - The model does not validate the graph on compile. A compile failure (src/graph/graph_builder.py:64-67) is therefore never produced.
  - The model has no recursion limit. A run is bounded by `fuel` instead, and `OutOfFuel` reports that the bound was reached. `graph.invoke` at src/main.py:161 passes no configuration, so `fuel` stands for LangGraph's default recursion limit.
  - The model does not run several outgoing edges of one node in parallel.
- RunProperties.ExtendedRun: its bound of two answers holds only if the router's in-place write of `failures` (src/Nodes/chat_with_pdf.py:264, 269, 276) reaches the session later nodes see, which is what `Runtime.Step` does. LangGraph hands a conditional edge a fresh read of the state, so the write is most likely lost; `Runtime.StepWithRouterCopy` models that, and under it `RunProperties.ExtendedRunWithRouterCopyKeepsGenerating` shows a run that exceeds the bound (see "## Findings").
- Graph.GraphBuilder.Build: with the branch switched on, the post-generation router replaces the edge from generate to END. Uncommenting src/graph/graph_builder.py:50-59 alone would leave line 61's edge in place as well. LangGraph would then follow both, which this model does not represent.
- PyStr.LowerChar: maps only the ASCII capitals. No other character's lower-case form starts with y, e or s, so `_is_yes` gives the same answers. Non-ASCII case mapping is still not modelled.
- A missing `question` key is not modelled, because every run starts with a question. `generation` and `documents` hold text and passages, never Python's `None`.
- The `documents` annotation `List[str]` in src/state/graph_State.py:16 disagrees with the code, which stores retriever documents and reads their `page_content`. The model follows the code: a passage carries its text.

## Findings

| source | as written | input that shows it | evidently intended | confidence | as-written member | corrected member |
|---|---|---|---|---|---|---|
| src/Nodes/chat_with_pdf.py:253-279 | the post-generation router keeps the failure count by assigning `state["failures"]` inside the conditional-edge function; LangGraph hands that function a copy of the state, and every node writes back `state.get("failures", 0)` (lines 122, 141, 163, 190), so the count seen by the next grading is 0 again | the grading branch switched on, a retriever that always returns passages, a relevance grader that accepts every passage, and a hallucination grader that always answers "no": each grading computes a count of 1 and answers "not supported", so generate repeats until the recursion limit | after two rejected answers the router answers "stop" and the run ends, so generate runs at most twice | medium; not executed, and it depends on LangGraph's handling of a router's writes, which is not part of this model | RunProperties.ExtendedRunWithRouterCopyKeepsGenerating | RunProperties.ExtendedRun |
