/** The two-step retrieval-augmented generation flow (app/rag_graph.py):
    retrieve documents for the question, build one prompt from them, ask the
    chat model, and record its reply.

    The similarity search and the chat model are not modelled: they are
    given to the flow as functions (`Services`). */
module RagGraph {
  import opened Wrappers
  import opened Strings
  import opened RagStore

  /** `RAGState`: the question, and the fields the nodes add to it. A field
      no node has written yet is absent. */
  datatype RagState = RagState(question: string, contextDocs: Option<seq<Document>>, answer: Option<string>)

  /** The state a chat turn starts from: `{"question": question}`. */
  function InitialState(question: string): (s: RagState)
    ensures s.question == question && s.contextDocs.None? && s.answer.None?
  {
    RagState(question, None, None)
  }

  /** The one-field dictionary a node returns. */
  datatype Update = ContextDocsUpdate(docs: seq<Document>) | AnswerUpdate(answer: string)

  /** How the graph folds a node's update into the state: the named field is
      overwritten, every other field is kept. */
  function Merge(s: RagState, u: Update): (t: RagState)
    ensures t.question == s.question
    ensures u.ContextDocsUpdate? ==> t.contextDocs == Some(u.docs) && t.answer == s.answer
    ensures u.AnswerUpdate? ==> t.answer == Some(u.answer) && t.contextDocs == s.contextDocs
  {
    match u
    case ContextDocsUpdate(docs) => s.(contextDocs := Some(docs))
    case AnswerUpdate(answer) => s.(answer := Some(answer))
  }

  /** What the flow calls out to: the vector store's similarity ranking of
      its documents for a question, and the chat model's reply `content` for
      a prompt. */
  datatype Services = Services(ranking: string -> seq<Document>, chat: string -> string)

  /** `retrieve_node`: fetches documents for the question with the retriever
      built once with the default `k`, and returns them as its only field. */
  function RetrieveNode(s: RagState, svc: Services): (u: Update)
    ensures u.ContextDocsUpdate?
    ensures var ranked := svc.ranking(s.question);
      && |u.docs| == (if |ranked| < 5 then |ranked| else 5)
      && u.docs <= ranked
  {
    ContextDocsUpdate(RetrieveTopK(GetRetriever(), svc.ranking(s.question)))
  }

  // ---------- The prompt ----------

  /** The fixed instruction that opens every prompt. */
  const SystemPrompt: string :=
    "You are a helpful company assistant. Use ONLY the provided documents to answer.\n"
    + "If the answer is not clearly present, say you don't know and suggest where "
    + "the user might find it.\n\n"

  /** The fixed instruction that closes every prompt. */
  const ClosingInstruction: string :=
    "Answer in a clear, concise way. If relevant, mention which document you used."

  const QuestionLabel: string := "User question: "

  /** `d.metadata.get('source', 'unknown')`. */
  function SourceOf(d: Document): (r: string)
    ensures "source" in d.metadata ==> r == d.metadata["source"]
    ensures r == "unknown" <==> "source" !in d.metadata || d.metadata["source"] == "unknown"
  {
    if "source" in d.metadata then d.metadata["source"] else "unknown"
  }

  /** The text for the document at 0-based position `i`: a header naming its
      1-based position and its source, then its page text. */
  function Block(i: nat, d: Document): (r: string)
    ensures |r| > |d.pageContent| + 5
    ensures r[..5] == "[Doc " && r[|r| - |d.pageContent|..] == d.pageContent
  {
    var header := "[Doc " + Decimal(i + 1) + " - " + SourceOf(d) + "]\n";
    assert (header + d.pageContent)[..5] == header[..5];
    assert (header + d.pageContent)[|header|..] == d.pageContent;
    header + d.pageContent
  }

  /** One block per retrieved document, in retrieval order. */
  function Blocks(docs: seq<Document>): (r: seq<string>)
    ensures |r| == |docs|
  {
    seq(|docs|, i requires 0 <= i < |docs| => Block(i, docs[i]))
  }

  /** `context_text`: the blocks joined by blank lines. It is empty
      exactly when there are no documents, because every block has a
      header; one document gives its block alone. */
  function ContextText(docs: seq<Document>): (r: string)
    ensures r == "" <==> |docs| == 0
    ensures |docs| == 1 ==> r == Block(0, docs[0])
  {
    if |docs| > 0 then
      JoinLength("\n\n", Blocks(docs));
      Join("\n\n", Blocks(docs))
    else Join("\n\n", Blocks(docs))
  }

  /** The prompt `generate_node` sends to the chat model: it always opens
      with the fixed system text and closes with the fixed instruction. */
  function Prompt(question: string, docs: seq<Document>): (p: string)
    ensures |p| > |SystemPrompt| + |ClosingInstruction|
    ensures p[..|SystemPrompt|] == SystemPrompt
    ensures p[|p| - |ClosingInstruction|..] == ClosingInstruction
  {
    EightPieces(SystemPrompt, "Context:\n", ContextText(docs), "\n\n",
      QuestionLabel, question, "\n\n", ClosingInstruction);
    SystemPrompt + "Context:\n" + ContextText(docs) + "\n\n"
    + QuestionLabel + question + "\n\n"
    + ClosingInstruction
  }

  /** `generate_node`: prompts the chat model with the question and the
      retrieved documents (none when the field is absent) and returns its
      raw reply as the only field. */
  function GenerateNode(s: RagState, svc: Services): (u: Update)
    ensures u.AnswerUpdate?
    ensures s.contextDocs.None? ==> u.answer == svc.chat(Prompt(s.question, []))
    ensures s.contextDocs.Some? ==> u.answer == svc.chat(Prompt(s.question, s.contextDocs.value))
  {
    var docs := s.contextDocs.GetOr([]);
    AnswerUpdate(svc.chat(Prompt(s.question, docs)))
  }

  // ---------- Facts about the context and the prompt ----------

  /** One more document adds a blank line and its block, numbered after
      all earlier ones, at the end of the context. */
  lemma ContextSnoc(docs: seq<Document>, d: Document)
    requires |docs| > 0
    ensures ContextText(docs + [d]) == ContextText(docs) + "\n\n" + Block(|docs|, d)
  {
    assert Blocks(docs + [d]) == Blocks(docs) + [Block(|docs|, d)];
    JoinSnoc("\n\n", Blocks(docs), Block(|docs|, d));
  }

  /** No documents give an empty context; one document gives its block
      alone, numbered 1, with no separator. */
  lemma ContextFewDocuments(d: Document)
    ensures ContextText([]) == ""
    ensures ContextText([d]) == "[Doc 1 - " + SourceOf(d) + "]\n" + d.pageContent
  {
    assert Blocks([d]) == [Block(0, d)];
    assert Decimal(1) == "1";
  }

  /** n documents give n blocks and n - 1 two-character separators. */
  lemma ContextLength(docs: seq<Document>)
    requires |docs| > 0
    ensures |ContextText(docs)| == SumLengths(Blocks(docs)) + 2 * (|docs| - 1)
  {
    JoinLength("\n\n", Blocks(docs));
  }

  /** Block i opens with a header whose number reads back as i + 1 and
      whose label is the document's source, or "unknown" without one; the
      page text follows the header unchanged. */
  lemma BlockHeader(docs: seq<Document>, i: nat)
    requires i < |docs|
    ensures var n := Decimal(i + 1);
      && Blocks(docs)[i] == "[Doc " + n + " - " + SourceOf(docs[i]) + "]\n" + docs[i].pageContent
      && DecimalValue(n) == i + 1
      && (forall j :: 0 <= j < |n| ==> IsDigit(n[j]))
    ensures "source" in docs[i].metadata ==> SourceOf(docs[i]) == docs[i].metadata["source"]
    ensures "source" !in docs[i].metadata ==> SourceOf(docs[i]) == "unknown"
  {
    DecimalRoundTrip(i + 1);
  }

  /** Different positions carry different header numbers. */
  lemma HeadersDistinct(docs: seq<Document>, i: nat, j: nat)
    requires i < j < |docs|
    ensures Decimal(i + 1) != Decimal(j + 1)
  {
    if Decimal(i + 1) == Decimal(j + 1) {
      DecimalInjective(i + 1, j + 1);
    }
  }

  /** Where the question starts in the prompt of `docs`. */
  function QuestionStart(docs: seq<Document>): nat
  {
    |SystemPrompt| + |"Context:\n"| + |ContextText(docs)| + 2 + |QuestionLabel|
  }

  /** The prompt opens with the system text and then the context heading,
      holds the context right after that, has the question verbatim right
      after "User question: ", and closes with the fixed instruction. */
  lemma PromptShape(question: string, docs: seq<Document>)
    ensures var p := Prompt(question, docs);
      var c := |SystemPrompt| + |"Context:\n"|;
      var q := QuestionStart(docs);
      && |p| == q + |question| + 2 + |ClosingInstruction|
      && p[..|SystemPrompt|] == SystemPrompt
      && p[|SystemPrompt|..c] == "Context:\n"
      && p[c..c + |ContextText(docs)|] == ContextText(docs)
      && p[c + |ContextText(docs)|..c + |ContextText(docs)| + 2] == "\n\n"
      && p[q - |QuestionLabel|..q] == QuestionLabel
      && p[q..q + |question|] == question
      && p[q + |question|..q + |question| + 2] == "\n\n"
      && p[|p| - |ClosingInstruction|..] == ClosingInstruction
  {
    EightPieces(SystemPrompt, "Context:\n", ContextText(docs), "\n\n",
      QuestionLabel, question, "\n\n", ClosingInstruction);
  }

  /** Where each of eight concatenated pieces sits in the result. */
  lemma EightPieces(s1: string, s2: string, s3: string, s4: string,
                    s5: string, s6: string, s7: string, s8: string)
    ensures var p := s1 + s2 + s3 + s4 + s5 + s6 + s7 + s8;
      var o2 := |s1|;
      var o3 := o2 + |s2|;
      var o4 := o3 + |s3|;
      var o5 := o4 + |s4|;
      var o6 := o5 + |s5|;
      var o7 := o6 + |s6|;
      var o8 := o7 + |s7|;
      && |p| == o8 + |s8|
      && p[..o2] == s1 && p[o2..o3] == s2 && p[o3..o4] == s3 && p[o4..o5] == s4
      && p[o5..o6] == s5 && p[o6..o7] == s6 && p[o7..o8] == s7 && p[o8..] == s8
  {
    var p7 := s1 + s2 + s3 + s4 + s5 + s6 + s7;
    var p := p7 + s8;
    PrefixPieces(p, p7, s8);
    PrefixPieces(p, s1 + s2 + s3 + s4 + s5 + s6, s7);
    PrefixPieces(p, s1 + s2 + s3 + s4 + s5, s6);
    PrefixPieces(p, s1 + s2 + s3 + s4, s5);
    PrefixPieces(p, s1 + s2 + s3, s4);
    PrefixPieces(p, s1 + s2, s3);
    PrefixPieces(p, s1, s2);
  }

  /** When `v + w` begins `p`, so does `v`, and `w` follows it. */
  lemma PrefixPieces(p: string, v: string, w: string)
    requires |v| + |w| <= |p| && p[..|v| + |w|] == v + w
    ensures p[..|v|] == v && p[|v|..|v| + |w|] == w
    ensures |v| + |w| == |p| ==> p[|v|..] == w
  {
    assert p[..|v|] == p[..|v| + |w|][..|v|];
    assert p[|v|..|v| + |w|] == p[..|v| + |w|][|v|..];
  }

  /** The question is inserted verbatim: the prompt for a given list of
      documents determines the question. */
  lemma PromptDeterminesQuestion(q1: string, q2: string, docs: seq<Document>)
    requires Prompt(q1, docs) == Prompt(q2, docs)
    ensures q1 == q2
  {
    PromptShape(q1, docs);
    PromptShape(q2, docs);
  }

  /** With no documents the context heading is followed directly by the
      blank line before the question. */
  lemma PromptWithoutDocuments(question: string)
    ensures Prompt(question, []) ==
      SystemPrompt + "Context:\n\n\nUser question: " + question + "\n\n" + ClosingInstruction
  {
    assert ContextText([]) == "";
  }

  /** A chunk ingested from a file is labelled with the file's name in the
      header of any prompt that includes it. */
  lemma IngestedChunksNameTheirFile(chunker: Chunker, text: string, path: FilePath, i: nat, j: nat)
    requires i < |SplitTextToDocs(chunker, text, path.name)|
    ensures var d := SplitTextToDocs(chunker, text, path.name)[i];
      Block(j, d) == "[Doc " + Decimal(j + 1) + " - " + path.name + "]\n" + chunker(TextSplitter(), text)[i]
  {
    var docs := SplitTextToDocs(chunker, text, path.name);
    assert PageContents(docs)[i] == docs[i].pageContent;
  }

  // ---------- The graph ----------

  /** The graph's nodes; `End` is langgraph's END. */
  datatype Node = Retrieve | Generate | End

  /** A compiled graph: its entry point and its edges, in the order added. */
  datatype Graph = Graph(entry: Node, edges: seq<(Node, Node)>)

  /** `build_rag_graph`: entry at retrieve, then retrieve to generate, then
      generate to END. */
  function BuildRagGraph(): (g: Graph)
    ensures g.entry == Retrieve
    ensures Successors(g, Retrieve) == {Generate}
    ensures Successors(g, Generate) == {End}
    ensures Successors(g, End) == {}
  {
    var g := Graph(Retrieve, [(Retrieve, Generate), (Generate, End)]);
    assert g.edges[0] in g.edges && g.edges[1] in g.edges;
    g
  }

  /** The nodes an edge leads to from `n`. */
  function Successors(g: Graph, n: Node): set<Node>
  {
    set e | e in g.edges && e.0 == n :: e.1
  }

  /** The node the first edge out of `n` leads to, if any. */
  function Next(g: Graph, n: Node): (r: Option<Node>)
    ensures r.Some? ==> r.value in Successors(g, n)
    ensures r.None? ==> Successors(g, n) == {}
    decreases |g.edges|
  {
    if |g.edges| == 0 then None
    else if g.edges[0].0 == n then Some(g.edges[0].1)
    else
      var r := Next(Graph(g.entry, g.edges[1..]), n);
      assert forall e :: e in g.edges[1..] ==> e in g.edges;
      assert forall e :: e in g.edges && e.0 == n ==> e in g.edges[1..] by {
        forall e | e in g.edges && e.0 == n ensures e in g.edges[1..] {
          var k :| 0 <= k < |g.edges| && g.edges[k] == e;
          assert k != 0;
          assert g.edges[1..][k - 1] == e;
        }
      }
      r
  }

  /** The nodes visited from `n`, following one edge per step for at most
      `fuel` steps. */
  function PathFrom(g: Graph, n: Node, fuel: nat): (r: seq<Node>)
    ensures 0 < |r| <= fuel + 1 && r[0] == n
    ensures forall i :: 0 <= i < |r| - 1 ==> r[i + 1] in Successors(g, r[i])
    ensures |r| <= fuel ==> Successors(g, r[|r| - 1]) == {}
    decreases fuel
  {
    if fuel == 0 then [n]
    else match Next(g, n)
      case None => [n]
      case Some(m) => [n] + PathFrom(g, m, fuel - 1)
  }

  /** The flow is linear: from the entry the run visits retrieve, then
      generate, then END, each once. */
  lemma RagGraphIsLinear()
    ensures var g := BuildRagGraph();
      PathFrom(g, g.entry, |g.edges|) == [Retrieve, Generate, End]
  {
    var g := BuildRagGraph();
    assert Next(g, Retrieve) == Some(Generate);
    assert Next(g, Generate) == Some(End);
    assert PathFrom(g, End, 0) == [End];
  }

  /** Runs one node on the state and merges its update: retrieve sets only
      the documents for the state's question, generate sets only the answer
      from the prompt for the state's documents, END changes nothing. */
  function RunNode(n: Node, s: RagState, svc: Services): (t: RagState)
    ensures t.question == s.question
    ensures n == End ==> t == s
    ensures n == Retrieve ==>
      t.answer == s.answer && t.contextDocs == Some(RetrieveTopK(GetRetriever(), svc.ranking(s.question)))
    ensures n == Generate ==>
      t.contextDocs == s.contextDocs && t.answer == Some(svc.chat(Prompt(s.question, s.contextDocs.GetOr([]))))
  {
    match n
    case Retrieve => Merge(s, RetrieveNode(s, svc))
    case Generate => Merge(s, GenerateNode(s, svc))
    case End => s
  }

  /** Runs the nodes of a path in order. No node changes the question; a
      path without retrieve keeps the documents, one without generate keeps
      the answer. */
  function RunPath(path: seq<Node>, s: RagState, svc: Services): (t: RagState)
    ensures t.question == s.question
    ensures Retrieve !in path ==> t.contextDocs == s.contextDocs
    ensures Generate !in path ==> t.answer == s.answer
  {
    if |path| == 0 then s else RunPath(path[1..], RunNode(path[0], s, svc), svc)
  }

  /** `rag_graph.invoke({"question": question})`: the final state. It keeps
      the question, holds the documents retrieved for that same question,
      and holds the chat model's raw reply to the prompt built from exactly
      those documents. */
  function Invoke(question: string, svc: Services): (s: RagState)
    ensures s.question == question
    ensures var docs := RetrieveTopK(GetRetriever(), svc.ranking(question));
      && s.contextDocs == Some(docs)
      && s.answer == Some(svc.chat(Prompt(question, docs)))
  {
    var g := BuildRagGraph();
    RagGraphIsLinear();
    var path := PathFrom(g, g.entry, |g.edges|);
    var s0 := InitialState(question);
    var s1 := RunNode(Retrieve, s0, svc);
    var s2 := RunNode(Generate, s1, svc);
    assert path[0] == Retrieve && path[1..] == [Generate, End];
    assert RunPath([End], s2, svc) == s2 by { assert [End][1..] == []; }
    assert RunPath([Generate, End], s1, svc) == s2 by { assert [Generate, End][1..] == [End]; }
    assert RunPath(path, s0, svc) == s2;
    RunPath(path, s0, svc)
  }
}
