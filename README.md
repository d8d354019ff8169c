# A verified model of the company RAG bot's core

The company RAG bot answers questions about uploaded company documents. An
uploaded PDF, text or Word file becomes plain text. The text is split into
chunks tagged with the file's name, and the chunks go into a Chroma vector
store. A chat turn runs a two-node graph: `retrieve` fetches the chunks most
similar to the question, and `generate` builds one prompt from them and
records the chat model's reply.

This project models the two pieces of logic the repository writes itself:

- `RagStore` (`rag_store.dfy`, from `app/rag_store.py`). It covers the
  file-type dispatch on the lower-cased suffix, with the `ValueError` for
  other suffixes. It covers the PDF page fold, a method with a loop, and the
  Word paragraph join. It covers the tagging of chunks with their source, and
  `ingest_file` over a `VectorStore` class that holds the store's records,
  its persisted records and the number of clients opened over it. It also
  covers the top-k retriever.
- `RagGraph` (`rag_graph.dfy`, from `app/rag_graph.py`). It covers the state
  record, the two nodes and their one-field updates, the exact prompt string,
  and the fixed entry → retrieve → generate → END flow.

Two helper modules support them. `Strings` (`strings.dfy`) gives the Python
string operations the core uses: `join`, concatenation, `lower` and
`str(int)`, plus the `rfind` that pathlib's suffix rule is built on. Each comes with a partner: splitting inverts joining, and parsing
a numeral inverts printing it. `Wrappers` (`wrappers.dfy`) gives `Option` and
`Result`.

The libraries are inputs, not code:

- `FileView` holds what PdfReader, python-docx and `read_text` report for a
  file.
- `Chunker` is the text splitter, a function of its settings and the text.
- `Services` holds the similarity ranking of the store for a question and the
  chat model's reply `content` for a prompt.

Ingesting the same file twice appends its chunks twice. `IngestFile`'s
contract shows this, since every call appends. The model does not deduplicate,
and neither does the source.

## Model

| member | source | states |
|---|---|---|
| `Strings.Lower` | app/rag_store.py:72 | `str.lower` keeps the length and maps each character on its own (ASCII letters to lower case) |
| `Strings.Join` | app/rag_graph.py:35 | `sep.join` of no parts is "", and the joined text opens with the first part |
| `Strings.JoinLength` | app/rag_graph.py:35-38 | n joined parts carry exactly n − 1 separators: the length is the parts' lengths plus one separator per gap |
| `Strings.JoinSplit` | app/rag_store.py:67 | splitting at a character and joining with it again gives back the text |
| `Strings.SplitJoin` | app/rag_store.py:67 | if no part contains the separator, splitting the joined text gives back exactly the parts |
| `Strings.Decimal` | app/rag_graph.py:36 | the `{i+1}` numeral is non-empty, all decimal digits, and starts with 0 only for zero |
| `Strings.DecimalRoundTrip` | app/rag_graph.py:36 | the numeral `str(n)` in a header reads back as n |
| `RagStore.Suffix` | app/rag_store.py:72 | pathlib's suffix is empty or a dot followed by non-dots, ends the name, is shorter than the name, and is empty only when no dot past the first character is followed by dot-free text |
| `RagStore.SuffixLower` | app/rag_store.py:72 | taking the suffix commutes with lower-casing |
| `RagStore.LoaderFor` | app/rag_store.py:73-80 | a lower-cased suffix is accepted iff it is in {.pdf, .txt, .docx, .doc}: `.pdf` selects the PDF loader, `.txt` the text loader, `.docx` and `.doc` the Word loader; any other suffix, the empty one included, fails with `ValueError("Unsupported file type: " + suffix)` |
| `RagStore.SelectLoader` | app/rag_store.py:72-80 | a file name gets a loader iff its lower-cased suffix is one of the four supported ones; otherwise the error is `ValueError("Unsupported file type: " + suffix)` |
| `RagStore.SelectLoaderIgnoresCase` | app/rag_store.py:72-80 | a file name and its lower-cased form dispatch identically |
| `RagStore.UpperCasePdfIsPdf` | app/rag_store.py:72-74 | "X.PDF" and "x.pdf" both select the PDF loader |
| `RagStore.NoSuffixIsRejected` | app/rag_store.py:79-80 | a name without a suffix, and a name whose only dot is its first character, fail with the empty suffix in the message |
| `RagStore.PageText` | app/rag_store.py:57 | a page contributes its extracted text unchanged, and contributes "" exactly when it has no text layer or its text is empty |
| `RagStore.PdfText` | app/rag_store.py:55-58 | the PDF text is exactly as long as the page texts together, a missing page text counting as "": nothing is inserted between pages |
| `RagStore.LoadPdf` | app/rag_store.py:53-58 | the loop's accumulator ends as the in-order fold of the page texts, a missing page text counting as "" |
| `RagStore.PdfTextAppend` | app/rag_store.py:56-57 | the PDF text of two page runs is the concatenation of their texts |
| `RagStore.PdfTextIsConcat` | app/rag_store.py:55-58 | the PDF text is the plain concatenation of the page texts, with no separators; zero pages give "" |
| `RagStore.MissingPageContributesNothing` | app/rag_store.py:57 | a page whose extraction yields None changes nothing |
| `RagStore.LoadDocx` | app/rag_store.py:65-67 | zero paragraphs give ""; n paragraphs give their lengths plus n − 1 newlines |
| `RagStore.DocxParagraphsRecoverable` | app/rag_store.py:67 | paragraphs without line breaks are recovered exactly by splitting the text at newlines |
| `RagStore.LoadTxt` | app/rag_store.py:61-62 | `load_txt` yields the decoded contents unchanged, or the reading error as a library error |
| `RagStore.LoaderText` | app/rag_store.py:53-67 | a loader fails only with the exception its parsing library raised, filed as a library error and never as the core's own unsupported-type `ValueError` |
| `RagStore.LoadFileToText` | app/rag_store.py:70-80 | the call fails with the core's own `ValueError` iff the lower-cased suffix is unsupported, with the message naming that suffix; any other failure is a parser's exception |
| `RagStore.LoadFileToTextDispatch` | app/rag_store.py:70-80 | `.pdf` gives the page fold, `.txt` the decoded text, `.docx`/`.doc` the paragraph join, each or its parser's exception, and lower-casing the name changes nothing |
| `RagStore.DocGoesToWordParser` | app/rag_store.py:77-78 | a `.doc` name passes the suffix check and goes to python-docx; when that library cannot open the file, the result is the library's exception, not a `ValueError` |
| `RagStore.TextSplitter` | app/rag_store.py:85-89 | the splitter is set to chunk size 800 and overlap 150, with length in characters; the overlap is below the chunk size, as the library demands |
| `RagStore.SplitTextToDocs` | app/rag_store.py:83-94 | one document per splitter chunk, in order, with that chunk as its text and metadata exactly `{"source": source}` |
| `RagStore.VectorStore.constructor` | app/rag_store.py:41-48 | a store opened from disk holds what was persisted there, with no clients opened yet |
| `RagStore.VectorStore.Open` | app/rag_store.py:41-48 | `get_vectorstore` opens one more client over the index and changes no records |
| `RagStore.VectorStore.AddDocuments` | app/rag_store.py:105 | `add_documents` appends the documents to the records and keeps the persisted records a prefix |
| `RagStore.VectorStore.Persist` | app/rag_store.py:106 | `persist` makes the persisted records equal to the records |
| `RagStore.IngestFile` | app/rag_store.py:97-107 | an unsupported file or a parser failure gives the loader's error and leaves the store untouched; otherwise the store opens one client, gains exactly the file's chunks tagged with the file name (not the path), persists them, and the result is their count |
| `RagStore.IngestCountIsChunkCount` | app/rag_store.py:102-107 | the returned count equals the number of chunks the splitter made of the file's text |
| `RagStore.GetRetriever` | app/rag_store.py:110-112 | the retriever built for k hands on exactly min(k, available) documents of any ranking |
| `RagStore.RetrieveTopK` | app/rag_store.py:110-112 | the retriever returns the first min(k, available) documents of the similarity ranking, in ranking order |
| `RagStore.DefaultRetrieverTopFive` | app/rag_store.py:110 | with the default k the retriever returns at most 5 documents: all of them when there are at most 5, else the first 5 |
| `RagGraph.InitialState` | app/api.py:58 | the graph starts from a state holding only the question: no documents and no answer |
| `RagGraph.Merge` | app/rag_graph.py:12-15 | merging a node's update overwrites only the named state field; the question never changes |
| `RagGraph.RetrieveNode` | app/rag_graph.py:23-27 | `retrieve_node` returns only `context_docs`: the first min(5, available) documents ranked for the state's own question, in ranking order |
| `RagGraph.SourceOf` | app/rag_graph.py:36 | a block names the document's `source` metadata when it has one, and reads "unknown" exactly when it has none or its source is "unknown" |
| `RagGraph.Block` | app/rag_graph.py:36 | a block opens with "[Doc " and ends with the document's page text, which it holds verbatim after a non-empty header |
| `RagGraph.ContextText` | app/rag_graph.py:35-38 | the context is empty exactly when there are no documents; one document gives its block alone |
| `RagGraph.Prompt` | app/rag_graph.py:40-51 | the prompt always opens with the fixed system text and closes with the fixed closing instruction |
| `RagGraph.Blocks` | app/rag_graph.py:35-37 | there is one block per retrieved document |
| `RagGraph.GenerateNode` | app/rag_graph.py:30-54 | `generate_node` returns only `answer`: the chat model's raw reply to the prompt for the state's question and documents, with absent documents read as the empty list |
| `RagGraph.ContextSnoc` | app/rag_graph.py:35-38 | one more retrieved document appends a blank line and its block, numbered after all earlier ones |
| `RagGraph.ContextFewDocuments` | app/rag_graph.py:35-38 | no documents give an empty context; one document gives its block alone, headed "[Doc 1 - source]" |
| `RagGraph.ContextLength` | app/rag_graph.py:35-38 | n documents give n blocks and n − 1 "\n\n" separators |
| `RagGraph.BlockHeader` | app/rag_graph.py:36 | block i is "[Doc " + numeral + " - " + source + "]\n" + page text, where the numeral is all digits and reads back as i + 1, and the source is the `source` metadata or "unknown" without it |
| `RagGraph.HeadersDistinct` | app/rag_graph.py:36 | documents at different positions get different header numbers |
| `RagGraph.PromptShape` | app/rag_graph.py:40-51 | the prompt is exactly system text, "Context:\n", the context, "\n\n", "User question: ", the question verbatim, "\n\n", and the closing instruction, each at its computed offset |
| `RagGraph.PromptDeterminesQuestion` | app/rag_graph.py:49 | for the same documents, equal prompts mean equal questions: the question goes in untrimmed and unescaped |
| `RagGraph.PromptWithoutDocuments` | app/rag_graph.py:33-49 | with no documents the prompt holds "Context:\n\n\nUser question: " followed by the question |
| `RagGraph.IngestedChunksNameTheirFile` | app/rag_graph.py:36 | the prompt block of the i-th chunk ingested from a file, at any position j, is "[Doc " + str(j + 1) + " - " + the file's name + "]\n" + the splitter's i-th chunk |
| `RagGraph.BuildRagGraph` | app/rag_graph.py:57-68 | the graph's entry is retrieve; retrieve's only successor is generate, generate's only one END, and END has none |
| `RagGraph.Next` | app/rag_graph.py:61-66 | the next node found from a node is one its edges lead to, and there is none exactly when no edge leaves it |
| `RagGraph.PathFrom` | app/rag_graph.py:64-68 | a run starts at its node, each step follows an edge, and a run that stops before its step budget stops at a node with no outgoing edge |
| `RagGraph.RagGraphIsLinear` | app/rag_graph.py:57-68 | the run from the entry visits retrieve, generate, END, once each |
| `RagGraph.RunNode` | app/rag_graph.py:23-54 | running a node keeps the question; retrieve sets only the documents retrieved for the question, generate only the reply to the prompt for the state's documents, END nothing |
| `RagGraph.RunPath` | app/rag_graph.py:57-68 | running the compiled graph's nodes in order, as `rag_graph.invoke` does, never changes the question; a path without retrieve keeps the documents and one without generate keeps the answer |
| `RagGraph.Invoke` | app/rag_graph.py:57-72 | the final state keeps the question, holds the documents retrieved for that same question, and holds the chat model's raw reply to the prompt built from exactly those documents |

## Left out

- Parsing: PdfReader, python-docx and UTF-8 decoding with errors ignored are not modelled. Their results, or the exception each raised, are given as a `FileView`. Which files make a library raise is the library's behaviour and is not modelled.
- Legacy `.doc` files: `load_file_to_text` sends `.doc` to `load_docx`, but python-docx reads only Office Open XML packages, so a genuine binary Word 97-2003 file raises inside the library. The model follows the code: `.doc` is accepted by the suffix check, and `DocGoesToWordParser` shows that such a file ends with the library's exception rather than a `ValueError`. The model does not decide which `.doc` files python-docx can open.
- `RagStore.LoadFileToText`: its `ValueError` is only the core's own raise for an unsupported suffix. An exception a parsing library raises is filed as `LibraryError` whatever its Python class, so a `ValueError` python-docx raises for an Office Open XML package that is not a Word document (a template renamed `letter.docx`, say) is a `LibraryError` here, although the program and its HTTP layer cannot tell it from the unsupported-type error.
- `RagStore.LoaderText`: "never a `ValueError`" means never the core's own unsupported-type error; the Python class of a library's exception is not modelled.
- `RagStore.VectorStore`: the class follows chromadb before 0.4, where records become durable only at `persist()`. From chromadb 0.4 on, `add_documents` already writes to disk and `persist()` does nothing; `IngestFile`'s end state is the same under both.
- Empty chunk lists: when the splitter yields no chunks, `ingest_file` still calls `add_documents([])`. The model appends nothing in that case; what Chroma does with an empty batch (some versions raise) is not modelled or verified.
- Splitting: the `RecursiveCharacterTextSplitter` algorithm is not modelled. It is the `Chunker` input, so chunk lengths, overlaps and non-empty chunks are the library's promise and are not proved here.
- Embeddings and similarity: the Gemini embedding calls, embedding vectors and Chroma's similarity ranking are not modelled. The ranking is a given function of the question. Embedding and provider errors, which propagate, are not modelled.
- Chat model: the Gemini chat call, its temperature and its errors are not modelled. The reply's `content` is a given function of the prompt.
- Paths: pathlib's parsing of a path string into components is not modelled. A `FilePath` is given as directories plus a final name, and `Suffix` follows the rule of CPython 3.12's `PurePath.suffix` for the last dot on that name: a dot that is the name's first or last character gives an empty suffix, so "..pdf" has the suffix ".pdf" and "foo." none. Python versions that treat leading or trailing dots otherwise are not modelled.
- `Strings.Lower`: does not model Unicode case mapping. `str.lower` is modelled for ASCII letters only; other characters are unchanged. The accepted suffixes are ASCII.
- `RagStore.Document`: metadata values are strings. Non-string metadata, which an f-string would format with `str()`, is not modelled.
- `RagStore.RetrieveTopK`: does not model a negative `k`, because the retriever's `k` is a natural number here. The source never passes one.
- `RagStore.GetRetriever`: opening a client over the store when the retriever is built is not modelled. `IngestFile` models it through `VectorStore.Open`.
- The process-wide `_llm`, `_retriever` and `rag_graph` objects, and `get_chat_model`/`get_embedding_model`, are not modelled. The retriever is fixed to the default `GetRetriever()` as in the source, and the services are parameters.
- File I/O, persistence layout, concurrency between requests, the HTTP API (`app/api.py`), the Streamlit UI and configuration loading (`app/config.py`) are not modelled. They are presentation and environment glue.
