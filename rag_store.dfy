/** Document loading, chunking and ingestion into the vector store
    (app/rag_store.py).

    The parsing libraries, the text splitter and the vector database are
    not modelled: what they report is given to the model as values (a
    `FileView`, a `Chunker`, a similarity ranking), and the model pins down
    the dispatch, folding, tagging and counting this module does around
    them. */
module RagStore {
  import opened Wrappers
  import opened Strings

  /** A langchain `Document`: a chunk of page text and its metadata. */
  datatype Document = Document(metadata: map<string, string>, pageContent: string)

  /** A stored file's path: the directories leading to it and its final
      component, the `name` pathlib reports. */
  datatype FilePath = FilePath(directory: seq<string>, name: string)

  /** What the parsing libraries report when they open one stored file:
      PdfReader's per-page `extract_text()` results (None where a page has
      no text layer), python-docx's paragraph texts, and the file's contents
      as `read_text(encoding="utf-8", errors="ignore")` decodes them. Each
      library may instead raise, with the message given as `Err`: PdfReader
      on a damaged PDF, python-docx on anything that is not an Office Open
      XML package (a legacy binary `.doc` among them), `read_text` on an
      unreadable file. */
  datatype FileView = FileView(
    pdfPages: Result<seq<Option<string>>, string>,
    docxParagraphs: Result<seq<string>, string>,
    decodedText: Result<string, string>)

  /** The errors an ingestion can end with: the `ValueError` the core raises
      itself for an unsupported file type, or an exception a parsing library
      raised and the core let through. A library's exception is a
      `LibraryError` whatever its Python class, even when that class is
      `ValueError` too. */
  datatype Error = ValueError(message: string) | LibraryError(message: string)

  // ---------- File type dispatch ----------

  /** pathlib's `suffix` as CPython 3.12 computes it: from the last dot of
      the name to its end, provided that dot is neither the name's first nor
      its last character; otherwise empty. */
  function Suffix(name: string): (r: string)
    ensures r != "" ==> 2 <= |r| < |name| && r == name[|name| - |r|..] && r[0] == '.' && '.' !in r[1..]
    ensures r == "" ==> forall i :: 0 < i < |name| - 1 && name[i] == '.' ==> '.' in name[i + 1..]
  {
    var i := RFind(name, '.');
    if 0 < i < |name| - 1 then name[i..] else ""
  }

  /** Finding the suffix of the lower-cased name is lower-casing the suffix. */
  lemma SuffixLower(name: string)
    ensures Suffix(Lower(name)) == Lower(Suffix(name))
  {
    RFindDotLower(name);
    var i := RFind(name, '.');
    if 0 < i < |name| - 1 {
      LowerFrom(name, i);
    }
  }

  /** The three loaders `load_file_to_text` dispatches to. */
  datatype Loader = PdfLoader | TxtLoader | DocxLoader

  /** The suffixes `load_file_to_text` accepts, compared after lower-casing. */
  const SupportedSuffixes: set<string> := {".pdf", ".txt", ".docx", ".doc"}

  /** The dispatch of `load_file_to_text` on an already lower-cased suffix,
      or the `ValueError` it raises for any suffix outside the accepted set. */
  function LoaderFor(suffix: string): (r: Result<Loader, Error>)
    ensures r.Ok? <==> suffix in SupportedSuffixes
    ensures r == Ok(PdfLoader) <==> suffix == ".pdf"
    ensures r == Ok(TxtLoader) <==> suffix == ".txt"
    ensures r == Ok(DocxLoader) <==> suffix == ".docx" || suffix == ".doc"
    ensures r.Err? ==> r.error == ValueError("Unsupported file type: " + suffix)
  {
    if suffix == ".pdf" then Ok(PdfLoader)
    else if suffix == ".txt" then Ok(TxtLoader)
    else if suffix == ".docx" || suffix == ".doc" then Ok(DocxLoader)
    else Err(ValueError("Unsupported file type: " + suffix))
  }

  /** The loader for a file name: dispatch on its lower-cased suffix. */
  function SelectLoader(name: string): (r: Result<Loader, Error>)
    ensures r.Ok? <==> Lower(Suffix(name)) in SupportedSuffixes
    ensures r.Err? ==> r.error == ValueError("Unsupported file type: " + Lower(Suffix(name)))
  {
    LoaderFor(Lower(Suffix(name)))
  }

  /** Dispatch ignores case: a name and its lower-cased form select the
      same loader, or fail with the same message. */
  lemma SelectLoaderIgnoresCase(name: string)
    ensures SelectLoader(Lower(name)) == SelectLoader(name)
  {
    SuffixLower(name);
    LowerIdempotent(Suffix(name));
  }

  /** Upper-case and lower-case spellings of one suffix dispatch alike. */
  lemma UpperCasePdfIsPdf()
    ensures SelectLoader("X.PDF") == SelectLoader("x.pdf") == Ok(PdfLoader)
  {
    assert Lower("X.PDF") == "x.pdf";
    SelectLoaderIgnoresCase("X.PDF");
    assert RFind("x.pdf", '.') == 1;
    assert Suffix("x.pdf") == ".pdf";
    assert Lower(".pdf") == ".pdf";
  }

  /** A name without a suffix is rejected with the empty suffix in the
      message, and so is a name whose only dot is its first character. */
  lemma NoSuffixIsRejected()
    ensures SelectLoader("README") == Err(ValueError("Unsupported file type: "))
    ensures SelectLoader(".bashrc") == Err(ValueError("Unsupported file type: "))
  {
    RFindUnique("README", '.', -1);
    RFindUnique(".bashrc", '.', 0);
    assert Suffix("README") == "" && Suffix(".bashrc") == "";
    assert Lower("") == "";
    assert "Unsupported file type: " + "" == "Unsupported file type: ";
  }

  // ---------- Loaders ----------

  /** One page's contribution: `page.extract_text() or ""`. A page's text
      is kept as extracted; a page without a text layer contributes "". */
  function PageText(page: Option<string>): (r: string)
    ensures page.Some? ==> r == page.value
    ensures r == "" <==> page.None? || page.value == ""
  {
    page.GetOr("")
  }

  /** Each page's contribution, in page order. */
  function PageTexts(pages: seq<Option<string>>): seq<string>
  {
    seq(|pages|, i requires 0 <= i < |pages| => PageText(pages[i]))
  }

  /** The text `load_pdf` accumulates: the page texts in order. It is
      exactly as long as the page texts together, so nothing is added
      between pages. */
  function PdfText(pages: seq<Option<string>>): (r: string)
    ensures |r| == SumLengths(PageTexts(pages))
  {
    if |pages| == 0 then ""
    else
      var init := pages[..|pages| - 1];
      var last := PageText(pages[|pages| - 1]);
      assert PageTexts(pages) == PageTexts(init) + [last];
      SumLengthsSnoc(PageTexts(init), last);
      PdfText(init) + last
  }

  /** `load_pdf`: appends each page's text to an accumulator, in page order. */
  method LoadPdf(pages: seq<Option<string>>) returns (text: string)
    ensures text == PdfText(pages)
  {
    text := "";
    for i := 0 to |pages|
      invariant text == PdfText(pages[..i])
    {
      text := text + PageText(pages[i]);
      assert pages[..i + 1][..i] == pages[..i];
    }
    assert pages[..|pages|] == pages;
  }

  lemma {:induction false} PdfTextAppend(a: seq<Option<string>>, b: seq<Option<string>>)
    ensures PdfText(a + b) == PdfText(a) + PdfText(b)
    decreases |b|
  {
    if |b| == 0 {
      assert a + b == a;
    } else {
      var b' := b[..|b| - 1];
      assert (a + b)[..|a + b| - 1] == a + b';
      PdfTextAppend(a, b');
    }
  }

  /** The PDF text is the plain concatenation of the page texts; no pages
      means no text. */
  lemma {:induction false} PdfTextIsConcat(pages: seq<Option<string>>)
    ensures PdfText(pages) == Concat(PageTexts(pages))
  {
    var texts := PageTexts(pages);
    if |pages| > 0 {
      var init := pages[..|pages| - 1];
      var initTexts := PageTexts(init);
      PdfTextIsConcat(init);
      assert texts == initTexts + [PageText(pages[|pages| - 1])];
      ConcatAppend(initTexts, [PageText(pages[|pages| - 1])]);
      assert Concat([PageText(pages[|pages| - 1])]) == PageText(pages[|pages| - 1]) + Concat([]);
    }
  }

  /** A page without extractable text contributes nothing. */
  lemma MissingPageContributesNothing(before: seq<Option<string>>, after: seq<Option<string>>)
    ensures PdfText(before + [None] + after) == PdfText(before + after)
  {
    PdfTextAppend(before + [None], after);
    PdfTextAppend(before, after);
    assert PdfText(before + [None]) == PdfText(before) by {
      assert (before + [None])[..|before|] == before;
    }
  }

  /** `load_docx`: the paragraph texts joined by newlines. n paragraphs
      add n - 1 newlines; zero paragraphs give "". */
  function LoadDocx(paragraphs: seq<string>): (r: string)
    ensures |paragraphs| == 0 ==> r == ""
    ensures |paragraphs| > 0 ==> |r| == SumLengths(paragraphs) + |paragraphs| - 1
  {
    if |paragraphs| > 0 then JoinLength("\n", paragraphs); Join("\n", paragraphs)
    else Join("\n", paragraphs)
  }

  /** When no paragraph holds a line break, splitting the text at newlines
      gives back exactly the paragraphs: the join loses nothing. */
  lemma DocxParagraphsRecoverable(paragraphs: seq<string>)
    requires |paragraphs| > 0
    requires forall i :: 0 <= i < |paragraphs| ==> '\n' !in paragraphs[i]
    ensures Split('\n', LoadDocx(paragraphs)) == paragraphs
  {
    SplitJoin('\n', paragraphs);
  }

  /** `load_txt`: the decoded file contents, as they are, or the error
      reading the file raised. */
  function LoadTxt(view: FileView): (r: Result<string, Error>)
    ensures r.Ok? <==> view.decodedText.Ok?
    ensures r.Ok? ==> r.value == view.decodedText.value
    ensures r.Err? ==> r.error == LibraryError(view.decodedText.error)
  {
    match view.decodedText
    case Ok(text) => Ok(text)
    case Err(message) => Err(LibraryError(message))
  }

  /** The text the selected loader produces, or the exception its parsing
      library raised; a loader never produces the core's own unsupported-type
      error. */
  function LoaderText(loader: Loader, view: FileView): (r: Result<string, Error>)
    ensures r.Err? ==> r.error.LibraryError?
  {
    match loader
    case PdfLoader =>
      (match view.pdfPages
       case Ok(pages) => Ok(PdfText(pages))
       case Err(message) => Err(LibraryError(message)))
    case TxtLoader => LoadTxt(view)
    case DocxLoader =>
      (match view.docxParagraphs
       case Ok(paragraphs) => Ok(LoadDocx(paragraphs))
       case Err(message) => Err(LibraryError(message)))
  }

  /** `load_file_to_text`: the selected loader's text, or the error. The
      core's own `ValueError` comes exactly for the unsupported suffixes; a
      supported one yields whatever its loader yields. */
  function LoadFileToText(path: FilePath, view: FileView): (r: Result<string, Error>)
    ensures (r.Err? && r.error.ValueError?) <==> Lower(Suffix(path.name)) !in SupportedSuffixes
    ensures r.Err? && r.error.ValueError? ==>
      r.error.message == "Unsupported file type: " + Lower(Suffix(path.name))
  {
    match SelectLoader(path.name)
    case Ok(loader) => LoaderText(loader, view)
    case Err(e) => Err(e)
  }

  /** Each accepted suffix reaches its loader, whatever its case: `.pdf`
      the page fold, `.txt` the decoded text, `.docx` and `.doc` the
      paragraph join; a loader whose library raised passes the exception
      on. */
  lemma LoadFileToTextDispatch(path: FilePath, view: FileView)
    ensures Lower(Suffix(path.name)) == ".pdf" ==>
      LoadFileToText(path, view) == LoaderText(PdfLoader, view) ==
      (if view.pdfPages.Ok? then Ok(PdfText(view.pdfPages.value)) else Err(LibraryError(view.pdfPages.error)))
    ensures Lower(Suffix(path.name)) == ".txt" ==>
      LoadFileToText(path, view) == LoaderText(TxtLoader, view) ==
      (if view.decodedText.Ok? then Ok(view.decodedText.value) else Err(LibraryError(view.decodedText.error)))
    ensures Lower(Suffix(path.name)) in {".docx", ".doc"} ==>
      LoadFileToText(path, view) == LoaderText(DocxLoader, view) ==
      (if view.docxParagraphs.Ok? then Ok(LoadDocx(view.docxParagraphs.value))
       else Err(LibraryError(view.docxParagraphs.error)))
    ensures LoadFileToText(FilePath(path.directory, Lower(path.name)), view) == LoadFileToText(path, view)
  {
    SelectLoaderIgnoresCase(path.name);
    var suffix := Lower(Suffix(path.name));
    if suffix in {".docx", ".doc"} {
      assert SelectLoader(path.name) == Ok(DocxLoader);
    }
    LoaderTextByLibrary(view);
  }

  /** What each loader makes of the libraries' reports. */
  lemma LoaderTextByLibrary(view: FileView)
    ensures LoaderText(PdfLoader, view) ==
      (if view.pdfPages.Ok? then Ok(PdfText(view.pdfPages.value)) else Err(LibraryError(view.pdfPages.error)))
    ensures LoaderText(TxtLoader, view) ==
      (if view.decodedText.Ok? then Ok(view.decodedText.value) else Err(LibraryError(view.decodedText.error)))
    ensures LoaderText(DocxLoader, view) ==
      (if view.docxParagraphs.Ok? then Ok(LoadDocx(view.docxParagraphs.value))
       else Err(LibraryError(view.docxParagraphs.error)))
  {
  }

  /** A `.doc` file passes the suffix check and goes to python-docx; when
      that library cannot open it, as with a legacy binary Word file, the
      ingestion ends with the library's exception, not with a `ValueError`. */
  lemma DocGoesToWordParser(directory: seq<string>, pdf: Result<seq<Option<string>>, string>,
                            text: Result<string, string>, message: string)
    ensures SelectLoader("report.doc") == Ok(DocxLoader)
    ensures LoadFileToText(FilePath(directory, "report.doc"), FileView(pdf, Err(message), text))
      == Err(LibraryError(message))
  {
    RFindUnique("report.doc", '.', 6);
    assert Suffix("report.doc") == ".doc";
    assert Lower(".doc") == ".doc";
  }

  // ---------- Chunking ----------

  /** The settings of the `RecursiveCharacterTextSplitter`. */
  datatype SplitterConfig = SplitterConfig(chunkSize: nat, chunkOverlap: nat, lengthFunction: string -> nat)

  /** The splitting library: from its settings and a text, the chunk texts
      in order. */
  type Chunker = (SplitterConfig, string) -> seq<string>

  /** The splitter `split_text_to_docs` configures: chunks of at most 800,
      overlapping by 150, lengths counted in characters (`len`), an overlap
      the library accepts because it is below the chunk size. */
  function TextSplitter(): (c: SplitterConfig)
    ensures c.chunkSize == 800 && c.chunkOverlap == 150
    ensures c.chunkOverlap < c.chunkSize
    ensures forall s :: c.lengthFunction(s) == |s|
  {
    SplitterConfig(800, 150, s => |s|)
  }

  /** The page contents of a list of documents, in order. */
  function PageContents(docs: seq<Document>): seq<string>
  {
    seq(|docs|, i requires 0 <= i < |docs| => docs[i].pageContent)
  }

  /** `split_text_to_docs`: one document per chunk the splitter returns, in
      the splitter's order, each with metadata `{"source": source}`. */
  function SplitTextToDocs(chunker: Chunker, text: string, source: string): (docs: seq<Document>)
    ensures PageContents(docs) == chunker(TextSplitter(), text)
    ensures forall i :: 0 <= i < |docs| ==> docs[i].metadata == map["source" := source]
  {
    var chunks := chunker(TextSplitter(), text);
    seq(|chunks|, i requires 0 <= i < |chunks| => Document(map["source" := source], chunks[i]))
  }

  // ---------- The vector store ----------

  /** The persistent Chroma index: the records it holds, the records a
      restart would find on disk, and how many clients have been opened over
      its directory. Records are only ever appended. */
  class VectorStore {
    var records: seq<Document>
    var persisted: seq<Document>
    var clients: nat

    /** What was persisted is a prefix of what is held. */
    ghost predicate Valid()
      reads this
    {
      persisted <= records
    }

    /** An index reopened from disk holds what was persisted there. */
    constructor (onDisk: seq<Document>)
      ensures Valid()
      ensures records == onDisk && persisted == onDisk && clients == 0
    {
      records := onDisk;
      persisted := onDisk;
      clients := 0;
    }

    /** `get_vectorstore`: opens a client over the index directory. */
    method Open()
      requires Valid()
      modifies this`clients
      ensures Valid()
      ensures clients == old(clients) + 1
    {
      clients := clients + 1;
    }

    /** `add_documents`: appends the documents (embedding them is the
      library's affair). */
    method AddDocuments(docs: seq<Document>)
      requires Valid()
      modifies this`records
      ensures Valid()
      ensures records == old(records) + docs
    {
      records := records + docs;
    }

    /** `persist`: makes everything held durable. */
    method Persist()
      requires Valid()
      modifies this`persisted
      ensures Valid()
      ensures persisted == records
    {
      persisted := records;
    }
  }

  /** `ingest_file`: extracts the text (raising before the store is opened
      when the type is unsupported or a parser fails), splits it into documents tagged with
      the file's name, adds and persists them, and returns how many it
      added. */
  method IngestFile(store: VectorStore, path: FilePath, view: FileView, chunker: Chunker)
    returns (r: Result<nat, Error>)
    requires store.Valid()
    modifies store
    ensures store.Valid()
    ensures LoadFileToText(path, view).Err? ==>
      r == Err(LoadFileToText(path, view).error) && unchanged(store)
    ensures LoadFileToText(path, view).Ok? ==>
      var docs := SplitTextToDocs(chunker, LoadFileToText(path, view).value, path.name);
      && r == Ok(|docs|)
      && store.records == old(store.records) + docs
      && store.persisted == store.records
      && store.clients == old(store.clients) + 1
  {
    var loaded := LoadFileToText(path, view);
    if loaded.Err? {
      return Err(loaded.error);
    }
    var docs := SplitTextToDocs(chunker, loaded.value, path.name);
    store.Open();
    store.AddDocuments(docs);
    store.Persist();
    r := Ok(|docs|);
  }

  /** The chunk count `ingest_file` returns is the number of chunks the
      splitter made of the file's text. */
  lemma IngestCountIsChunkCount(chunker: Chunker, text: string, source: string)
    ensures |SplitTextToDocs(chunker, text, source)| == |chunker(TextSplitter(), text)|
  {
    assert |PageContents(SplitTextToDocs(chunker, text, source))| == |SplitTextToDocs(chunker, text, source)|;
  }

  // ---------- Retrieval ----------

  /** A retriever over the store, returning at most `k` documents. */
  datatype Retriever = Retriever(k: nat)

  /** `get_retriever`: k defaults to 5; the retriever hands on the top k
      documents of any ranking, or all of them when there are fewer. */
  function GetRetriever(k: nat := 5): (r: Retriever)
    ensures forall ranked :: |RetrieveTopK(r, ranked)| == (if |ranked| < k then |ranked| else k)
  {
    Retriever(k)
  }

  /** `retriever.invoke`: the first `k` of the store's documents as the
      similarity search ranks them for the question, most similar first. */
  function RetrieveTopK(retriever: Retriever, ranked: seq<Document>): (docs: seq<Document>)
    ensures |docs| == if |ranked| < retriever.k then |ranked| else retriever.k
    ensures docs <= ranked
  {
    if |ranked| <= retriever.k then ranked else ranked[..retriever.k]
  }

  /** The default retriever hands on at most five documents, the top of the
      ranking, and all of them when there are five or fewer. */
  lemma DefaultRetrieverTopFive(ranked: seq<Document>)
    ensures |RetrieveTopK(GetRetriever(), ranked)| <= 5
    ensures |ranked| <= 5 ==> RetrieveTopK(GetRetriever(), ranked) == ranked
    ensures |ranked| > 5 ==> RetrieveTopK(GetRetriever(), ranked) == ranked[..5]
  {
  }
}
