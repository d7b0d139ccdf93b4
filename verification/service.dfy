/**
 The HTTP service (`main.py`) as a state machine over the in-memory document
 registry and the vector store's collections: uploading, asking questions,
 listing, looking up and deleting documents, and the OCR-only request. Each
 request is a function from the state (and whatever the pipelines report) to a
 new state and a response; an `HTTPException` is a non-success response.
 */
module Service {
  import opened Wrappers
  import opened Text
  import opened Values
  import opened Ocr
  import opened Chunking
  import opened VectorStore
  import opened Ingest
  import opened Answer

  /** Characters of the cleaned file stem kept in a document id. */
  const StemLength: nat := 20
  /** Characters of the content hash kept in a document id. */
  const HashLength: nat := 8

  const PdfSuffix: string := ".pdf"
  const OnlyPdf: string := "Only PDF files are supported"
  const ProcessingError: string := "Error processing PDF: "
  const NoInformation: string := "I could not find relevant information in the document to answer your question."
  const UploadMessage: string := "Document processed successfully. You can now ask questions!"

  // ---------------------------------------------------------------------------
  // Document ids

  /** `Path(name).stem` for a plain file name: everything before the last `.`,
      unless that dot starts the name or ends it. */
  function Stem(name: string): (stem: string)
    ensures |stem| <= |name| && stem == name[..|stem|]
  {
    match LastIndexOf(name, '.')
    case Some(i) => if 0 < i < |name| - 1 then name[..i] else name
    case None => name
  }

  /** `s.replace(' ', '_')`. */
  function SpacesToUnderscores(s: string): (r: string)
    ensures |r| == |s|
    ensures forall i :: 0 <= i < |s| ==> r[i] == (if s[i] == ' ' then '_' else s[i])
  {
    seq(|s|, i requires 0 <= i < |s| => if s[i] == ' ' then '_' else s[i])
  }

  /** `generate_document_id`: the first 20 characters of the file stem with spaces
      made underscores, an underscore, and the first 8 characters of the hex
      digest of the content. */
  function GenerateDocumentId(filename: string, digest: string): (id: string)
    ensures var n := |id| - 1 - Min(HashLength, |digest|);
            && 0 <= n <= StemLength
            && ' ' !in id[..n]
            && id[..n] == Take(SpacesToUnderscores(Stem(filename)), StemLength)
            && id[n] == '_'
            && id[n + 1..] == Take(digest, HashLength)
  {
    Take(SpacesToUnderscores(Stem(filename)), StemLength) + "_" + Take(digest, HashLength)
  }

  /** The cleaned, shortened stem of a file name. */
  function CleanStem(filename: string): string {
    Take(SpacesToUnderscores(Stem(filename)), StemLength)
  }

  /** For full-length digests, two uploads get the same id exactly when their
      cleaned stems and the first 8 digest characters agree. */
  lemma DocumentIdInjective(f1: string, d1: string, f2: string, d2: string)
    requires |d1| >= HashLength && |d2| >= HashLength
    ensures (GenerateDocumentId(f1, d1) == GenerateDocumentId(f2, d2))
              <==> CleanStem(f1) == CleanStem(f2) && d1[..HashLength] == d2[..HashLength]
  {
    var a, b := GenerateDocumentId(f1, d1), GenerateDocumentId(f2, d2);
    if a == b {
      assert a[..|a| - 1 - HashLength] == CleanStem(f1);
      assert b[..|b| - 1 - HashLength] == CleanStem(f2);
    }
  }

  /** The stem of `name.pdf` is `name` when `name` is non-empty. */
  lemma StemOfPdf(name: string)
    requires |name| > 0
    ensures Stem(name + PdfSuffix) == name
  {
    var f := name + PdfSuffix;
    assert f[|name|] == '.' && f[|name| + 1..] == "pdf";
    assert LastIndexOf(f, '.') == Some(|name|) by {
      assert f[..|f| - 1][..|f| - 2][..|f| - 3] == f[..|name| + 1];
    }
    assert f[..|name|] == name;
  }

  // ---------------------------------------------------------------------------
  // State

  /** A `documents_db` entry. */
  datatype Record = Record(documentId: string, filename: string, totalPages: nat, totalChunks: nat, status: string)

  type Registry = map<string, Record>

  datatype State = State(db: Registry, store: Collections)

  /** Every entry is filed under its own id, is ready, and has its collection. */
  predicate Consistent(s: State) {
    forall k :: k in s.db ==> s.db[k].documentId == k && s.db[k].status == "ready" && CollectionName(k) in s.store
  }

  /** The outcome of a request: a body, or the HTTP error it raised. */
  datatype Response<T> = Success(body: T) | BadRequest(detail: string) | NotFound(detail: string) | ServerError(detail: string)

  // ---------------------------------------------------------------------------
  // Upload and OCR only

  datatype UploadBody = UploadBody(documentId: string, filename: string, status: string, ocrResult: Document, ragSummary: Summary, message: string)

  /** What the pipelines report for an upload: the extractors' view of the PDF,
      the tokenizer, and whether embedding and storing go through. `savedPath` is
      where the upload was saved; `digest` is the hex MD5 digest of its bytes. */
  datatype Pipelines = Pipelines(savedPath: string, pdf: PdfRead, tok: Tokenizer, backend: Backend)

  /** `upload_and_process_pdf`. */
  function Upload(s: State, filename: string, digest: string, p: Pipelines): (r: (State, Response<UploadBody>))
    ensures !EndsWith(filename, PdfSuffix) ==> r == (s, BadRequest(OnlyPdf))
    ensures r.1.Success? <==>
              && EndsWith(filename, PdfSuffix)
              && ProcessPdf(p.savedPath, p.pdf).Ok?
              && Index(p.tok, s.store, GenerateDocumentId(filename, digest), ProcessPdf(p.savedPath, p.pdf).value.pages,
                       map["filename" := Str(filename)], p.backend).summary.Ok?
    ensures r.1.ServerError? ==> StartsWith(r.1.detail, ProcessingError)
    ensures r.1.Success? ==>
              var id := GenerateDocumentId(filename, digest);
              && r.0.db.Keys == s.db.Keys + {id}
              && r.0.db[id].documentId == id && r.0.db[id].filename == filename && r.0.db[id].status == "ready"
              && r.0.db[id].totalPages == |p.pdf.pages|
              && r.0.db[id].totalChunks == r.1.body.ragSummary.totalChunks
              && (forall k :: k in s.db && k != id ==> r.0.db[k] == s.db[k])
    ensures EndsWith(filename, PdfSuffix) && ProcessPdf(p.savedPath, p.pdf).Err? ==>
              r.1 == ServerError(ProcessingError + ProcessPdf(p.savedPath, p.pdf).message)
    ensures EndsWith(filename, PdfSuffix) && ProcessPdf(p.savedPath, p.pdf).Ok? ==>
              var id, doc := GenerateDocumentId(filename, digest), ProcessPdf(p.savedPath, p.pdf).value;
              var summary := Index(p.tok, s.store, id, doc.pages, map["filename" := Str(filename)], p.backend).summary;
              && (summary.Err? ==> r.1 == ServerError(ProcessingError + summary.message))
              && (summary.Ok? ==>
                    && r.1.Success?
                    && r.1.body.documentId == id && r.1.body.filename == filename
                    && r.1.body.status == "success" && r.1.body.message == UploadMessage
                    && r.1.body.ocrResult == doc && r.1.body.ragSummary == summary.value)
    ensures !r.1.Success? ==> r.0.db == s.db
    ensures r.0.store ==
              if EndsWith(filename, PdfSuffix) && ProcessPdf(p.savedPath, p.pdf).Ok?
              then CreateOrGet(s.store, GenerateDocumentId(filename, digest))
              else s.store
  {
    if !EndsWith(filename, PdfSuffix) then (s, BadRequest(OnlyPdf))
    else
      var id := GenerateDocumentId(filename, digest);
      match ProcessPdf(p.savedPath, p.pdf)
      case Err(m) => (s, ServerError(ProcessingError + m))
      case Ok(doc) =>
        ProcessPdfPages(p.savedPath, p.pdf);
        var indexed := Index(p.tok, s.store, id, doc.pages, map["filename" := Str(filename)], p.backend);
        match indexed.summary
        case Err(m) => (State(s.db, indexed.store), ServerError(ProcessingError + m))
        case Ok(summary) =>
          var record := Record(id, filename, |doc.pages|, summary.totalChunks, "ready");
          (State(s.db[id := record], indexed.store), Success(UploadBody(id, filename, "success", doc, summary, UploadMessage)))
  }

  /** Uploading keeps the state consistent, and re-uploading a document replaces
      its entry instead of adding one. */
  lemma UploadPreserves(s: State, filename: string, digest: string, p: Pipelines)
    requires Consistent(s)
    ensures Consistent(Upload(s, filename, digest, p).0)
    ensures GenerateDocumentId(filename, digest) in s.db ==> |Upload(s, filename, digest, p).0.db| == |s.db|
  {
  }

  /** `process_pdf_ocr_only`: the extraction result itself, without indexing. */
  function OcrOnly(filename: string, p: Pipelines): (r: Response<Document>)
    ensures !EndsWith(filename, PdfSuffix) ==> r == BadRequest(OnlyPdf)
    ensures EndsWith(filename, PdfSuffix) && ProcessPdf(p.savedPath, p.pdf).Err? ==>
              r == ServerError(ProcessingError + ProcessPdf(p.savedPath, p.pdf).message)
    ensures EndsWith(filename, PdfSuffix) && p.pdf.OpenRaises? ==> r == ServerError(ProcessingError + p.pdf.message)
    ensures r.Success? ==> EndsWith(filename, PdfSuffix) && Ok(r.body) == ProcessPdf(p.savedPath, p.pdf)
  {
    if !EndsWith(filename, PdfSuffix) then BadRequest(OnlyPdf)
    else
      match ProcessPdf(p.savedPath, p.pdf)
      case Err(m) => ServerError(ProcessingError + m)
      case Ok(doc) => Success(doc)
  }

  // ---------------------------------------------------------------------------
  // Chat

  datatype ChatBody = ChatBody(reply: Reply, documentId: string)

  /** What the services report for a question: the similarity query's rows, the
      LLM handler and the chat-completion call. */
  datatype Responders = Responders(rows: QueryReply, handler: Handler, complete: (string, seq<Message>) -> Completion)

  /** `chat_with_document`. */
  function Chat(s: State, documentId: string, question: string, history: seq<Message>, rs: Responders): (r: (State, Response<ChatBody>))
    ensures documentId !in s.db ==> r.0 == s && r.1.NotFound?
    ensures documentId in s.db ==>
              && r.1.Success? && r.1.body.documentId == documentId
              && r.0 == State(s.db, CreateOrGet(s.store, documentId))
              && (ShapeResults(rs.rows) == [] ==> r.1.body.reply == Reply(NoInformation, [], None, None, None))
              && (ShapeResults(rs.rows) != [] ==>
                    r.1.body.reply == GenerateAnswer(rs.handler, question, ShapeResults(rs.rows), history, rs.complete))
  {
    if documentId !in s.db then
      (s, NotFound("Document '" + documentId + "' not found. Please upload it first."))
    else
      var (store, chunks) := Retrieve(s.store, documentId, rs.rows);
      var reply :=
        if |chunks| == 0 then Reply(NoInformation, [], None, None, None)
        else GenerateAnswer(rs.handler, question, chunks, history, rs.complete);
      (State(s.db, store), Success(ChatBody(reply, documentId)))
  }

  /** Asking keeps the state consistent and never changes the registry; when
      nothing is retrieved the answer does not depend on the LLM at all. */
  lemma ChatPreserves(s: State, documentId: string, question: string, history: seq<Message>, rs: Responders,
                      h: Handler, c: (string, seq<Message>) -> Completion)
    requires Consistent(s)
    ensures Consistent(Chat(s, documentId, question, history, rs).0)
    ensures Chat(s, documentId, question, history, rs).0.db == s.db
    ensures ShapeResults(rs.rows) == [] ==>
              Chat(s, documentId, question, history, rs) == Chat(s, documentId, question, history, Responders(rs.rows, h, c))
  {
  }

  // ---------------------------------------------------------------------------
  // Listing, lookup, deletion

  datatype Listing = Listing(documents: set<Record>, total: nat)

  /** `list_documents`: the stored records and their number. */
  function ListDocuments(s: State): (r: Listing)
    ensures r.total == |s.db|
    ensures forall rec :: rec in r.documents <==> exists k :: k in s.db && s.db[k] == rec
  {
    Listing(s.db.Values, |s.db|)
  }

  /** In a consistent state the records are all different, so `total` is the
      number of records listed. */
  lemma {:induction false} ListingTotal(s: State)
    requires Consistent(s)
    ensures |ListDocuments(s).documents| == ListDocuments(s).total
  {
    RecordsCount(s.db);
  }

  lemma {:induction false} RecordsCount(db: Registry)
    requires forall k :: k in db ==> db[k].documentId == k
    ensures |db.Values| == |db|
    decreases |db|
  {
    if |db| > 0 {
      var k :| k in db;
      var rest := db - {k};
      RecordsCount(rest);
      forall v | v in db.Values
        ensures v in rest.Values + {db[k]}
      {
        var j :| j in db && db[j] == v;
        if j != k {
          assert j in rest && rest[j] == v;
        }
      }
      assert db.Values == rest.Values + {db[k]};
      assert db[k] !in rest.Values;
      assert |db| == |rest| + 1 by {
        assert db.Keys == rest.Keys + {k};
      }
    }
  }

  /** `get_document_info`. */
  function GetDocumentInfo(s: State, documentId: string): (r: Response<Record>)
    ensures r.Success? <==> documentId in s.db
    ensures r.Success? ==> r.body == s.db[documentId]
    ensures !r.Success? ==> r.NotFound?
  {
    if documentId in s.db then Success(s.db[documentId])
    else NotFound("Document '" + documentId + "' not found")
  }

  datatype DeleteBody = DeleteBody(status: string, message: string)

  /** `delete_document`: the registry entry goes whatever the store answered, so
      a store that raised leaves the document's collection behind. */
  function Delete(s: State, documentId: string, answer: DeleteAnswer): (r: (State, Response<DeleteBody>))
    ensures documentId !in s.db ==> r.0 == s && r.1.NotFound?
    ensures documentId in s.db ==>
              && r.1.Success?
              && r.0.db.Keys == s.db.Keys - {documentId}
              && (forall k :: k in r.0.db ==> r.0.db[k] == s.db[k])
              && (answer.Deleted? ==> CollectionName(documentId) !in r.0.store)
              && (answer.DeleteRaises? ==> r.0.store == s.store)
    ensures forall name :: name != CollectionName(documentId) ==> (name in r.0.store <==> name in s.store)
  {
    if documentId !in s.db then (s, NotFound("Document '" + documentId + "' not found"))
    else
      var (_, store) := DeleteCollection(s.store, documentId, answer);
      (State(s.db - {documentId}, store), Success(DeleteBody("success", "Document " + documentId + " deleted successfully")))
  }

  /** Deleting keeps the state consistent and shrinks the registry by one. */
  lemma DeletePreserves(s: State, documentId: string, answer: DeleteAnswer)
    requires Consistent(s)
    ensures Consistent(Delete(s, documentId, answer).0)
    ensures documentId in s.db ==> |Delete(s, documentId, answer).0.db| == |s.db| - 1
  {
    if documentId in s.db {
      var s' := Delete(s, documentId, answer).0;
      forall k | k in s'.db
        ensures CollectionName(k) in s'.store
      {
        if CollectionName(k) == CollectionName(documentId) {
          CollectionNameInjective(k, documentId);
        }
      }
    }
  }

  /** When the store raises, deleting a registered document still reports success
      and forgets the entry, while its collection stays in the store with no entry
      left that names it. */
  lemma DeleteCanOrphan(s: State, documentId: string)
    requires Consistent(s) && documentId in s.db
    ensures Delete(s, documentId, DeleteRaises).1.Success?
    ensures documentId !in Delete(s, documentId, DeleteRaises).0.db
    ensures CollectionName(documentId) in Delete(s, documentId, DeleteRaises).0.store
    ensures forall k :: k in Delete(s, documentId, DeleteRaises).0.db ==> CollectionName(k) != CollectionName(documentId)
  {
    forall k | k in Delete(s, documentId, DeleteRaises).0.db
      ensures CollectionName(k) != CollectionName(documentId)
    {
      if CollectionName(k) == CollectionName(documentId) {
        CollectionNameInjective(k, documentId);
      }
    }
  }
}
