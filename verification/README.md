# chatwithPDF: page assembly, chunking, indexing and answering, in Dafny

This project models the deterministic bookkeeping of chatwithPDF, a service
that takes PDF uploads and answers questions about them. It covers three
parts.

- **OCR pipeline** (`ocr_pipeline.py`). For each page it collects the tables
  (Camelot), the form fields (PyMuPDF widgets) and one text: the native text
  layer when it is substantial, else the OCR reading of the rasterised page,
  else an error record.
- **RAG pipeline** (`rag_pipeline.py`). It does three jobs:
  - it cuts page text into token windows (500 tokens, every 450 tokens);
  - it turns every page into entries (windows, tables, form fields), each
    with an id, a text and a metadata map, and adds them to the document's
    collection (`doc_<id>`) as one batch;
  - it shapes a similarity query's rows into ranked results, and builds the
    prompt and the answer record (`LLMHandler`).
- **HTTP service** (`main.py`). It derives document ids from the file name
  and the content digest. It treats the in-memory `documents_db` registry and
  the store's collections as a state machine driven by the upload, chat,
  list, lookup, delete and OCR-only requests.

Every library the code calls is an input, not a model:

- What the PDF readers, Camelot, PaddleOCR and the vector store returned, or
  that they raised, is given as data: `TableRead`, `WidgetRead`,
  `NativeRead`, `Raster`, `OcrOutput`, `PdfRead`, `QueryReply`, `Backend`,
  `DeleteAnswer`.
- The tokenizer is a pair of functions (`Tokenizer`).
- The chat-completion call is a function that gives an answer or raises.
- The MD5 hex digest of the upload is a string parameter.

Modules, one per file:

- `Wrappers` — `Option`, `Result`.
- `Text` — the Python string operations used: `isspace`/`strip`, integer
  rendering, `join`/`split`, `startswith`/`endswith`, `replace(p, '')`,
  slicing.
- `Values` — metadata values and their `str()`.
- `Ocr`, `Chunking`, `VectorStore`, `Ingest`, `Answer` — the pipelines.
- `Service` — `main.py`.

## Model

| member | source | states |
|---|---|---|
| Text.Strip | ocr_pipeline.py:46 | the stripped text is a slice of the input with only white space before and after it; it is empty exactly when the input is blank, and otherwise neither starts nor ends with white space |
| Text.StripIdempotent | ocr_pipeline.py:46 | stripping an already stripped text changes nothing |
| Text.NatToStringRoundTrip | rag_pipeline.py:176 | the decimal rendering of a page or chunk number is all digits and reads back as that number |
| Text.SplitJoin | ocr_pipeline.py:253 | splitting a newline join at its newlines recovers the parts, when there is at least one part and no part holds a newline |
| Text.JoinLayout | rag_pipeline.py:403-406 | a join lays the parts out in order: part i sits at its offset, a separator follows each part but the last, and the last part ends the string |
| Ocr.CollectTables | ocr_pipeline.py:81-96 | kept table numbers strictly increase; each is the 1-based position of a non-empty raw table before the first one whose record raises, and the record is built from that table |
| Ocr.CollectTablesComplete | ocr_pipeline.py:81-96 | every non-empty table before the first failing one is kept under its own number, so numbers skip exactly the empty frames |
| Ocr.ExtractTables | ocr_pipeline.py:64-102 | stream tables are read only when lattice found none; a raise from the lattice read gives no tables; numbers increase from 1 and headers are the first row |
| Ocr.OrElse | ocr_pipeline.py:126-129 | `v or fallback` gives the value when it is present and non-empty, and the fallback otherwise |
| Ocr.FormFieldDecoding | ocr_pipeline.py:126-131 | read-only is bit 0 and required is bit 1 of the flags, whatever the higher bits hold; a missing or empty name reads `unnamed` |
| Ocr.BitAndPow2 | ocr_pipeline.py:130-131 | masking with `1 << n` is non-zero exactly when binary digit n is 1 |
| Ocr.ExtractFormFields | ocr_pipeline.py:115-147 | one field per widget, in widget order, up to the first widget whose properties raise; the fields built before that raise are kept, and a raise while opening the document or listing widgets gives none; each field's name, value and label are the widget's when present and non-empty, else `unnamed`, `''` and `''`; the type string is kept and the two flag bits are decoded |
| Ocr.PresentLines | ocr_pipeline.py:246-251 | every non-empty OCR line is kept, and nothing else |
| Ocr.PresentLinesAppend | ocr_pipeline.py:246-251 | filtering splits over concatenation, keeps a present line and drops an empty one, so the kept lines come in input order with their multiplicity |
| Ocr.RunOcr | ocr_pipeline.py:237-260 | a raise, a missing or empty first result, or a first result with no present line gives empty text with confidence 0.0 |
| Ocr.RunOcrLines | ocr_pipeline.py:246-253 | the OCR text splits back at its newlines into the texts of the non-empty lines, in order |
| Ocr.RunOcrConfidence | ocr_pipeline.py:254 | the mean confidence lies in [0, 1] when every line's does |
| Ocr.ExtractNativeText | ocr_pipeline.py:43-51 | the native text is the page's text layer stripped of white space at both ends; a raise gives the empty string |
| Ocr.ProcessPage | ocr_pipeline.py:285-333 | a page fails exactly when it needs OCR and preprocessing its image raised; the error is the preprocessing raise's own message; otherwise the page is numbered index + 1 and carries the page's tables and form fields |
| Ocr.PageSourceSelection | ocr_pipeline.py:307-333 | native text with confidence 1.0 when its stripped length exceeds 50; else OCR text when an image came back; else source `error` with empty text and confidence 0.0 |
| Ocr.BaseName | ocr_pipeline.py:278 | the base name is the part of the path after its last `/`, and holds no `/` |
| Ocr.LastIndexOf | main.py:111 | finds the last occurrence of a character, or reports there is none |
| Ocr.ProcessPdf | ocr_pipeline.py:272-341 | a PDF that cannot be opened gives its error |
| Ocr.ProcessPdfPages | ocr_pipeline.py:282-335 | the run succeeds exactly when no page hits a preprocessing raise; it then yields the path's base name and one record per page in order, numbered from 1, each with its own tables and fields; a failed run reports the message of the first page that raised |
| Ocr.ProcessPdfFailure | ocr_pipeline.py:282-341 | a failed run names a first failing page: every earlier page succeeded, and the run's error is that page's preprocessing message, re-raised unchanged |
| Chunking.ChunkText | rag_pipeline.py:69-103 | the source's while loop builds exactly the windows `Chunks` defines |
| Chunking.Windows | rag_pipeline.py:79-100 | window k is the token range starting at 450·k and ending at min(450·k + 500, n), numbered k, carrying the given metadata |
| Chunking.ChunksTile | rag_pipeline.py:55-100 | for a non-blank text the windows tile the tokens: they start at 0 and end at n; each holds 1 to 500 tokens; neighbours share 50 tokens, or all of a shorter last window; every token is covered; there are ceil(n/450) windows |
| Chunking.WindowCountBounds | rag_pipeline.py:79-100 | ceil(n/450) window starts reach past n tokens, and one fewer do not |
| Chunking.RedundantTail | rag_pipeline.py:79-100 | the last window lies inside the one before it exactly when it is at most 50 tokens long |
| Chunking.ThousandTokens | rag_pipeline.py:79-100 | 1000 tokens give the windows [0, 500), [450, 950) and [900, 1000) |
| VectorStore.CollectionName | rag_pipeline.py:115 | a collection name is `doc_` followed by the document id |
| VectorStore.CollectionNameInjective | rag_pipeline.py:115 | different documents get different collections |
| VectorStore.CreateOrGet | rag_pipeline.py:115-127 | afterwards the document's collection exists, and no other collection appears or disappears |
| VectorStore.CreateOrGetIdempotent | rag_pipeline.py:117-125 | getting an existing collection changes nothing |
| VectorStore.DeleteCollection | rag_pipeline.py:303-310 | the answer is true exactly when the collection existed and the store removed it, and then it is gone; on a raise the answer is false and the store is unchanged; other collections are never touched |
| VectorStore.ListDocumentIds | rag_pipeline.py:319-329 | a listing that raises gives no ids; otherwise the ids come from the names that start with `doc_`, in listing order, and every other name is dropped (through `MapPrefixedAppend`) |
| VectorStore.MapPrefixedAppend | rag_pipeline.py:321-325 | listing splits over concatenation, and a single name yields its id when it starts with `doc_` and nothing otherwise, which fixes the filter, the order and the mapping for every listing |
| VectorStore.IdOfNameRoundTrip | rag_pipeline.py:322 | removing every `doc_` from a collection name gives back the id exactly when the id does not contain `doc_` |
| VectorStore.ListRoundTripIff | rag_pipeline.py:321-325 | listing the collections of some documents returns those ids exactly when none of them contains `doc_` |
| VectorStore.ListingMangles | rag_pipeline.py:321-325 | the document `report_doc_0123abcd` is listed as `report_0123abcd` |
| VectorStore.IdOfNameByPrefix | rag_pipeline.py:321-325 | stripping the leading prefix once inverts the collection naming |
| VectorStore.ListByPrefixRoundTrip | rag_pipeline.py:321-325 | the corrected listing returns exactly the documents whose collections are listed, in order |
| VectorStore.ShapeResults | rag_pipeline.py:274-291 | row i becomes the result ranked i + 1, with that row's text and metadata and similarity 1 − distance; no rows, a raise or misaligned rows give no results |
| VectorStore.ResultsOrdered | rag_pipeline.py:276-284 | rows that come nearest first give results with non-increasing similarity and increasing ranks |
| VectorStore.Retrieve | rag_pipeline.py:258-291 | the document's collection exists afterwards and nothing else changes; results are ranked 1, 2, … in row order |
| Ingest.EntryIdInjective | rag_pipeline.py:176-207 | within a document, an entry id determines its page number, its kind (c/t/f) and its number |
| Ingest.PageNumOfEntryId | rag_pipeline.py:176-207 | the page number reads back off an entry id |
| Ingest.PageMetadata | rag_pipeline.py:160-168 | the page metadata has the six page keys plus the caller's keys, and the caller's values win |
| Ingest.PageMetadataDescribesPage | rag_pipeline.py:160-166 | without overrides, the page keys hold the document id, page number, source name and confidence, and `has_tables`/`has_forms` are true exactly when the lists are non-empty |
| Ingest.ProseEntriesLayout | rag_pipeline.py:171-180 | window k of a page becomes entry `{doc}_p{page}_c{k}` carrying the page metadata unchanged |
| Ingest.TableEntryMetadata | rag_pipeline.py:183-190 | a table entry keeps every page key and adds `content_type` = table, `table_id` and `table_accuracy` |
| Ingest.FormEntryMetadata | rag_pipeline.py:198-205 | a form entry keeps every page key and adds `content_type` = form, `field_name` and `field_type` |
| Ingest.PageEntriesCount | rag_pipeline.py:170-210 | a page gives one entry per window, per table and per form field |
| Ingest.DocumentEntriesCount | rag_pipeline.py:155-211 | the document gives the sum over its pages of windows, tables and form fields |
| Ingest.PageEntriesLayout | rag_pipeline.py:172-210 | a page's entry ids follow its windows, then its tables by table id, then its form fields by position |
| Ingest.PageIdsDistinct | rag_pipeline.py:176-207 | a page's ids are pairwise different when its table ids increase, and each names that page |
| Ingest.DocumentIdsDistinct | rag_pipeline.py:155-210 | ids across the document never collide when pages have different numbers and table ids increase |
| Ingest.ProcessedIdsDistinct | rag_pipeline.py:155-210 | indexing what `process_pdf` produced never yields two entries with the same id |
| Ingest.BatchRoundTrip | rag_pipeline.py:172-210 | splitting entries into the parallel id, text and metadata lists and zipping them back are inverse |
| Ingest.Index | rag_pipeline.py:148-239 | afterwards the store holds the document's collection, created if missing, and no other collection changes; the three lists are equally long and hold the document's entries; the batch is submitted exactly when non-empty; indexing fails exactly when a non-empty batch is refused; the summary counts entries and pages |
| Ingest.AppendEntries | rag_pipeline.py:175-210 | appending entries one by one keeps the lists parallel and adds exactly those entries |
| Ingest.AppendPage | rag_pipeline.py:157-210 | one iteration of the page loop appends exactly the page's windows, tables and form fields |
| Ingest.AddDocument | rag_pipeline.py:148-239 | the loop yields exactly the result `Index` describes |
| Answer.NewHandler | rag_pipeline.py:345-373 | the key argument wins when truthy, else the environment's; the handler is enabled exactly when that key is truthy and the client builds |
| Answer.KeyPreview | rag_pipeline.py:349-354 | a key longer than 12 shows its first 8 and last 4 characters around `...`; a shorter one shows one `*` per character |
| Answer.KeyPreviewHides | rag_pipeline.py:350-354 | the preview of a long key depends only on its first 8 and last 4 characters |
| Answer.PromptShape | rag_pipeline.py:408-429 | the prompt is the system message, the last min(6, n) history entries unchanged and in order, then one user turn made of the context header, the context (the chunks rendered `[Page p] text` and joined by blank lines) and the question header with the question, in that order and nothing else |
| Answer.ContextLayout | rag_pipeline.py:403-406 | every chunk's line appears in the context at its offset, in input order, with blank lines between |
| Answer.ToSource | rag_pipeline.py:442-449 | a source keeps the page number (absent when missing) and the similarity, and previews the first 200 characters followed by `...` |
| Answer.Sources | rag_pipeline.py:442-449 | the sources are the first min(3, n) chunks, in order |
| Answer.GenerateAnswer | rag_pipeline.py:394-464 | a disabled handler gives the fixed notice with an error; a raising call gives `Error generating answer: ` plus the message, no sources and an error; otherwise the call's text, the first three sources, the model and the chunk count |
| Answer.ErrorIffFailure | rag_pipeline.py:394-464 | an answer carries an error exactly when the handler is disabled or the call raised, and then it cites nothing |
| Answer.DisabledIgnoresClient | rag_pipeline.py:394-399 | a disabled handler's answer does not depend on the client |
| Service.Stem | main.py:111 | a stem is a prefix of the file name |
| Service.StemOfPdf | main.py:111 | the stem of `name.pdf` is `name` |
| Service.SpacesToUnderscores | main.py:111 | every space becomes an underscore and every other character stays |
| Service.GenerateDocumentId | main.py:108-112 | an id is at most 20 characters of the cleaned stem with no spaces, an underscore, then the first 8 digest characters |
| Service.DocumentIdInjective | main.py:108-112 | for full digests, two ids are equal exactly when the cleaned stems and the first 8 digest characters agree |
| Service.Upload | main.py:150-206 | a non-PDF name is refused unchanged; success comes exactly when extraction and indexing succeed, and adds or replaces only this id's ready record with the page and chunk counts; the success body carries the id, the file name, status `success`, the extraction result and the indexing summary; an extraction or indexing error is reported as `Error processing PDF: ` followed by its message, and leaves the registry alone; once extraction succeeds the store holds this id's collection, even when indexing then fails, and no other collection changes; otherwise the store is unchanged |
| Service.UploadPreserves | main.py:185-191 | uploading keeps every entry under its own id, ready, with its collection; re-uploading an id does not grow the registry |
| Service.OcrOnly | main.py:354-379 | a non-PDF name is refused; otherwise the extraction result, or `Error processing PDF: ` followed by the extraction's message |
| Service.Chat | main.py:229-275 | an unknown id is not found and changes nothing; with no retrieved chunks the fixed answer comes back without calling the LLM; otherwise the LLM's reply, tagged with the id |
| Service.ChatPreserves | main.py:234-267 | asking keeps the state consistent and never changes the registry; with nothing retrieved the reply does not depend on the handler or the client |
| Service.ListDocuments | main.py:286-289 | the listing holds exactly the stored records, and `total` is the number of entries |
| Service.ListingTotal | main.py:286-289 | in a consistent registry the number of listed records equals `total` |
| Service.GetDocumentInfo | main.py:303-306 | a stored id gives its record; any other gives not found |
| Service.Delete | main.py:320-340 | an unknown id is not found and changes nothing; otherwise exactly that entry goes and the reply is success whatever the store answered; the collection goes only when the store deleted it, and no other collection changes |
| Service.DeletePreserves | main.py:320-331 | deleting keeps the state consistent and shrinks the registry by one |
| Service.DeleteCanOrphan | main.py:324-329 | when the store raises, the reply is still success and the entry is gone, but its collection stays with no entry naming it |

## Left out

- Floating point: accuracy, confidence and similarity are mathematical reals. `round(..., 2)` of the table accuracy, `round(confidence, 4)` of the OCR confidence, and the widget rectangle are not modelled.
- Values.FloatText: a float renders with at most four decimals, an approximation of Python's shortest round-trip `repr`. Floats reach text only through the page label of a retrieved chunk whose `page_num` metadata is a float, since the store's rows are an input.
- The extraction libraries (PyMuPDF, Camelot, pdf2image, OpenCV preprocessing, PaddleOCR, pandas markdown) are inputs. Preprocessing is reduced to "gave an image for OCR" or "raised".
- Ocr.RunOcr: the result list has only its first entry. A line's text and confidence are taken as present whenever the line is non-empty.
- The tokenizer (tiktoken `cl100k_base`) is an arbitrary pair of functions. Chunk boundaries are on token indices, and decoded text is not related to the input.
- Embeddings, the Chroma store's contents, nearest-neighbour search and `top_k` are not modelled. The query's rows are an input, and a collection is only a name in a set.
- Ingest.Index: creating or getting the collection is taken to succeed. A raise there would end `add_document` before any entry is built.
- VectorStore.Retrieve: a raise while creating the collection, which the source turns into an empty result, is not modelled separately. The query raising is covered by `QueryRaises`.
- Ingest.AppendPage: it appends the page's windows, tables and form fields through one loop over their concatenation, not through three loops.
- The OpenAI client's construction and call are inputs. The model name, temperature, `max_tokens` and response parsing are not modelled, and an answer text of `None` is not distinguished.
- MD5 hashing: the digest is a string parameter.
- Service.Stem: only plain file names are modelled; directory parts of `Path(filename).stem` are not.
- Service.ListDocuments: the records come back as a set, so the listing order of `dict.values()` is not modelled.
- Service.Chat: a raise anywhere else in the handler, which the source reports as a server error, cannot happen in the model. Retrieval and answer generation catch their own raises.
- FastAPI routing, CORS, the health and root endpoints, temporary files, async I/O, logging, dotenv and the lazy pipeline singletons are left out.

## Findings

| source | as written | input that shows it | evidently intended | confidence | as-written member | corrected member |
|---|---|---|---|---|---|---|
| rag_pipeline.py:321-325 | `list_documents` turns a collection name into an id with `name.replace('doc_', '')`, which deletes every `doc_` in the name, not only the leading prefix | a document whose id contains `doc_`, such as `report_doc_0123abcd` (an upload named `report doc.pdf`), has the collection `doc_report_doc_0123abcd` and is listed as `report_0123abcd` | strip the leading `doc_` once, so that listing inverts `create_or_get_collection`'s naming | high (not executed) | VectorStore.ListingMangles | VectorStore.ListByPrefixRoundTrip |
