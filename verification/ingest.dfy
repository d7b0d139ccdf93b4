/**
 Indexing a processed document (`RAGPipeline.add_document`). Every page
 contributes, in this order, the token windows of its text, one entry per table
 and one entry per form field; each entry has an id, a text to embed and a
 metadata map. The entries are embedded and added to the document's collection
 in one batch, and a summary is returned. Embedding and storing are the
 backend's business: whether that step raises is an input.
 */
module Ingest {
  import opened Wrappers
  import opened Text
  import opened Values
  import opened Ocr
  import opened Chunking
  import opened VectorStore

  /** The three kinds of entry a page contributes. */
  datatype Kind = ProseKind | TableKind | FormKind

  /** The letter an entry id carries for its kind. */
  function Tag(k: Kind): char {
    match k
    case ProseKind => 'c'
    case TableKind => 't'
    case FormKind => 'f'
  }

  /** `{document_id}_p{page_num}_{tag}{n}`: `n` is the window index of a text
      chunk, the table id of a table, the position of a form field. */
  function EntryId(documentId: string, pageNum: nat, kind: Kind, n: nat): string {
    documentId + "_p" + NatToString(pageNum) + "_" + [Tag(kind)] + NatToString(n)
  }

  /** Within one document, an id determines the page, the kind and the number. */
  lemma EntryIdInjective(d: string, p1: nat, k1: Kind, n1: nat, p2: nat, k2: Kind, n2: nat)
    requires EntryId(d, p1, k1, n1) == EntryId(d, p2, k2, n2)
    ensures p1 == p2 && k1 == k2 && n1 == n2
  {
    var x1, x2 := [Tag(k1)] + NatToString(n1), [Tag(k2)] + NatToString(n2);
    assert EntryId(d, p1, k1, n1) == d + "_p" + (NatToString(p1) + "_" + x1);
    assert EntryId(d, p2, k2, n2) == d + "_p" + (NatToString(p2) + "_" + x2);
    assert EntryId(d, p1, k1, n1)[|d| + 2..] == NatToString(p1) + "_" + x1;
    DigitsThenSeparator(NatToString(p1), x1, NatToString(p2), x2, '_');
    NatToStringInjective(p1, p2);
    assert x1[0] == x2[0];
    assert x1[1..] == NatToString(n1) && x2[1..] == NatToString(n2);
    NatToStringInjective(n1, n2);
  }

  /** The page number read back off an entry id of document `d`. */
  function PageNumOf(d: string, id: string): nat {
    if |id| < |d| + 2 then 0
    else
      var rest := id[|d| + 2..];
      var n := LeadingDigits(rest);
      assert AllDigits(rest[..n]);
      DigitsValue(rest[..n])
  }

  lemma PageNumOfEntryId(d: string, p: nat, kind: Kind, n: nat)
    ensures PageNumOf(d, EntryId(d, p, kind, n)) == p
  {
    var x := [Tag(kind)] + NatToString(n);
    var id := EntryId(d, p, kind, n);
    assert id == d + "_p" + (NatToString(p) + "_" + x);
    var rest := id[|d| + 2..];
    assert rest == NatToString(p) + "_" + x;
    LeadingDigitsBeforeSeparator(NatToString(p), '_', x);
    assert rest[..LeadingDigits(rest)] == NatToString(p);
    NatToStringRoundTrip(p);
  }

  // ---------------------------------------------------------------------------
  // Entries

  datatype Entry = Entry(id: string, text: string, metadata: Metadata)

  /** The keys every page's metadata starts from. */
  const PageKeys: set<string> := {"document_id", "page_num", "source", "confidence", "has_tables", "has_forms"}

  /** The metadata of a page's entries: what the page record says about the
      page, then the caller's metadata, whose keys win. */
  function PageMetadata(documentId: string, page: Page, extra: Metadata): (m: Metadata)
    ensures m.Keys == PageKeys + extra.Keys
    ensures forall k :: k in extra ==> m[k] == extra[k]
  {
    map[
      "document_id" := Str(documentId),
      "page_num" := Int(page.pageNum),
      "source" := Str(SourceName(page.source)),
      "confidence" := Float(page.confidence),
      "has_tables" := Bool(|page.tables| > 0),
      "has_forms" := Bool(|page.forms| > 0)] + extra
  }

  /** Where the caller does not override them, the page keys describe the page. */
  lemma PageMetadataDescribesPage(documentId: string, page: Page, extra: Metadata)
    requires extra.Keys !! PageKeys
    ensures var m := PageMetadata(documentId, page, extra);
            && m["document_id"] == Str(documentId)
            && m["page_num"] == Int(page.pageNum)
            && m["source"] == Str(SourceName(page.source))
            && m["confidence"] == Float(page.confidence)
            && (m["has_tables"] == Bool(true) <==> |page.tables| > 0)
            && (m["has_forms"] == Bool(true) <==> |page.forms| > 0)
  {
    var m := PageMetadata(documentId, page, extra);
    assert "document_id" in PageKeys && "page_num" in PageKeys && "source" in PageKeys;
    assert "confidence" in PageKeys && "has_tables" in PageKeys && "has_forms" in PageKeys;
  }

  /** The entries of the page text's token windows (none for an empty text, which
      is skipped; a blank one gives no windows either). */
  function ProseEntries(tok: Tokenizer, documentId: string, page: Page, base: Metadata): (es: seq<Entry>)
  {
    ChunkEntries(documentId, page.pageNum, if page.text == "" then [] else Chunks(tok, page.text, base))
  }

  function ChunkEntries(documentId: string, pageNum: nat, cs: seq<Chunk>): seq<Entry> {
    seq(|cs|, k requires 0 <= k < |cs| => Entry(EntryId(documentId, pageNum, ProseKind, cs[k].chunkId), cs[k].text, cs[k].metadata))
  }

  function TableEntry(documentId: string, pageNum: nat, base: Metadata, t: Table): Entry {
    Entry(
      EntryId(documentId, pageNum, TableKind, t.tableId),
      "Table " + NatToString(t.tableId) + " (Page " + NatToString(pageNum) + "):\n" + t.markdown,
      base + map["content_type" := Str("table"), "table_id" := Int(t.tableId), "table_accuracy" := Float(t.accuracy)])
  }

  function TableEntries(documentId: string, page: Page, base: Metadata): seq<Entry> {
    seq(|page.tables|, j requires 0 <= j < |page.tables| => TableEntry(documentId, page.pageNum, base, page.tables[j]))
  }

  function FormEntry(documentId: string, pageNum: nat, base: Metadata, f: FormField, idx: nat): Entry {
    Entry(
      EntryId(documentId, pageNum, FormKind, idx),
      "Form Field (Page " + NatToString(pageNum) + "): " + f.fieldName + " (" + f.fieldType + "): " + f.fieldValue,
      base + map["content_type" := Str("form"), "field_name" := Str(f.fieldName), "field_type" := Str(f.fieldType)])
  }

  function FormEntries(documentId: string, page: Page, base: Metadata): seq<Entry> {
    seq(|page.forms|, j requires 0 <= j < |page.forms| => FormEntry(documentId, page.pageNum, base, page.forms[j], j))
  }

  /** Everything one page contributes, in the order the source appends it: the
      windows, then the tables, then the form fields. */
  function PageEntries(tok: Tokenizer, documentId: string, page: Page, extra: Metadata): seq<Entry> {
    var base := PageMetadata(documentId, page, extra);
    ProseEntries(tok, documentId, page, base) + TableEntries(documentId, page, base) + FormEntries(documentId, page, base)
  }

  /** Everything the pages contribute, page after page. */
  function DocumentEntries(tok: Tokenizer, documentId: string, pages: seq<Page>, extra: Metadata): seq<Entry> {
    Flatten(PageGroups(tok, documentId, pages, extra))
  }

  /** Each page's entries, page by page. */
  function PageGroups(tok: Tokenizer, documentId: string, pages: seq<Page>, extra: Metadata): (gs: seq<seq<Entry>>)
    ensures |gs| == |pages|
  {
    seq(|pages|, k requires 0 <= k < |pages| => PageEntries(tok, documentId, pages[k], extra))
  }

  /** The groups one after another. */
  function Flatten<T>(gs: seq<seq<T>>): seq<T> {
    if |gs| == 0 then [] else Flatten(gs[..|gs| - 1]) + gs[|gs| - 1]
  }

  // ---------------------------------------------------------------------------
  // Counting

  /** The number of token windows of a page text. */
  function ProseCount(tok: Tokenizer, text: string): nat {
    if IsBlank(text) then 0 else WindowCount(|tok.encode(text)|)
  }

  /** Windows plus tables plus form fields, summed over the pages. */
  function TotalEntries(tok: Tokenizer, pages: seq<Page>): nat
    decreases |pages|
  {
    if |pages| == 0 then 0
    else
      var p := pages[|pages| - 1];
      TotalEntries(tok, pages[..|pages| - 1]) + ProseCount(tok, p.text) + |p.tables| + |p.forms|
  }

  /** A page contributes one entry per window, per table and per form field. */
  lemma PageEntriesCount(tok: Tokenizer, documentId: string, page: Page, extra: Metadata)
    ensures |PageEntries(tok, documentId, page, extra)| == ProseCount(tok, page.text) + |page.tables| + |page.forms|
  {
  }

  /** The batch holds one entry per window, per table and per form field of every page. */
  lemma {:induction false} DocumentEntriesCount(tok: Tokenizer, documentId: string, pages: seq<Page>, extra: Metadata)
    ensures |DocumentEntries(tok, documentId, pages, extra)| == TotalEntries(tok, pages)
    decreases |pages|
  {
    if |pages| > 0 {
      var i := |pages| - 1;
      DocumentEntriesCount(tok, documentId, pages[..i], extra);
      DocumentEntriesSnoc(tok, documentId, pages, extra, i);
      PageEntriesCount(tok, documentId, pages[i], extra);
      assert pages[..i + 1] == pages;
    }
  }

  lemma DocumentEntriesSnoc(tok: Tokenizer, documentId: string, pages: seq<Page>, extra: Metadata, i: nat)
    requires i < |pages|
    ensures DocumentEntries(tok, documentId, pages[..i + 1], extra)
              == DocumentEntries(tok, documentId, pages[..i], extra) + PageEntries(tok, documentId, pages[i], extra)
  {
    var gs := PageGroups(tok, documentId, pages[..i + 1], extra);
    assert gs[..i] == PageGroups(tok, documentId, pages[..i], extra);
  }

  // ---------------------------------------------------------------------------
  // What the entries say

  /** The windows of a page text become entries numbered from 0 that carry the
      page metadata unchanged. */
  lemma ProseEntriesLayout(tok: Tokenizer, documentId: string, page: Page, base: Metadata)
    ensures var es := ProseEntries(tok, documentId, page, base);
            && |es| == ProseCount(tok, page.text)
            && forall k :: 0 <= k < |es| ==>
                 es[k].id == EntryId(documentId, page.pageNum, ProseKind, k) && es[k].metadata == base
  {
  }

  /** A table's entry is marked as a table, names it by id, and keeps every other
      key of the page metadata. */
  lemma TableEntryMetadata(documentId: string, pageNum: nat, base: Metadata, t: Table)
    ensures var m := TableEntry(documentId, pageNum, base, t).metadata;
            && m.Keys == base.Keys + {"content_type", "table_id", "table_accuracy"}
            && m["content_type"] == Str("table")
            && m["table_id"] == Int(t.tableId)
            && m["table_accuracy"] == Float(t.accuracy)
            && forall key :: key in base && key !in {"content_type", "table_id", "table_accuracy"} ==> m[key] == base[key]
  {
  }

  /** A form field's entry is marked as a form, names the field and its type, and
      keeps every other key of the page metadata. */
  lemma FormEntryMetadata(documentId: string, pageNum: nat, base: Metadata, f: FormField, idx: nat)
    ensures var m := FormEntry(documentId, pageNum, base, f, idx).metadata;
            && m.Keys == base.Keys + {"content_type", "field_name", "field_type"}
            && m["content_type"] == Str("form")
            && m["field_name"] == Str(f.fieldName)
            && m["field_type"] == Str(f.fieldType)
            && forall key :: key in base && key !in {"content_type", "field_name", "field_type"} ==> m[key] == base[key]
  {
  }

  predicate DistinctIds(es: seq<Entry>) {
    forall i, j :: 0 <= i < j < |es| ==> es[i].id != es[j].id
  }

  /** What tells a page's entries apart: kind and number. */
  datatype Key = Key(kind: Kind, n: nat)

  /** The keys of a page's entries, in order: the windows numbered from 0, the
      tables by table id, the form fields by position. */
  function PageEntryKeys(tok: Tokenizer, page: Page): (ks: seq<Key>)
  {
    ProseKeys(ProseCount(tok, page.text)) + TableKeys(page.tables) + FormKeys(|page.forms|)
  }

  function ProseKeys(n: nat): seq<Key> {
    seq(n, k requires 0 <= k => Key(ProseKind, k))
  }

  function TableKeys(tables: seq<Table>): seq<Key> {
    seq(|tables|, j requires 0 <= j < |tables| => Key(TableKind, tables[j].tableId))
  }

  function FormKeys(n: nat): seq<Key> {
    seq(n, j requires 0 <= j => Key(FormKind, j))
  }

  /** Entry `i` has the id of key `i`, on page `p`. */
  predicate IdsMatch(documentId: string, p: nat, es: seq<Entry>, ks: seq<Key>) {
    |es| == |ks| && forall i :: 0 <= i < |es| ==> es[i].id == EntryId(documentId, p, ks[i].kind, ks[i].n)
  }

  lemma IdsMatchConcat(documentId: string, p: nat, es1: seq<Entry>, ks1: seq<Key>, es2: seq<Entry>, ks2: seq<Key>)
    requires IdsMatch(documentId, p, es1, ks1) && IdsMatch(documentId, p, es2, ks2)
    ensures IdsMatch(documentId, p, es1 + es2, ks1 + ks2)
  {
    forall i | 0 <= i < |es1 + es2|
      ensures (es1 + es2)[i].id == EntryId(documentId, p, (ks1 + ks2)[i].kind, (ks1 + ks2)[i].n)
    {
      if i < |es1| {
        assert (es1 + es2)[i] == es1[i] && (ks1 + ks2)[i] == ks1[i];
      } else {
        assert (es1 + es2)[i] == es2[i - |es1|] && (ks1 + ks2)[i] == ks2[i - |ks1|];
      }
    }
  }

  /** The ids of a page's entries follow its keys: windows, then tables, then
      form fields. */
  lemma PageEntriesLayout(tok: Tokenizer, documentId: string, page: Page, extra: Metadata)
    ensures IdsMatch(documentId, page.pageNum, PageEntries(tok, documentId, page, extra), PageEntryKeys(tok, page))
  {
    var base := PageMetadata(documentId, page, extra);
    var a, b, c := ProseEntries(tok, documentId, page, base), TableEntries(documentId, page, base), FormEntries(documentId, page, base);
    var ka, kb, kc := ProseKeys(ProseCount(tok, page.text)), TableKeys(page.tables), FormKeys(|page.forms|);
    ProseEntriesLayout(tok, documentId, page, base);
    assert IdsMatch(documentId, page.pageNum, a, ka);
    assert IdsMatch(documentId, page.pageNum, b, kb);
    assert IdsMatch(documentId, page.pageNum, c, kc);
    IdsMatchConcat(documentId, page.pageNum, a, ka, b, kb);
    IdsMatchConcat(documentId, page.pageNum, a + b, ka + kb, c, kc);
    assert PageEntries(tok, documentId, page, extra) == a + b + c;
  }

  lemma PageKeysDistinct(tok: Tokenizer, page: Page)
    requires IdsIncrease(page.tables)
    ensures var ks := PageEntryKeys(tok, page);
            forall i, j :: 0 <= i < j < |ks| ==> ks[i] != ks[j]
  {
  }

  /** Within a page, ids differ because kinds or numbers do, given that table ids increase. */
  lemma PageIdsDistinct(tok: Tokenizer, documentId: string, page: Page, extra: Metadata)
    requires IdsIncrease(page.tables)
    ensures DistinctIds(PageEntries(tok, documentId, page, extra))
    ensures var es := PageEntries(tok, documentId, page, extra);
            forall i :: 0 <= i < |es| ==> PageNumOf(documentId, es[i].id) == page.pageNum
  {
    var es := PageEntries(tok, documentId, page, extra);
    var ks := PageEntryKeys(tok, page);
    PageEntriesLayout(tok, documentId, page, extra);
    PageKeysDistinct(tok, page);
    forall i, j | 0 <= i < j < |es|
      ensures es[i].id != es[j].id
    {
      if es[i].id == es[j].id {
        EntryIdInjective(documentId, page.pageNum, ks[i].kind, ks[i].n, page.pageNum, ks[j].kind, ks[j].n);
      }
    }
    forall i | 0 <= i < |es|
      ensures PageNumOf(documentId, es[i].id) == page.pageNum
    {
      PageNumOfEntryId(documentId, page.pageNum, ks[i].kind, ks[i].n);
    }
  }

  function PageNums(pages: seq<Page>): (ns: seq<nat>)
    ensures |ns| == |pages| && forall k :: 0 <= k < |pages| ==> ns[k] == pages[k].pageNum
  {
    seq(|pages|, k requires 0 <= k < |pages| => pages[k].pageNum)
  }

  predicate DistinctPageNums(pages: seq<Page>) {
    forall i, j :: 0 <= i < j < |pages| ==> pages[i].pageNum != pages[j].pageNum
  }

  /** The ids of a document's entries never collide (so adding the batch cannot
      trip over duplicate ids), provided page numbers differ and each page's
      table ids increase; each id names the page it came from. */
  lemma DocumentIdsDistinct(tok: Tokenizer, documentId: string, pages: seq<Page>, extra: Metadata)
    requires DistinctPageNums(pages)
    requires forall k :: 0 <= k < |pages| ==> IdsIncrease(pages[k].tables)
    ensures DistinctIds(DocumentEntries(tok, documentId, pages, extra))
  {
    var gs := PageGroups(tok, documentId, pages, extra);
    forall k | 0 <= k < |pages|
      ensures DistinctIds(gs[k])
      ensures forall i :: 0 <= i < |gs[k]| ==> PageNumOf(documentId, gs[k][i].id) == PageNums(pages)[k]
    {
      PageIdsDistinct(tok, documentId, pages[k], extra);
    }
    GroupsDistinct(documentId, gs, PageNums(pages));
  }

  /** Groups whose ids are distinct within each group and name distinct pages
      across groups flatten to distinct ids. */
  lemma {:induction false} GroupsDistinct(d: string, gs: seq<seq<Entry>>, ns: seq<nat>)
    requires |gs| == |ns|
    requires forall k :: 0 <= k < |gs| ==> DistinctIds(gs[k])
    requires forall k, i :: 0 <= k < |gs| && 0 <= i < |gs[k]| ==> PageNumOf(d, gs[k][i].id) == ns[k]
    requires forall k, l :: 0 <= k < l < |ns| ==> ns[k] != ns[l]
    ensures DistinctIds(Flatten(gs))
    ensures forall i :: 0 <= i < |Flatten(gs)| ==> PageNumOf(d, Flatten(gs)[i].id) in ns
    decreases |gs|
  {
    if |gs| > 0 {
      var n := |gs| - 1;
      var pre, pns := gs[..n], ns[..n];
      assert forall k :: 0 <= k < n ==> pre[k] == gs[k] && pns[k] == ns[k];
      GroupsDistinct(d, pre, pns);
      assert ns == pns + [ns[n]];
      assert ns[n] !in pns;
      AppendPageDistinct(d, Flatten(pre), gs[n], pns, ns[n]);
    }
  }

  /** Appending the entries of a page whose number is new keeps ids distinct. */
  lemma AppendPageDistinct(d: string, a: seq<Entry>, b: seq<Entry>, ns: seq<nat>, p: nat)
    requires DistinctIds(a) && DistinctIds(b)
    requires forall i :: 0 <= i < |a| ==> PageNumOf(d, a[i].id) in ns
    requires forall j :: 0 <= j < |b| ==> PageNumOf(d, b[j].id) == p
    requires p !in ns
    ensures DistinctIds(a + b)
    ensures forall i :: 0 <= i < |a + b| ==> PageNumOf(d, (a + b)[i].id) in ns + [p]
  {
    SeparatedByPage(d, a, b, ns, p);
    DistinctConcat(a, b);
    PageNumsConcat(d, a, b, ns, p);
  }

  lemma SeparatedByPage(d: string, a: seq<Entry>, b: seq<Entry>, ns: seq<nat>, p: nat)
    requires forall i :: 0 <= i < |a| ==> PageNumOf(d, a[i].id) in ns
    requires forall j :: 0 <= j < |b| ==> PageNumOf(d, b[j].id) == p
    requires p !in ns
    ensures forall i, j :: 0 <= i < |a| && 0 <= j < |b| ==> a[i].id != b[j].id
  {
  }

  lemma PageNumsConcat(d: string, a: seq<Entry>, b: seq<Entry>, ns: seq<nat>, p: nat)
    requires forall i :: 0 <= i < |a| ==> PageNumOf(d, a[i].id) in ns
    requires forall j :: 0 <= j < |b| ==> PageNumOf(d, b[j].id) == p
    ensures forall i :: 0 <= i < |a + b| ==> PageNumOf(d, (a + b)[i].id) in ns + [p]
  {
    forall i | 0 <= i < |a + b|
      ensures PageNumOf(d, (a + b)[i].id) in ns + [p]
    {
      if i < |a| {
        assert (a + b)[i] == a[i];
      } else {
        assert (a + b)[i] == b[i - |a|];
      }
    }
  }

  lemma DistinctConcat(a: seq<Entry>, b: seq<Entry>)
    requires DistinctIds(a) && DistinctIds(b)
    requires forall i, j :: 0 <= i < |a| && 0 <= j < |b| ==> a[i].id != b[j].id
    ensures DistinctIds(a + b)
  {
    var es := a + b;
    forall i, j | 0 <= i < j < |es|
      ensures es[i].id != es[j].id
    {
      if j < |a| {
        assert es[i] == a[i] && es[j] == a[j];
      } else if i >= |a| {
        assert es[i] == b[i - |a|] && es[j] == b[j - |a|];
      } else {
        assert es[i] == a[i] && es[j] == b[j - |a|];
      }
    }
  }

  /** The pages `process_pdf` produces satisfy the conditions above, so indexing
      its output never produces two entries with the same id. */
  lemma ProcessedIdsDistinct(tok: Tokenizer, documentId: string, file: string, pdf: PdfRead, extra: Metadata)
    ensures ProcessPdf(file, pdf).Ok? ==>
              DistinctIds(DocumentEntries(tok, documentId, ProcessPdf(file, pdf).value.pages, extra))
  {
    if ProcessPdf(file, pdf).Ok? {
      ProcessPdfPages(file, pdf);
      var pages := ProcessPdf(file, pdf).value.pages;
      DocumentIdsDistinct(tok, documentId, pages, extra);
    }
  }

  // ---------------------------------------------------------------------------
  // The batch and the summary

  /** The three parallel lists handed to the store: ids, texts, metadata. */
  datatype Batch = Batch(ids: seq<string>, texts: seq<string>, metadatas: seq<Metadata>)

  predicate Parallel(b: Batch) {
    |b.ids| == |b.texts| == |b.metadatas|
  }

  function EntriesOf(b: Batch): (es: seq<Entry>)
    requires Parallel(b)
  {
    seq(|b.ids|, i requires 0 <= i < |b.ids| => Entry(b.ids[i], b.texts[i], b.metadatas[i]))
  }

  function BatchOf(es: seq<Entry>): (b: Batch)
    ensures Parallel(b) && |b.ids| == |es|
  {
    Batch(
      seq(|es|, i requires 0 <= i < |es| => es[i].id),
      seq(|es|, i requires 0 <= i < |es| => es[i].text),
      seq(|es|, i requires 0 <= i < |es| => es[i].metadata))
  }

  /** Splitting entries into the three lists and zipping them back are inverse. */
  lemma BatchRoundTrip(es: seq<Entry>, b: Batch)
    ensures EntriesOf(BatchOf(es)) == es
    ensures Parallel(b) ==> BatchOf(EntriesOf(b)) == b
  {
  }

  /** Whether embedding the texts and adding the batch goes through or raises. */
  datatype Backend = Accepts | Raises(message: string)

  datatype Summary = Summary(documentId: string, totalChunks: nat, totalPages: nat, collectionName: string, status: string)

  /** The store afterwards, the batch built, whether it was handed to the store,
      and the summary (or the raise that ended indexing). */
  datatype Indexed = Indexed(store: Collections, batch: Batch, submitted: bool, summary: Result<Summary>)

  /** `add_document`: the collection is created first; the batch is handed to the
      backend only when it is non-empty; a raise there ends indexing. */
  function Index(tok: Tokenizer, store: Collections, documentId: string, pages: seq<Page>, extra: Metadata, backend: Backend): (r: Indexed)
    ensures r.store == CreateOrGet(store, documentId)
    ensures CollectionName(documentId) in r.store
    ensures Parallel(r.batch) && |r.batch.ids| == TotalEntries(tok, pages)
    ensures EntriesOf(r.batch) == DocumentEntries(tok, documentId, pages, extra)
    ensures r.submitted <==> TotalEntries(tok, pages) > 0
    ensures r.summary.Err? <==> TotalEntries(tok, pages) > 0 && backend.Raises?
    ensures r.summary.Ok? ==>
              && r.summary.value.documentId == documentId
              && r.summary.value.totalChunks == TotalEntries(tok, pages)
              && r.summary.value.totalPages == |pages|
              && r.summary.value.collectionName == CollectionName(documentId)
              && r.summary.value.status == "success"
  {
    DocumentEntriesCount(tok, documentId, pages, extra);
    BatchRoundTrip(DocumentEntries(tok, documentId, pages, extra), Batch([], [], []));
    var batch := BatchOf(DocumentEntries(tok, documentId, pages, extra));
    var submitted := |batch.texts| > 0;
    var summary :=
      if submitted && backend.Raises? then Err(backend.message)
      else Ok(Summary(documentId, |batch.texts|, |pages|, CollectionName(documentId), "success"));
    Indexed(CreateOrGet(store, documentId), batch, submitted, summary)
  }

  lemma EntriesOfSnoc(b: Batch, e: Entry)
    requires Parallel(b)
    ensures EntriesOf(Batch(b.ids + [e.id], b.texts + [e.text], b.metadatas + [e.metadata])) == EntriesOf(b) + [e]
  {
  }

  /** Appends each entry's id, text and metadata to the three lists. */
  method AppendEntries(b: Batch, es: seq<Entry>) returns (r: Batch)
    requires Parallel(b)
    ensures Parallel(r) && EntriesOf(r) == EntriesOf(b) + es
  {
    r := b;
    var i := 0;
    while i < |es|
      invariant 0 <= i <= |es|
      invariant Parallel(r) && EntriesOf(r) == EntriesOf(b) + es[..i]
    {
      EntriesOfSnoc(r, es[i]);
      r := Batch(r.ids + [es[i].id], r.texts + [es[i].text], r.metadatas + [es[i].metadata]);
      assert es[..i + 1] == es[..i] + [es[i]];
      i := i + 1;
    }
    assert es[..i] == es;
  }


  /** One iteration of the page loop: the page's windows, then its tables, then
      its form fields are appended to the lists. */
  method AppendPage(tok: Tokenizer, documentId: string, page: Page, extra: Metadata, b: Batch) returns (r: Batch)
    requires Parallel(b)
    ensures Parallel(r) && EntriesOf(r) == EntriesOf(b) + PageEntries(tok, documentId, page, extra)
  {
    var base := PageMetadata(documentId, page, extra);
    var chunks := [];
    if page.text != "" {
      chunks := ChunkText(tok, page.text, base);
    }
    var prose, tables, forms :=
      ChunkEntries(documentId, page.pageNum, chunks), TableEntries(documentId, page, base), FormEntries(documentId, page, base);
    assert PageEntries(tok, documentId, page, extra) == prose + tables + forms;
    r := AppendEntries(b, prose + tables + forms);
  }

  /** `add_document` step by step: the page loop appends each page's windows,
      tables and form fields to the parallel lists; it builds exactly the batch
      and summary `Index` describes. */
  method AddDocument(tok: Tokenizer, store: Collections, documentId: string, pages: seq<Page>, extra: Metadata, backend: Backend)
    returns (r: Indexed)
    ensures r == Index(tok, store, documentId, pages, extra, backend)
  {
    var store' := CreateOrGet(store, documentId);
    var batch := Batch([], [], []);
    var i := 0;
    while i < |pages|
      invariant 0 <= i <= |pages|
      invariant Parallel(batch) && EntriesOf(batch) == DocumentEntries(tok, documentId, pages[..i], extra)
    {
      batch := AppendPage(tok, documentId, pages[i], extra, batch);
      DocumentEntriesSnoc(tok, documentId, pages, extra, i);
      i := i + 1;
    }
    assert pages[..i] == pages;
    BatchRoundTrip(DocumentEntries(tok, documentId, pages, extra), batch);
    var submitted := |batch.texts| > 0;
    var summary :=
      if submitted && backend.Raises? then Err(backend.message)
      else Ok(Summary(documentId, |batch.texts|, |pages|, CollectionName(documentId), "success"));
    r := Indexed(store', batch, submitted, summary);
  }
}
