/**
 Page assembly of the OCR pipeline (ocr_pipeline.py): for every page of a PDF,
 the tables, the form fields and one text source — the page's native text
 layer when it is substantial, otherwise the OCR engine's reading of the
 rasterised page, otherwise nothing.

 The libraries that look at the PDF (PyMuPDF, Camelot, pdf2image, OpenCV,
 PaddleOCR) are not modelled; what each returned, or that it raised, is an
 input to the functions below (`TableRead`, `WidgetRead`, `NativeRead`,
 `Raster`, `OcrOutput`).
 */
module Ocr {
  import opened Wrappers
  import opened Text

  /** Which extractor supplied a page's text. */
  datatype Source = Native | Recognised | Failed

  /** The `source` string a page record carries. */
  function SourceName(s: Source): string {
    match s
    case Native => "native"
    case Recognised => "ocr"
    case Failed => "error"
  }

  // ---------------------------------------------------------------------------
  // Tables

  /** One table as Camelot parsed it: the data frame's rows and column count, the
      parsing report's accuracy (absent: looking it up raises) and the markdown
      rendering (absent: rendering raises). */
  datatype RawTable = RawTable(
    cells: seq<seq<string>>,
    columns: nat,
    accuracy: Option<real>,
    markdown: Option<string>)

  /** What one `camelot.read_pdf` call gave back. */
  datatype TableRead = Found(tables: seq<RawTable>) | ReadRaises

  /** A table record of a page. */
  datatype Table = Table(
    tableId: nat,
    accuracy: real,
    rows: nat,
    columns: nat,
    data: seq<seq<string>>,
    headers: seq<string>,
    markdown: string)

  /** pandas' `df.empty`: no rows or no columns. */
  predicate EmptyFrame(t: RawTable) {
    |t.cells| == 0 || t.columns == 0
  }

  /** Building the record for a non-empty table does not raise. */
  predicate Converts(t: RawTable) {
    t.accuracy.Some? && t.markdown.Some?
  }

  function ToTable(t: RawTable, id: nat): Table
    requires !EmptyFrame(t) && Converts(t)
  {
    Table(id, t.accuracy.value, |t.cells|, t.columns, t.cells, t.cells[0], t.markdown.value)
  }

  predicate IdsIncrease(ts: seq<Table>) {
    forall i, j :: 0 <= i < j < |ts| ==> ts[i].tableId < ts[j].tableId
  }

  /** The index of the first non-empty table from `i` on whose record cannot be
      built, or `|ts|` if there is none. */
  function FirstFailure(ts: seq<RawTable>, i: nat): (k: nat)
    requires i <= |ts|
    ensures i <= k <= |ts|
    ensures k < |ts| ==> !EmptyFrame(ts[k]) && !Converts(ts[k])
    ensures forall j :: i <= j < k ==> EmptyFrame(ts[j]) || Converts(ts[j])
    decreases |ts| - i
  {
    if i == |ts| then i
    else if !EmptyFrame(ts[i]) && !Converts(ts[i]) then i
    else FirstFailure(ts, i + 1)
  }

  /** Table `t` is the record built from raw table number `t.tableId` (counting
      from 1), which lies after index `i` and before the first failure from `i`. */
  predicate Kept(ts: seq<RawTable>, i: nat, t: Table)
    requires i <= |ts|
  {
    && i < t.tableId <= FirstFailure(ts, i)
    && !EmptyFrame(ts[t.tableId - 1]) && Converts(ts[t.tableId - 1])
    && t == ToTable(ts[t.tableId - 1], t.tableId)
  }

  /** The enumerate loop over Camelot's tables from index `i` on: empty frames are
      skipped, a table numbered `idx + 1` is kept, and a raise ends the loop with
      the tables collected so far. */
  function CollectTables(ts: seq<RawTable>, i: nat): (r: seq<Table>)
    requires i <= |ts|
    ensures IdsIncrease(r)
    ensures forall j :: 0 <= j < |r| ==> Kept(ts, i, r[j])
    decreases |ts| - i
  {
    if i == |ts| then []
    else if EmptyFrame(ts[i]) then
      var r := CollectTables(ts, i + 1);
      assert FirstFailure(ts, i) == FirstFailure(ts, i + 1);
      assert forall j :: 0 <= j < |r| ==> Kept(ts, i + 1, r[j]) ==> Kept(ts, i, r[j]);
      r
    else if !Converts(ts[i]) then []
    else
      var rest := CollectTables(ts, i + 1);
      var r := [ToTable(ts[i], i + 1)] + rest;
      assert FirstFailure(ts, i) == FirstFailure(ts, i + 1);
      assert forall j :: 1 <= j < |r| ==> r[j] == rest[j - 1] && Kept(ts, i + 1, rest[j - 1]);
      assert forall j :: 1 <= j < |r| ==> Kept(ts, i, r[j]);
      r
  }

  /** Some collected table carries number `id`. */
  ghost predicate HasTable(r: seq<Table>, id: nat) {
    exists j :: 0 <= j < |r| && r[j].tableId == id
  }

  lemma HasTableCons(t: Table, r: seq<Table>, id: nat)
    requires HasTable(r, id)
    ensures HasTable([t] + r, id)
  {
    var j :| 0 <= j < |r| && r[j].tableId == id;
    assert ([t] + r)[j + 1] == r[j];
  }

  /** Every non-empty table before the first failing one is kept, under its own number. */
  lemma {:induction false} CollectTablesComplete(ts: seq<RawTable>, i: nat, k: nat)
    requires i <= k < |ts|
    requires k < FirstFailure(ts, i)
    requires !EmptyFrame(ts[k])
    ensures HasTable(CollectTables(ts, i), k + 1)
    decreases |ts| - i
  {
    var rest := CollectTables(ts, i + 1);
    assert EmptyFrame(ts[i]) || Converts(ts[i]);
    if EmptyFrame(ts[i]) {
      assert CollectTables(ts, i) == rest;
      assert FirstFailure(ts, i) == FirstFailure(ts, i + 1);
      CollectTablesComplete(ts, i + 1, k);
    } else {
      var r := [ToTable(ts[i], i + 1)] + rest;
      assert CollectTables(ts, i) == r;
      if k == i {
        assert r[0].tableId == k + 1;
      } else {
        assert FirstFailure(ts, i) == FirstFailure(ts, i + 1);
        CollectTablesComplete(ts, i + 1, k);
        HasTableCons(ToTable(ts[i], i + 1), rest, k + 1);
      }
    }
  }

  /** `extract_tables`: the lattice flavour first, the stream flavour only when
      lattice found no table at all; a raise from either read yields no tables. */
  function ExtractTables(lattice: TableRead, stream: TableRead): (r: seq<Table>)
    ensures IdsIncrease(r)
    ensures forall j :: 0 <= j < |r| ==> 1 <= r[j].tableId && r[j].rows == |r[j].data| > 0 && r[j].headers == r[j].data[0]
    ensures lattice.ReadRaises? ==> r == []
    ensures lattice.Found? && |lattice.tables| > 0 ==> r == CollectTables(lattice.tables, 0)
    ensures lattice.Found? && |lattice.tables| == 0 ==>
              r == (if stream.Found? then CollectTables(stream.tables, 0) else [])
  {
    match lattice
    case ReadRaises => []
    case Found(ts) =>
      if |ts| > 0 then CollectTables(ts, 0)
      else
        match stream
        case ReadRaises => []
        case Found(ss) => CollectTables(ss, 0)
  }

  // ---------------------------------------------------------------------------
  // Form fields

  /** One PyMuPDF widget; absent optional strings are Python's `None`.
      `readable` is false when reading the widget's properties (its flags or its
      rectangle) raises. */
  datatype Widget = Widget(
    fieldName: Option<string>,
    fieldTypeString: string,
    fieldValue: Option<string>,
    fieldLabel: Option<string>,
    fieldFlags: nat,
    readable: bool)

  /** Opening the document and listing the page's widgets either raised or gave the widgets. */
  datatype WidgetRead = Widgets(widgets: seq<Widget>) | WidgetsRaise

  datatype FormField = FormField(
    fieldName: string,
    fieldType: string,
    fieldValue: string,
    fieldLabel: string,
    isReadonly: bool,
    isRequired: bool)

  /** Python's `v or fallback` for an optional string: `None` and `''` are falsy. */
  function OrElse(v: Option<string>, fallback: string): (r: string)
    ensures Truthy(v) ==> r == v.value
    ensures !Truthy(v) ==> r == fallback
  {
    if v.Some? && v.value != "" then v.value else fallback
  }

  function Pow2(n: nat): (p: nat)
    ensures p >= 1
  {
    if n == 0 then 1 else 2 * Pow2(n - 1)
  }

  /** Python's `a & b` on non-negative integers. */
  function BitAnd(a: nat, b: nat): nat
  {
    if a == 0 || b == 0 then 0 else 2 * BitAnd(a / 2, b / 2) + (a % 2) * (b % 2)
  }

  /** Masking with `1 << n` is non-zero exactly when binary digit `n` of `a` is 1. */
  lemma {:induction false} BitAndPow2(a: nat, n: nat)
    ensures BitAnd(a, Pow2(n)) != 0 <==> (a / Pow2(n)) % 2 == 1
    decreases n
  {
    if a != 0 && n > 0 {
      BitAndPow2(a / 2, n - 1);
      DivDiv(a, Pow2(n - 1));
    }
  }

  lemma DivDiv(a: nat, p: nat)
    requires p >= 1
    ensures a / (2 * p) == (a / 2) / p
  {
    var h, e := a / 2, a % 2;
    var q, r := h / p, h % p;
    assert a == 2 * h + e;
    assert h == p * q + r;
    assert a == (2 * p) * q + (2 * r + e);
    DivUnique(a, 2 * p, q, 2 * r + e);
  }

  lemma DivUnique(a: int, d: int, q: int, r: int)
    requires d > 0 && a == d * q + r && 0 <= r < d
    ensures a / d == q
  {
    var k := a / d - q;
    assert d * k == r - a % d;
    if k >= 1 {
      MulAtLeast(d, k);
    } else if k <= -1 {
      MulAtLeast(d, -k);
    }
  }

  lemma MulAtLeast(d: int, k: int)
    requires d > 0 && k >= 1
    ensures d * k >= d
  {
  }

  function ToFormField(w: Widget): FormField {
    FormField(
      OrElse(w.fieldName, "unnamed"),
      w.fieldTypeString,
      OrElse(w.fieldValue, ""),
      OrElse(w.fieldLabel, ""),
      BitAnd(w.fieldFlags, Pow2(0)) != 0,
      BitAnd(w.fieldFlags, Pow2(1)) != 0)
  }

  /** The flags of a widget whose read-only bit is `readonly`, whose required bit
      is `required`, and whose other bits are `higher`. */
  function FieldFlags(readonly: bool, required: bool, higher: nat): nat {
    4 * higher + (if required then 2 else 0) + (if readonly then 1 else 0)
  }

  /** Decoding the flags recovers exactly the read-only and required bits, whatever
      the other bits hold, and a missing or empty name reads as `unnamed`. */
  lemma FormFieldDecoding(w: Widget, readonly: bool, required: bool, higher: nat)
    requires w.fieldFlags == FieldFlags(readonly, required, higher)
    ensures ToFormField(w).isReadonly == readonly
    ensures ToFormField(w).isRequired == required
    ensures ToFormField(w).fieldName != ""
    ensures w.fieldName.None? || w.fieldName == Some("") ==> ToFormField(w).fieldName == "unnamed"
  {
    BitAndPow2(w.fieldFlags, 0);
    BitAndPow2(w.fieldFlags, 1);
  }

  /** The number of widgets read before the first one whose properties raise. */
  function ReadableCount(ws: seq<Widget>): (n: nat)
    ensures n <= |ws|
    ensures forall i :: 0 <= i < n ==> ws[i].readable
    ensures n < |ws| ==> !ws[n].readable
  {
    if |ws| == 0 || !ws[0].readable then 0 else 1 + ReadableCount(ws[1..])
  }

  /** `extract_form_fields`: one record per widget, in widget order, until a
      widget's properties raise; the records built before the raise are kept.
      Opening the document or listing the widgets raising yields none. */
  function ExtractFormFields(read: WidgetRead): (r: seq<FormField>)
    ensures read.WidgetsRaise? ==> r == []
    ensures read.Widgets? ==> |r| == ReadableCount(read.widgets)
    ensures forall i :: 0 <= i < |r| ==>
              && read.Widgets? && read.widgets[i].readable
              && r[i].fieldName == (if Truthy(read.widgets[i].fieldName) then read.widgets[i].fieldName.value else "unnamed")
              && r[i].fieldType == read.widgets[i].fieldTypeString
              && r[i].fieldValue == (if Truthy(read.widgets[i].fieldValue) then read.widgets[i].fieldValue.value else "")
              && r[i].fieldLabel == (if Truthy(read.widgets[i].fieldLabel) then read.widgets[i].fieldLabel.value else "")
              && (r[i].isReadonly <==> read.widgets[i].fieldFlags % 2 == 1)
              && (r[i].isRequired <==> (read.widgets[i].fieldFlags / 2) % 2 == 1)
  {
    match read
    case WidgetsRaise => []
    case Widgets(ws) =>
      var n := ReadableCount(ws);
      var r := seq(n, i requires 0 <= i < n => ToFormField(ws[i]));
      forall i | 0 <= i < n
        ensures (r[i].isReadonly <==> ws[i].fieldFlags % 2 == 1)
        ensures (r[i].isRequired <==> (ws[i].fieldFlags / 2) % 2 == 1)
      {
        BitAndPow2(ws[i].fieldFlags, 0);
        BitAndPow2(ws[i].fieldFlags, 1);
      }
      r
  }

  // ---------------------------------------------------------------------------
  // OCR text

  /** One recognised line: its text and the engine's confidence. */
  datatype OcrLine = OcrLine(text: string, confidence: real)

  /** What PaddleOCR returned for the page image: it raised, or it returned a
      result whose first entry is absent (`None`, or an empty result) or a list of
      lines, some of which may be empty. */
  datatype OcrOutput = OcrRaises | OcrResult(first: Option<seq<Option<OcrLine>>>)

  datatype Recognition = Recognition(text: string, confidence: real)

  /** The non-empty lines, in order. */
  function PresentLines(lines: seq<Option<OcrLine>>): (r: seq<OcrLine>)
    ensures |r| <= |lines|
    ensures forall j :: 0 <= j < |r| ==> Some(r[j]) in lines
    ensures forall i :: 0 <= i < |lines| && lines[i].Some? ==> lines[i].value in r
  {
    if |lines| == 0 then []
    else
      var rest := PresentLines(lines[1..]);
      assert forall i :: 1 <= i < |lines| ==> lines[i] == lines[1..][i - 1];
      match lines[0]
      case None => rest
      case Some(l) => [l] + rest
  }

  /** Filtering splits over concatenation and keeps a single line exactly when it
      is present; together these fix both the order and the multiplicity of the
      kept lines. */
  lemma {:induction false} PresentLinesAppend(a: seq<Option<OcrLine>>, b: seq<Option<OcrLine>>)
    ensures PresentLines(a + b) == PresentLines(a) + PresentLines(b)
    ensures forall l :: PresentLines([Some(l)]) == [l]
    ensures PresentLines([None]) == []
  {
    if |a| > 0 {
      assert (a + b)[1..] == a[1..] + b;
      PresentLinesAppend(a[1..], b);
    } else {
      assert a + b == b;
    }
    forall l
      ensures PresentLines([Some(l)]) == [l]
    {
      assert [Some(l)][1..] == [];
    }
    var none: seq<Option<OcrLine>> := [None];
    assert none[1..] == [];
  }

  function LineTexts(ls: seq<OcrLine>): (r: seq<string>)
    ensures |r| == |ls| && forall i :: 0 <= i < |ls| ==> r[i] == ls[i].text
  {
    seq(|ls|, i requires 0 <= i < |ls| => ls[i].text)
  }

  function LineConfidences(ls: seq<OcrLine>): (r: seq<real>)
    ensures |r| == |ls| && forall i :: 0 <= i < |ls| ==> r[i] == ls[i].confidence
  {
    seq(|ls|, i requires 0 <= i < |ls| => ls[i].confidence)
  }

  function Sum(xs: seq<real>): real {
    if |xs| == 0 then 0.0 else xs[0] + Sum(xs[1..])
  }

  /** The arithmetic mean, `0.0` for no values. */
  function Mean(xs: seq<real>): real {
    if |xs| == 0 then 0.0 else Sum(xs) / (|xs| as real)
  }

  predicate InUnit(x: real) {
    0.0 <= x <= 1.0
  }

  lemma {:induction false} SumBounds(xs: seq<real>)
    requires forall i :: 0 <= i < |xs| ==> InUnit(xs[i])
    ensures 0.0 <= Sum(xs) <= |xs| as real
  {
    if |xs| > 0 {
      SumBounds(xs[1..]);
    }
  }

  /** The mean of confidences that lie in [0, 1] lies in [0, 1]. */
  lemma MeanBounds(xs: seq<real>)
    requires forall i :: 0 <= i < |xs| ==> InUnit(xs[i])
    ensures InUnit(Mean(xs))
  {
    if |xs| > 0 {
      SumBounds(xs);
      var n := |xs| as real;
      assert Sum(xs) / n <= n / n;
    }
  }

  /** `run_ocr`: the texts of the non-empty lines joined by newlines, with their
      mean confidence; `("", 0.0)` when there is no result or the engine raised. */
  function RunOcr(o: OcrOutput): (r: Recognition)
    ensures o.OcrRaises? || o.first.None? ==> r == Recognition("", 0.0)
    ensures o.OcrResult? && o.first.Some? && |PresentLines(o.first.value)| == 0 ==> r == Recognition("", 0.0)
  {
    match o
    case OcrRaises => Recognition("", 0.0)
    case OcrResult(first) =>
      if first.None? || |first.value| == 0 then Recognition("", 0.0)
      else
        var ls := PresentLines(first.value);
        Recognition(Join("\n", LineTexts(ls)), Mean(LineConfidences(ls)))
  }

  /** The recognised text splits back, at its newlines, into the recognised lines
      (when at least one line was read and no line holds a newline itself), and
      the confidence stays within [0, 1] when each line's does. */
  lemma RunOcrLines(o: OcrOutput)
    requires o.OcrResult? && o.first.Some?
    requires |PresentLines(o.first.value)| > 0
    requires forall i :: 0 <= i < |o.first.value| && o.first.value[i].Some? ==> '\n' !in o.first.value[i].value.text
    ensures SplitOn(RunOcr(o).text, '\n') == LineTexts(PresentLines(o.first.value))
  {
    var ls := PresentLines(o.first.value);
    forall i | 0 <= i < |ls|
      ensures '\n' !in LineTexts(ls)[i]
    {
      assert Some(ls[i]) in o.first.value;
    }
    SplitJoin(LineTexts(ls), '\n');
  }

  /** The page confidence from OCR lies in [0, 1] when every line's confidence does. */
  lemma RunOcrConfidence(o: OcrOutput)
    requires o.OcrResult? && o.first.Some?
    requires forall i :: 0 <= i < |o.first.value| && o.first.value[i].Some? ==> InUnit(o.first.value[i].value.confidence)
    ensures InUnit(RunOcr(o).confidence)
  {
    if |o.first.value| > 0 {
      var ls := PresentLines(o.first.value);
      forall i | 0 <= i < |ls|
        ensures InUnit(LineConfidences(ls)[i])
      {
        assert Some(ls[i]) in o.first.value;
      }
      MeanBounds(LineConfidences(ls));
    }
  }

  // ---------------------------------------------------------------------------
  // Pages

  /** PyMuPDF's text layer of a page, or the raise that reading it ended in. */
  datatype NativeRead = NativeText(text: string) | NativeRaises

  /** Rasterising the page: no image came back, or the image was preprocessed and
      read by the OCR engine, or preprocessing raised. */
  datatype Raster = NoImage | Preprocessed(recognised: OcrOutput) | PreprocessRaises(message: string)

  /** Everything the extractors report about one page. */
  datatype RawPage = RawPage(
    lattice: TableRead,
    stream: TableRead,
    widgets: WidgetRead,
    native: NativeRead,
    raster: Raster)

  /** Opening the PDF: its pages, or the raise that opening ended in. */
  datatype PdfRead = Opened(pages: seq<RawPage>) | OpenRaises(message: string)

  /** The record kept for one page. */
  datatype Page = Page(
    pageNum: nat,
    text: string,
    source: Source,
    confidence: real,
    tables: seq<Table>,
    forms: seq<FormField>)

  datatype Document = Document(file: string, pages: seq<Page>)

  /** Native text longer than this many characters (after stripping) is used as is. */
  const NativeThreshold: nat := 50

  /** `extract_native_text`: the stripped text layer, `""` on a raise. */
  function ExtractNativeText(n: NativeRead): (r: string)
    ensures n.NativeRaises? ==> r == ""
    ensures n.NativeText? ==> r == Strip(n.text)
    ensures Strip(r) == r
  {
    match n
    case NativeText(t) => StripIdempotent(t); Strip(t)
    case NativeRaises => ""
  }

  predicate Substantial(native: string) {
    native != "" && |Strip(native)| > NativeThreshold
  }

  /** One iteration of `process_pdf`'s page loop for the page at `index`. */
  function ProcessPage(index: nat, raw: RawPage): (r: Result<Page>)
    ensures r.Err? <==> !Substantial(ExtractNativeText(raw.native)) && raw.raster.PreprocessRaises?
    ensures r.Err? ==> r.message == raw.raster.message
    ensures r.Ok? ==>
              && r.value.pageNum == index + 1
              && r.value.tables == ExtractTables(raw.lattice, raw.stream)
              && r.value.forms == ExtractFormFields(raw.widgets)
  {
    var tables := ExtractTables(raw.lattice, raw.stream);
    var forms := ExtractFormFields(raw.widgets);
    var native := ExtractNativeText(raw.native);
    if Substantial(native) then
      Ok(Page(index + 1, native, Native, 1.0, tables, forms))
    else
      match raw.raster
      case NoImage => Ok(Page(index + 1, "", Failed, 0.0, tables, forms))
      case Preprocessed(o) =>
        var rec := RunOcr(o);
        Ok(Page(index + 1, rec.text, Recognised, rec.confidence, tables, forms))
      case PreprocessRaises(m) => Err(m)
  }

  /** Source selection: native text when its stripped length exceeds the
      threshold (confidence 1.0), otherwise OCR when the page could be
      rasterised, otherwise an error record with no text and confidence 0.0. */
  lemma PageSourceSelection(index: nat, raw: RawPage)
    ensures ProcessPage(index, raw).Ok? ==>
            var p := ProcessPage(index, raw).value;
            var native := ExtractNativeText(raw.native);
            && (p.source == Native <==> |Strip(native)| > NativeThreshold)
            && (p.source == Native ==> p.text == native && p.confidence == 1.0)
            && (p.source == Recognised <==> !Substantial(native) && raw.raster.Preprocessed?)
            && (p.source == Recognised ==> p.text == RunOcr(raw.raster.recognised).text)
            && (p.source == Failed <==> !Substantial(native) && raw.raster.NoImage?)
            && (p.source == Failed ==> p.text == "" && p.confidence == 0.0)
  {
  }

  /** What each page's iteration of the loop produces, page by page. */
  function PageResults(raws: seq<RawPage>): (r: seq<Result<Page>>)
    ensures |r| == |raws| && forall k :: 0 <= k < |raws| ==> r[k] == ProcessPage(k, raws[k])
  {
    seq(|raws|, k requires 0 <= k < |raws| => ProcessPage(k, raws[k]))
  }

  /** The index of the last `c` in `s`, if any. */
  function LastIndexOf(s: string, c: char): (r: Option<nat>)
    ensures r.Some? ==> r.value < |s| && s[r.value] == c && forall i :: r.value < i < |s| ==> s[i] != c
    ensures r.None? ==> c !in s
  {
    if |s| == 0 then None
    else if s[|s| - 1] == c then Some(|s| - 1)
    else LastIndexOf(s[..|s| - 1], c)
  }

  /** `os.path.basename(path)`: everything after the last `/`. */
  function BaseName(path: string): (r: string)
    ensures |r| <= |path| && r == path[|path| - |r|..]
    ensures '/' !in r
    ensures |r| < |path| ==> path[|path| - |r| - 1] == '/'
  {
    match LastIndexOf(path, '/')
    case Some(i) => path[i + 1..]
    case None => path
  }

  /** `process_pdf`: the pages in order; the first raise ends the run. */
  function ProcessPdf(pdfPath: string, pdf: PdfRead): (r: Result<Document>)
    ensures pdf.OpenRaises? ==> r == Err(pdf.message)
  {
    match pdf
    case OpenRaises(m) => Err(m)
    case Opened(raws) =>
      match Sequence(PageResults(raws))
      case Err(m) => Err(m)
      case Ok(ps) => Ok(Document(BaseName(pdfPath), ps))
  }

  /** One page record per page, in page order, numbered from 1, each holding that
      page's tables and form fields; the run fails exactly when some page needed
      OCR and preprocessing its image raised. */
  lemma ProcessPdfPages(pdfPath: string, pdf: PdfRead)
    requires pdf.Opened?
    ensures ProcessPdf(pdfPath, pdf).Ok? <==>
              forall k :: 0 <= k < |pdf.pages| ==>
                Substantial(ExtractNativeText(pdf.pages[k].native)) || !pdf.pages[k].raster.PreprocessRaises?
    ensures ProcessPdf(pdfPath, pdf).Ok? ==>
              && ProcessPdf(pdfPath, pdf).value.file == BaseName(pdfPath)
              && |ProcessPdf(pdfPath, pdf).value.pages| == |pdf.pages|
              && forall k :: 0 <= k < |pdf.pages| ==>
                   && ProcessPage(k, pdf.pages[k]) == Ok(ProcessPdf(pdfPath, pdf).value.pages[k])
                   && ProcessPdf(pdfPath, pdf).value.pages[k].pageNum == k + 1
                   && ProcessPdf(pdfPath, pdf).value.pages[k].tables == ExtractTables(pdf.pages[k].lattice, pdf.pages[k].stream)
                   && ProcessPdf(pdfPath, pdf).value.pages[k].forms == ExtractFormFields(pdf.pages[k].widgets)
    ensures ProcessPdf(pdfPath, pdf).Err? ==>
              exists k :: FailsFirstAt(pdf.pages, k) && ProcessPdf(pdfPath, pdf) == Err(pdf.pages[k].raster.message)
  {
    SequenceOk(PageResults(pdf.pages));
    ProcessPdfFailure(pdfPath, pdf);
  }

  /** Page `k` is the first page whose loop iteration raises. */
  predicate FailsFirstAt(pages: seq<RawPage>, k: int) {
    && 0 <= k < |pages| && ProcessPage(k, pages[k]).Err?
    && forall j :: 0 <= j < k ==> ProcessPage(j, pages[j]).Ok?
  }

  /** A failed run reports the raise of the first page whose preprocessing raised. */
  lemma ProcessPdfFailure(pdfPath: string, pdf: PdfRead)
    requires pdf.Opened?
    ensures ProcessPdf(pdfPath, pdf).Err? ==>
              exists k :: FailsFirstAt(pdf.pages, k) && ProcessPdf(pdfPath, pdf) == Err(pdf.pages[k].raster.message)
  {
    var rs := PageResults(pdf.pages);
    if Sequence(rs).Err? {
      var k := FirstErr(rs);
      assert FailsFirstAt(pdf.pages, k);
      assert ProcessPdf(pdfPath, pdf) == Err(rs[k].message);
    }
  }
}
