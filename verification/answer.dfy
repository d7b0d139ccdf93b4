/**
 Answering a question from retrieved chunks (`LLMHandler`): which API key the
 handler settles on and whether it is enabled, the prompt it sends, and the
 answer record it returns. The chat-completion call is a parameter that either
 gives the answer's text or raises.
 */
module Answer {
  import opened Wrappers
  import opened Text
  import opened Values
  import opened VectorStore

  const DefaultModel: string := "gpt-4o-mini"
  /** History entries sent along (the last three exchanges). */
  const HistoryWindow: nat := 6
  /** Chunks cited as sources. */
  const SourceCount: nat := 3
  /** Characters of a chunk shown in a source's preview. */
  const PreviewLength: nat := 200

  const NotConfigured: string := "LLM not configured. Please set OPENAI_API_KEY environment variable."
  const NotEnabled: string := "LLM not enabled"
  const ErrorPrefix: string := "Error generating answer: "
  const SystemPrompt: string :=
    "You are a helpful AI assistant that answers questions based on PDF documents. "
    + "Use the provided context to answer questions accurately. "
    + "If the answer is not in the context, say so. "
    + "Always cite the page number when referencing information."
  const ContextHeader: string := "Context from document:\n\n"
  const QuestionHeader: string := "\n\nQuestion: "
  const BlankLine: string := "\n\n"

  // ---------------------------------------------------------------------------
  // The handler

  datatype Handler = Handler(apiKey: Option<string>, model: string, enabled: bool)

  /** `LLMHandler.__init__`: the key argument when it is truthy, otherwise the
      environment's; enabled exactly when that key is truthy and building the
      client did not raise. */
  function NewHandler(argument: Option<string>, environment: Option<string>, model: string, clientBuilds: bool): (h: Handler)
    ensures h.enabled <==> (Truthy(argument) || Truthy(environment)) && clientBuilds
    ensures h.apiKey == if Truthy(argument) then argument else environment
    ensures h.model == model
  {
    var key := if Truthy(argument) then argument else environment;
    Handler(key, model, Truthy(key) && clientBuilds)
  }

  /** The key as logged: its first 8 and last 4 characters around `...` when it is
      longer than 12, otherwise one `*` per character. */
  function KeyPreview(key: string): (r: string)
    ensures |key| > 12 ==> |r| == 15 && StartsWith(r, key[..8]) && EndsWith(r, key[|key| - 4..]) && r[8..11] == "..."
    ensures |key| <= 12 ==> |r| == |key| && forall i :: 0 <= i < |r| ==> r[i] == '*'
  {
    if |key| > 12 then key[..8] + "..." + key[|key| - 4..]
    else seq(|key|, _ => '*')
  }

  /** A preview never shows more than 12 characters of the key: for a long key,
      the 3 characters after the first 8 come from the fixed `...`, so the
      preview depends on the first 8 and last 4 characters only. */
  lemma KeyPreviewHides(a: string, b: string)
    requires |a| > 12 && |b| > 12
    requires a[..8] == b[..8] && a[|a| - 4..] == b[|b| - 4..]
    ensures KeyPreview(a) == KeyPreview(b)
  {
  }

  // ---------------------------------------------------------------------------
  // The prompt

  datatype Message = Message(role: string, content: string)

  /** What the chat-completion call does with a model name and the messages. */
  datatype Completion = Completed(content: string) | CallRaises(message: string)

  /** `chunk['metadata'].get('page_num', 'N/A')` as the f-string renders it. */
  function PageLabel(m: Metadata): string {
    if "page_num" in m then Display(m["page_num"]) else "N/A"
  }

  function ContextLine(c: Retrieved): string {
    "[Page " + PageLabel(c.metadata) + "] " + c.text
  }

  function ContextLines(cs: seq<Retrieved>): (lines: seq<string>)
    ensures |lines| == |cs| && forall i :: 0 <= i < |cs| ==> lines[i] == ContextLine(cs[i])
  {
    seq(|cs|, i requires 0 <= i < |cs| => ContextLine(cs[i]))
  }

  /** The chunks rendered `[Page p] text`, in order, separated by blank lines. */
  function ContextText(cs: seq<Retrieved>): string {
    Join(BlankLine, ContextLines(cs))
  }

  function UserTurn(question: string, cs: seq<Retrieved>): Message {
    Message("user", ContextHeader + ContextText(cs) + QuestionHeader + question)
  }

  /** The messages sent: the system prompt, the last entries of the history (none
      when it is empty), then the question with its context. */
  function Prompt(question: string, cs: seq<Retrieved>, history: seq<Message>): seq<Message> {
    [Message("system", SystemPrompt)]
      + (if |history| > 0 then TakeLast(history, HistoryWindow) else [])
      + [UserTurn(question, cs)]
  }

  /** The prompt holds the system prompt, then the last `min(6, |history|)`
      history entries unchanged and in order, then one user turn made of the
      context header, the rendered chunks and the question, in that order. */
  lemma PromptShape(question: string, cs: seq<Retrieved>, history: seq<Message>)
    ensures var ms, h := Prompt(question, cs, history), Min(HistoryWindow, |history|);
            && |ms| == h + 2
            && ms[0] == Message("system", SystemPrompt)
            && ms[1..h + 1] == history[|history| - h..]
            && ms[|ms| - 1].role == "user"
            && StartsWith(ms[|ms| - 1].content, ContextHeader)
            && OccursAt(ms[|ms| - 1].content, ContextText(cs), |ContextHeader|)
            && EndsWith(ms[|ms| - 1].content, QuestionHeader + question)
            && |ms[|ms| - 1].content| == |ContextHeader| + |ContextText(cs)| + |QuestionHeader + question|
  {
    var ms := Prompt(question, cs, history);
    var content := ContextHeader + ContextText(cs) + QuestionHeader + question;
    assert content == (ContextHeader + ContextText(cs)) + (QuestionHeader + question);
  }

  /** The context lists every chunk, in input order: chunk `i`'s line sits at
      its offset, a blank line follows every line but the last, and the last
      line ends the context. */
  lemma ContextLayout(cs: seq<Retrieved>, i: nat)
    requires i < |cs|
    ensures var ctx, lines := ContextText(cs), ContextLines(cs);
            && OccursAt(ctx, ContextLine(cs[i]), JoinOffset(BlankLine, lines, i))
            && (i + 1 < |cs| ==> OccursAt(ctx, BlankLine, JoinOffset(BlankLine, lines, i) + |ContextLine(cs[i])|))
            && (i + 1 == |cs| ==> |ctx| == JoinOffset(BlankLine, lines, i) + |ContextLine(cs[i])|)
  {
    JoinLayout(BlankLine, ContextLines(cs), i);
  }

  // ---------------------------------------------------------------------------
  // The answer

  /** One cited source: the chunk's page number (absent when its metadata has
      none), its similarity and a preview of its text. */
  datatype SourceRef = SourceRef(pageNum: Option<Value>, similarityScore: real, textPreview: string)

  /** The answer record: the answer, the sources, and either the model and the
      number of chunks used, or the error. */
  datatype Reply = Reply(answer: string, sources: seq<SourceRef>, model: Option<string>, contextUsed: Option<nat>, error: Option<string>)

  function ToSource(c: Retrieved): (s: SourceRef)
    ensures "page_num" in c.metadata ==> s.pageNum == Some(c.metadata["page_num"])
    ensures "page_num" !in c.metadata ==> s.pageNum.None?
    ensures s.similarityScore == c.similarityScore
    ensures |s.textPreview| == Min(PreviewLength, |c.text|) + 3
    ensures StartsWith(s.textPreview, Take(c.text, PreviewLength)) && EndsWith(s.textPreview, "...")
  {
    var page := if "page_num" in c.metadata then Some(c.metadata["page_num"]) else None;
    SourceRef(page, c.similarityScore, Take(c.text, PreviewLength) + "...")
  }

  /** The first three chunks, as sources. */
  function Sources(cs: seq<Retrieved>): (ss: seq<SourceRef>)
    ensures |ss| == Min(SourceCount, |cs|)
    ensures forall i :: 0 <= i < |ss| ==> ss[i] == ToSource(cs[i])
  {
    var top := Take(cs, SourceCount);
    seq(|top|, i requires 0 <= i < |top| => ToSource(top[i]))
  }

  /** `generate_answer`. A disabled handler answers with the fixed notice and
      never calls the client; a raising call gives an error answer; otherwise the
      call's text is the answer, with the first three chunks as sources. */
  function GenerateAnswer(h: Handler, question: string, cs: seq<Retrieved>, history: seq<Message>,
                          complete: (string, seq<Message>) -> Completion): (r: Reply)
    ensures !h.enabled ==> r == Reply(NotConfigured, [], None, None, Some(NotEnabled))
    ensures h.enabled ==>
              match complete(h.model, Prompt(question, cs, history))
              case CallRaises(m) =>
                && StartsWith(r.answer, ErrorPrefix) && r.answer[|ErrorPrefix|..] == m
                && r.sources == [] && r.error == Some(m) && r.model.None?
              case Completed(a) =>
                && r.answer == a && r.error.None?
                && r.sources == Sources(cs)
                && r.model == Some(h.model) && r.contextUsed == Some(|cs|)
  {
    if !h.enabled then Reply(NotConfigured, [], None, None, Some(NotEnabled))
    else
      match complete(h.model, Prompt(question, cs, history))
      case CallRaises(m) => Reply(ErrorPrefix + m, [], None, None, Some(m))
      case Completed(a) => Reply(a, Sources(cs), Some(h.model), Some(|cs|), None)
  }

  /** Exactly the answers with an error are those of a disabled handler or a
      raising call, and they cite no sources. */
  lemma ErrorIffFailure(h: Handler, question: string, cs: seq<Retrieved>, history: seq<Message>,
                        complete: (string, seq<Message>) -> Completion)
    ensures var r := GenerateAnswer(h, question, cs, history, complete);
            && (r.error.Some? <==> !h.enabled || complete(h.model, Prompt(question, cs, history)).CallRaises?)
            && (r.error.Some? ==> r.sources == [] && r.model.None? && r.contextUsed.None?)
  {
  }

  /** A disabled handler's answer does not depend on the client. */
  lemma DisabledIgnoresClient(h: Handler, question: string, cs: seq<Retrieved>, history: seq<Message>,
                              c1: (string, seq<Message>) -> Completion, c2: (string, seq<Message>) -> Completion)
    requires !h.enabled
    ensures GenerateAnswer(h, question, cs, history, c1) == GenerateAnswer(h, question, cs, history, c2)
  {
  }
}
