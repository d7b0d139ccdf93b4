/**
 Token sliding-window chunking (`RAGPipeline.chunk_text`): the text is encoded
 to tokens, and windows of `ChunkSize` tokens are taken every `Stride` tokens,
 so consecutive windows share `ChunkOverlap` tokens; each window is decoded
 back to text. The tokenizer is a parameter: chunk boundaries are defined on
 token indices, whatever the encoding and decoding do.
 */
module Chunking {
  import opened Text
  import opened Values

  /** Tokens per window. */
  const ChunkSize: nat := 500
  /** Tokens shared by consecutive windows. */
  const ChunkOverlap: nat := 50
  /** The distance between consecutive window starts. */
  const Stride: nat := ChunkSize - ChunkOverlap

  type Token = int

  /** The tokenizer's two directions (cl100k_base in the source). */
  datatype Tokenizer = Tokenizer(encode: string -> seq<Token>, decode: seq<Token> -> string)

  /** One window: its decoded text, its position among the windows, the token
      range `[startToken, endToken)` it covers and the metadata it carries. */
  datatype Chunk = Chunk(text: string, chunkId: nat, startToken: nat, endToken: nat, metadata: Metadata)

  /** How many windows cover `n` tokens: `ceil(n / Stride)`. */
  function WindowCount(n: nat): nat {
    (n + Stride - 1) / Stride
  }

  function WindowStart(k: nat): nat {
    k * Stride
  }

  function WindowEnd(k: nat, n: nat): nat {
    Min(k * Stride + ChunkSize, n)
  }

  /** The `k`-th window over `tokens`. */
  function Window(tok: Tokenizer, tokens: seq<Token>, k: nat, metadata: Metadata): Chunk
    requires k < WindowCount(|tokens|)
  {
    var start, end := WindowStart(k), WindowEnd(k, |tokens|);
    Chunk(tok.decode(tokens[start..end]), k, start, end, metadata)
  }

  /** All windows over the text's tokens, in order; none for a blank text. */
  function Chunks(tok: Tokenizer, text: string, metadata: Metadata): seq<Chunk> {
    if IsBlank(text) then [] else Windows(tok, tok.encode(text), metadata)
  }

  /** All windows over `tokens`, in order. */
  function Windows(tok: Tokenizer, tokens: seq<Token>, metadata: Metadata): (cs: seq<Chunk>)
    ensures |cs| == WindowCount(|tokens|)
    ensures forall k :: 0 <= k < |cs| ==> cs[k] == Window(tok, tokens, k, metadata)
  {
    seq(WindowCount(|tokens|), k requires 0 <= k < WindowCount(|tokens|) => Window(tok, tokens, k, metadata))
  }

  /** `chunk_text`, step by step as the source's loop does it. A metadata argument
      of `None` is the empty map here (the source substitutes `{}`). */
  method ChunkText(tok: Tokenizer, text: string, metadata: Metadata) returns (chunks: seq<Chunk>)
    ensures chunks == Chunks(tok, text, metadata)
  {
    if IsBlank(text) {
      return [];
    }
    var tokens := tok.encode(text);
    chunks := [];
    var start := 0;
    var chunkId := 0;
    while start < |tokens|
      invariant chunkId == |chunks| && start == chunkId * Stride
      invariant chunkId <= WindowCount(|tokens|)
      invariant forall k :: 0 <= k < chunkId ==> chunks[k] == Window(tok, tokens, k, metadata)
      decreases |tokens| - start
    {
      var end := Min(start + ChunkSize, |tokens|);
      var piece := tok.decode(tokens[start..end]);
      chunks := chunks + [Chunk(piece, chunkId, start, end, metadata)];
      chunkId := chunkId + 1;
      start := start + (ChunkSize - ChunkOverlap);
    }
  }

  /** Token `t` lies in one of the chunks. */
  predicate Covered(cs: seq<Chunk>, t: nat) {
    exists k :: 0 <= k < |cs| && cs[k].startToken <= t < cs[k].endToken
  }

  /** The windows tile the tokens: the first starts at 0 and the last ends at the
      last token; each holds between 1 and `ChunkSize` tokens; consecutive windows
      share `ChunkOverlap` tokens, or all of the later one when it is shorter than
      that; every token lies in some window; and there are `ceil(n / Stride)` of
      them, the fewest whose starts reach past the tokens. */
  lemma ChunksTile(tok: Tokenizer, text: string, metadata: Metadata)
    requires !IsBlank(text)
    ensures var n, cs := |tok.encode(text)|, Chunks(tok, text, metadata);
            && |cs| * Stride >= n
            && (|cs| > 0 ==> (|cs| - 1) * Stride < n)
            && (n > 0 ==> |cs| > 0 && cs[0].startToken == 0 && cs[|cs| - 1].endToken == n)
            && (forall k :: 0 <= k < |cs| ==>
                  && cs[k].chunkId == k
                  && cs[k].metadata == metadata
                  && 1 <= cs[k].endToken - cs[k].startToken <= ChunkSize)
            && (forall k :: 0 <= k < |cs| - 1 ==>
                  cs[k].endToken - cs[k + 1].startToken == Min(ChunkOverlap, n - cs[k + 1].startToken))
            && (forall t :: 0 <= t < n ==> Covered(cs, t))
  {
    WindowsTile(tok, tok.encode(text), metadata);
  }

  lemma WindowsTile(tok: Tokenizer, tokens: seq<Token>, metadata: Metadata)
    ensures var n, cs := |tokens|, Windows(tok, tokens, metadata);
            && |cs| * Stride >= n
            && (|cs| > 0 ==> (|cs| - 1) * Stride < n)
            && (n > 0 ==> |cs| > 0 && cs[0].startToken == 0 && cs[|cs| - 1].endToken == n)
            && (forall k :: 0 <= k < |cs| ==>
                  && cs[k].chunkId == k
                  && cs[k].metadata == metadata
                  && 1 <= cs[k].endToken - cs[k].startToken <= ChunkSize)
            && (forall k :: 0 <= k < |cs| - 1 ==>
                  cs[k].endToken - cs[k + 1].startToken == Min(ChunkOverlap, n - cs[k + 1].startToken))
            && (forall t :: 0 <= t < n ==> Covered(cs, t))
  {
    var n, cs := |tokens|, Windows(tok, tokens, metadata);
    WindowCountBounds(n);
    forall k | 0 <= k < |cs|
      ensures cs[k].chunkId == k && cs[k].metadata == metadata
      ensures 1 <= cs[k].endToken - cs[k].startToken <= ChunkSize
    {
      WindowInside(n, k);
    }
    forall k | 0 <= k < |cs| - 1
      ensures cs[k].endToken - cs[k + 1].startToken == Min(ChunkOverlap, n - cs[k + 1].startToken)
    {
      assert WindowStart(k + 1) == WindowStart(k) + Stride;
    }
    if n > 0 {
      assert WindowEnd(|cs| - 1, n) == n;
    }
    forall t | 0 <= t < n
      ensures Covered(cs, t)
    {
      var k := t / Stride;
      WindowOf(n, t);
      assert cs[k].startToken <= t < cs[k].endToken;
    }
  }

  /** `ceil(n / Stride)` windows reach past the tokens, and one fewer do not. */
  lemma WindowCountBounds(n: nat)
    ensures WindowCount(n) * Stride >= n
    ensures WindowCount(n) > 0 ==> (WindowCount(n) - 1) * Stride < n
    ensures WindowCount(n) > 0 ==> WindowStart(WindowCount(n) - 1) + ChunkSize >= n
    ensures n > 0 ==> WindowCount(n) > 0
  {
    var c := WindowCount(n);
    assert n + Stride - 1 == c * Stride + (n + Stride - 1) % Stride;
  }

  /** Every window starts before the last token and holds 1 to `ChunkSize` tokens. */
  lemma WindowInside(n: nat, k: nat)
    requires k < WindowCount(n)
    ensures WindowStart(k) < n
    ensures 1 <= WindowEnd(k, n) - WindowStart(k) <= ChunkSize
  {
    WindowCountBounds(n);
    assert k * Stride <= (WindowCount(n) - 1) * Stride;
  }

  /** Token `t` lies in window `t / Stride`. */
  lemma WindowOf(n: nat, t: nat)
    requires t < n
    ensures t / Stride < WindowCount(n)
    ensures WindowStart(t / Stride) <= t < WindowEnd(t / Stride, n)
  {
    var k := t / Stride;
    assert t == k * Stride + t % Stride;
    WindowCountBounds(n);
  }

  /** The final window lies wholly inside the one before it exactly when it is no
      longer than the overlap: such a window repeats tokens already chunked. */
  lemma RedundantTail(tok: Tokenizer, text: string, metadata: Metadata)
    requires !IsBlank(text)
    requires |Chunks(tok, text, metadata)| >= 2
    ensures var n, cs := |tok.encode(text)|, Chunks(tok, text, metadata);
            var last, prev := cs[|cs| - 1], cs[|cs| - 2];
            (prev.startToken <= last.startToken && last.endToken <= prev.endToken)
              <==> last.endToken - last.startToken <= ChunkOverlap
  {
  }

  /** A text of 1000 tokens gives the windows [0, 500), [450, 950) and [900, 1000). */
  lemma ThousandTokens(tok: Tokenizer, text: string, metadata: Metadata)
    requires !IsBlank(text) && |tok.encode(text)| == 1000
    ensures var cs := Chunks(tok, text, metadata);
            && |cs| == 3
            && cs[0].startToken == 0 && cs[0].endToken == 500
            && cs[1].startToken == 450 && cs[1].endToken == 950
            && cs[2].startToken == 900 && cs[2].endToken == 1000
  {
  }
}
