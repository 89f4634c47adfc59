// Document preparation for retrieval (backend/utils/text_processor.py): a
// token sequence is cut into fixed-size windows that advance by a fixed
// stride (window size minus overlap); a document summary is its head, cut at
// a late full stop or marked with "..."; each chunk is prefixed with the
// summary before embedding; and process_document checks the file type, the
// text length, the chunk count and the embedding count in that order.
// The tokenizer, the PDF text extractor, UTF-8 decoding and the embedding
// service are parameters of the model.

module TextProcessor {
  import opened Wrappers
  import opened Strings

  // ------------------------------------------------------------- chunking

  /** Number of windows: one per stride step that starts before the end. */
  function ChunkCount(n: int, stride: int): (c: nat)
    requires stride > 0
    decreases n
  {
    if n <= 0 then 0 else 1 + ChunkCount(n - stride, stride)
  }

  /** The count is the ceiling of n / stride: the last window starts before n and the next would not. */
  lemma {:induction false} ChunkCountIsCeiling(n: int, stride: int)
    requires stride > 0
    ensures n <= 0 ==> ChunkCount(n, stride) == 0
    ensures n > 0 ==> (ChunkCount(n, stride) - 1) * stride < n <= ChunkCount(n, stride) * stride
    decreases n
  {
    if n > 0 {
      ChunkCountIsCeiling(n - stride, stride);
      var c := ChunkCount(n - stride, stride);
      assert (c + 1) * stride == c * stride + stride;
      assert c * stride == (c - 1) * stride + stride;
    }
  }

  /** Window k: the tokens from k * stride, at most `size` of them. */
  function Window<T>(tokens: seq<T>, k: nat, size: int, stride: int): (w: seq<T>)
    requires size > 0 && stride > 0 && k * stride < |tokens|
  {
    var start := k * stride;
    var end := if start + size < |tokens| then start + size else |tokens|;
    tokens[start..end]
  }

  /** Every window is non-empty and holds at most `size` tokens. */
  lemma WindowSize<T>(tokens: seq<T>, k: nat, size: int, stride: int)
    requires size > 0 && stride > 0 && k * stride < |tokens|
    ensures 0 < |Window(tokens, k, size, stride)| <= size
  {
  }

  /** Windows that do not overlap negatively reach every token: token j lies in window j / stride. */
  lemma Coverage<T>(tokens: seq<T>, size: int, stride: int, j: nat)
    requires size > 0 && 0 < stride <= size && j < |tokens|
    ensures var k := j / stride;
            && k < ChunkCount(|tokens|, stride)
            && k * stride <= j < k * stride + size
            && k * stride < |tokens|
            && Window(tokens, k, size, stride)[j - k * stride] == tokens[j]
  {
    var k := j / stride;
    QuotientBrackets(j, stride);
    StartBelowCount(|tokens|, stride, j, k);
    WindowHolds(tokens, size, stride, j, k);
  }

  /** A window starting at or before a token of the sequence is one of the counted windows. */
  lemma StartBelowCount(n: int, stride: int, j: nat, k: nat)
    requires stride > 0 && j < n && k * stride <= j
    ensures k < ChunkCount(n, stride)
  {
    ChunkCountIsCeiling(n, stride);
    var c := ChunkCount(n, stride);
    if k >= c {
      MulMonotone(c, k, stride);
      assert false;
    }
  }

  /** Token j sits at offset j - k * stride of window k when the window starts within one stride before it. */
  lemma WindowHolds<T>(tokens: seq<T>, size: int, stride: int, j: nat, k: nat)
    requires 0 < stride <= size && j < |tokens|
    requires k * stride <= j < k * stride + stride
    ensures k * stride < |tokens| && Window(tokens, k, size, stride)[j - k * stride] == tokens[j]
  {
  }

  /** The quotient of j by the stride brackets j between two stride multiples. */
  lemma QuotientBrackets(j: nat, stride: int)
    requires stride > 0
    ensures (j / stride) * stride <= j < (j / stride) * stride + stride
  {
    var k := j / stride;
    var r := j % stride;
    assert j == k * stride + r;
  }

  lemma MulMonotone(a: int, b: int, s: int)
    requires a <= b && s > 0
    ensures a * s <= b * s
  {
    assert b * s - a * s == (b - a) * s;
  }

  /** Every counted window starts inside the token sequence. */
  lemma WindowsStartInside(n: int, stride: int, k: nat)
    requires stride > 0 && k < ChunkCount(n, stride)
    ensures k * stride < n
  {
    ChunkCountIsCeiling(n, stride);
    MulMonotone(k, ChunkCount(n, stride) - 1, stride);
  }

  /** The chunk list: the decoding of every counted window, in order. */
  function Chunks<T>(tokens: seq<T>, size: int, stride: int, decode: seq<T> -> string): (cs: seq<string>)
    requires size > 0 && stride > 0
    ensures |cs| == ChunkCount(|tokens|, stride)
  {
    var c := ChunkCount(|tokens|, stride);
    assert forall k :: 0 <= k < c ==> k * stride < |tokens| by {
      forall k | 0 <= k < c
        ensures k * stride < |tokens|
      {
        WindowsStartInside(|tokens|, stride, k);
      }
    }
    seq(c, k requires 0 <= k < c => decode(Window(tokens, k, size, stride)))
  }

  /** There is a chunk exactly when there is a token. */
  lemma {:induction false} ChunksEmptyIff<T>(tokens: seq<T>, size: int, stride: int, decode: seq<T> -> string)
    requires size > 0 && stride > 0
    ensures |Chunks(tokens, size, stride, decode)| == 0 <==> |tokens| == 0
  {
    ChunkCountIsCeiling(|tokens|, stride);
  }

  /**
   * chunk_text over an abstract tokenizer: the window loop, which terminates
   * only when the overlap is smaller than the chunk size (or there are no
   * tokens). Chunk k is the decoding of window k.
   */
  method ChunkText<T>(tokens: seq<T>, chunkSize: int, overlap: int, decode: seq<T> -> string) returns (chunks: seq<string>)
    requires chunkSize > 0
    requires |tokens| == 0 || overlap < chunkSize
    ensures |tokens| == 0 ==> chunks == []
    ensures |tokens| > 0 ==> |chunks| == ChunkCount(|tokens|, chunkSize - overlap)
    ensures |tokens| > 0 ==> forall k :: 0 <= k < |chunks| ==>
      k * (chunkSize - overlap) < |tokens| && chunks[k] == decode(Window(tokens, k, chunkSize, chunkSize - overlap))
    ensures |tokens| > 0 ==> chunks == Chunks(tokens, chunkSize, chunkSize - overlap, decode)
  {
    chunks := [];
    if |tokens| == 0 {
      return;
    }
    var stride := chunkSize - overlap;
    var start := 0;
    while start < |tokens|
      invariant start == |chunks| * stride
      invariant |chunks| + ChunkCount(|tokens| - start, stride) == ChunkCount(|tokens|, stride)
      invariant forall k :: 0 <= k < |chunks| ==>
        k * stride < |tokens| && chunks[k] == decode(Window(tokens, k, chunkSize, stride))
      decreases |tokens| - start
    {
      var end := start + chunkSize;
      var chunkTokens := tokens[start..if end < |tokens| then end else |tokens|];
      WindowStep(tokens, chunkSize, stride, |chunks|, start);
      chunks := chunks + [decode(chunkTokens)];
      start := end - overlap;
    }
    ChunksByIndex(tokens, chunkSize, stride, decode, chunks);
  }

  /** One turn of the window loop: the slice at `start` is window n, and the next window starts one stride later. */
  lemma WindowStep<T>(tokens: seq<T>, size: int, stride: int, n: nat, start: int)
    requires size > 0 && stride > 0 && start == n * stride && start < |tokens|
    ensures n * stride < |tokens|
    ensures (n + 1) * stride == start + stride
    ensures ChunkCount(|tokens| - start, stride) == 1 + ChunkCount(|tokens| - (start + stride), stride)
    ensures tokens[start..if start + size < |tokens| then start + size else |tokens|] == Window(tokens, n, size, stride)
  {
  }

  /** A list with one entry per counted window, entry k the decoding of window k, is the chunk list. */
  lemma ChunksByIndex<T>(tokens: seq<T>, size: int, stride: int, decode: seq<T> -> string, chunks: seq<string>)
    requires size > 0 && stride > 0 && |chunks| == ChunkCount(|tokens|, stride)
    requires forall k :: 0 <= k < |chunks| ==> k * stride < |tokens| && chunks[k] == decode(Window(tokens, k, size, stride))
    ensures chunks == Chunks(tokens, size, stride, decode)
  {
  }

  // -------------------------------------------------------------- summary

  /** Python's text[:m]: the first m characters, counting a negative m from the end. */
  function PyHead(text: string, m: int): (h: string)
    ensures 0 <= m <= |text| ==> h == text[..m]
    ensures |h| <= |text| && h == text[..|h|]
  {
    if m >= |text| then text
    else if m >= 0 then text[..m]
    else if |text| + m > 0 then text[..|text| + m]
    else ""
  }

  /**
   * generate_document_summary: the text itself when short enough; otherwise its
   * first maxLength characters, cut just after the last '.' in them when that
   * '.' lies beyond maxLength // 2, and followed by "..." when not.
   */
  function GenerateDocumentSummary(text: string, maxLength: int): (s: string)
    ensures |text| <= maxLength ==> s == text
    ensures 0 <= maxLength < |text| ==>
      || (s == text[..maxLength] + "..." && forall i :: maxLength / 2 < i < maxLength ==> text[i] != '.')
      || (exists p :: maxLength / 2 < p < maxLength && text[p] == '.' && s == text[..p + 1]
                     && forall i :: p < i < maxLength ==> text[i] != '.')
    ensures 0 <= maxLength ==> |s| <= maxLength + 3
  {
    if |text| <= maxLength then text
    else
      var head := PyHead(text, maxLength);
      var lastPeriod := LastIndexOf(head, '.');
      if lastPeriod > maxLength / 2 then
        CutAfterPeriod(text, maxLength, head, lastPeriod);
        head[..lastPeriod + 1]
      else
        assert 0 <= maxLength ==> forall i :: maxLength / 2 < i < maxLength ==> head[i] == text[i];
        head + "..."
  }

  /** Cutting the head just after its last '.' keeps a prefix that ends in the text's last '.' before maxLength. */
  lemma CutAfterPeriod(text: string, maxLength: int, head: string, p: int)
    requires 0 <= maxLength < |text| ==> head == text[..maxLength]
    requires p == LastIndexOf(head, '.') && p > maxLength / 2
    ensures 0 <= maxLength < |text| ==>
              p < maxLength && text[p] == '.' && head[..p + 1] == text[..p + 1]
              && forall i :: p < i < maxLength ==> text[i] != '.'
  {
    if 0 <= maxLength < |text| {
      assert forall i :: p < i < maxLength ==> head[i] == text[i];
    }
  }

  /** A summary is either a prefix of the text or a prefix followed by "...". */
  lemma SummaryIsHead(text: string, maxLength: int)
    ensures var s := GenerateDocumentSummary(text, maxLength);
            StartsWith(text, s) || (|s| >= 3 && s[|s| - 3..] == "..." && StartsWith(text, s[..|s| - 3]))
  {
    var s := GenerateDocumentSummary(text, maxLength);
    if |text| > maxLength {
      var head := PyHead(text, maxLength);
      var lastPeriod := LastIndexOf(head, '.');
      if lastPeriod > maxLength / 2 {
        assert s == text[..lastPeriod + 1];
      } else {
        assert s[..|s| - 3] == head;
      }
    }
  }

  // ------------------------------------------------------------ embedding

  const DocumentLabel: string := "Document: "
  const ChunkLabel: string := "\n\nChunk: "

  /** prepare_chunk_for_embedding: the summary and the chunk under their labels. */
  function PrepareChunkForEmbedding(chunk: string, summary: string): (r: string)
    ensures StartsWith(r, DocumentLabel + summary + ChunkLabel)
    ensures |r| == |DocumentLabel| + |summary| + |ChunkLabel| + |chunk|
    ensures r[|r| - |chunk|..] == chunk
  {
    DocumentLabel + summary + ChunkLabel + chunk
  }

  /** The summary and the chunk can be read back from the prepared text. */
  lemma PreparedChunkParts(chunk: string, summary: string)
    ensures var r := PrepareChunkForEmbedding(chunk, summary);
            && r[|DocumentLabel|..|DocumentLabel| + |summary|] == summary
            && r[|DocumentLabel| + |summary| + |ChunkLabel|..] == chunk
  {
  }

  // ----------------------------------------------------- process_document

  /** Characters Python's str.isspace accepts, which str.strip removes. */
  predicate IsPySpace(c: char)
  {
    var n := c as int;
    || (9 <= n <= 13) || (28 <= n <= 32) || n == 0x85 || n == 0xA0 || n == 0x1680
    || (0x2000 <= n <= 0x200A) || n == 0x2028 || n == 0x2029 || n == 0x202F || n == 0x205F || n == 0x3000
  }

  /** r is s[i..j] and everything of s outside that slice is whitespace. */
  predicate TrimmedSlice(s: string, r: string, i: int, j: int)
  {
    && 0 <= i <= j <= |s| && r == s[i..j]
    && (forall k :: 0 <= k < i ==> IsPySpace(s[k]))
    && (forall k :: j <= k < |s| ==> IsPySpace(s[k]))
  }

  /** str.strip(): drop leading and trailing whitespace. */
  function Strip(s: string): (r: string)
    ensures |r| <= |s|
    ensures exists i, j :: TrimmedSlice(s, r, i, j)
    ensures |r| > 0 ==> !IsPySpace(r[0]) && !IsPySpace(r[|r| - 1])
    ensures (forall i :: 0 <= i < |s| ==> IsPySpace(s[i])) <==> r == ""
    decreases |s|
  {
    if |s| == 0 then
      assert TrimmedSlice(s, "", 0, 0);
      ""
    else if IsPySpace(s[0]) then
      var r := Strip(s[1..]);
      TrimmedSliceFront(s, r);
      r
    else if IsPySpace(s[|s| - 1]) then
      var r := Strip(s[..|s| - 1]);
      assert !IsPySpace(s[..|s| - 1][0]);
      TrimmedSliceBack(s, s[..|s| - 1], r);
      r
    else
      assert TrimmedSlice(s, s, 0, |s|);
      s
  }

  /** A trimmed slice of s[1..] is one of s when s starts with whitespace. */
  lemma TrimmedSliceFront(s: string, r: string)
    requires |s| > 0 && IsPySpace(s[0])
    requires exists i, j :: TrimmedSlice(s[1..], r, i, j)
    ensures exists i, j :: TrimmedSlice(s, r, i, j)
  {
    var i, j :| TrimmedSlice(s[1..], r, i, j);
    assert TrimmedSlice(s, r, i + 1, j + 1);
  }

  /** A trimmed slice of all but the last character is one of s when s ends with whitespace. */
  lemma TrimmedSliceBack(s: string, front: string, r: string)
    requires |s| > 0 && IsPySpace(s[|s| - 1]) && front == s[..|s| - 1]
    requires exists i, j :: TrimmedSlice(front, r, i, j)
    ensures exists i, j :: TrimmedSlice(s, r, i, j)
  {
    var i, j :| TrimmedSlice(front, r, i, j);
    assert TrimmedSlice(s, r, i, j);
  }

  /** ASCII lower-casing; the letters of "pdf" and "txt" have no other upper-case forms. */
  function AsciiLower(s: string): (r: string)
    ensures |r| == |s|
    ensures forall k :: 0 <= k < |r| ==> !('A' <= r[k] <= 'Z')
    ensures forall k :: 0 <= k < |s| && 'A' <= s[k] <= 'Z' ==> r[k] as int == s[k] as int + ('a' as int - 'A' as int)
    ensures forall k :: 0 <= k < |s| && !('A' <= s[k] <= 'Z') ==> r[k] == s[k]
  {
    seq(|s|, i requires 0 <= i < |s| => if 'A' <= s[i] <= 'Z' then (s[i] as int + 32) as char else s[i])
  }

  /**
   * filename.split('.')[-1]: a suffix of the name with no '.' in it that is
   * preceded by a '.', so the text after the last '.', or the whole name when
   * there is no '.'.
   */
  function LastDotSegment(filename: string): (ext: string)
    ensures '.' !in ext
    ensures |ext| <= |filename| && ext == filename[|filename| - |ext|..]
    ensures |ext| < |filename| ==> filename[|filename| - |ext| - 1] == '.'
    ensures '.' !in filename ==> ext == filename
  {
    var parts := Split(filename, '.');
    SplitLastPart(filename, '.');
    parts[|parts| - 1]
  }

  /** The last part of a split is a suffix preceded by the separator, or the whole string when it is the only part. */
  lemma {:induction false} SplitLastPart(s: string, sep: char)
    ensures var parts := Split(s, sep); var last := parts[|parts| - 1];
            && |last| <= |s| && last == s[|s| - |last|..]
            && (|last| < |s| ==> s[|s| - |last| - 1] == sep)
            && (|parts| == 1 ==> last == s)
            && (|parts| > 1 ==> |last| < |s|)
    decreases |s|
  {
    if |s| > 0 {
      SplitLastPart(s[1..], sep);
      var rest := Split(s[1..], sep);
      var last := rest[|rest| - 1];
      assert s[1..][|s| - 1 - |last|..] == s[|s| - |last|..];
      if s[0] != sep && |rest| == 1 {
        assert [s[0]] + s[1..] == s;
      }
    }
  }

  /** The extension process_document dispatches on. */
  function FileExtension(filename: string): string
  {
    AsciiLower(LastDotSegment(filename))
  }

  /** The extensions process_document accepts. */
  predicate Supported(ext: string)
  {
    ext == "pdf" || ext == "txt"
  }

  datatype DocumentError =
    | UnsupportedFileType(extension: string)
    | ExtractionFailed
    | TooShort
    | NoChunks
    | EmbeddingFailed
    | EmbeddingCountMismatch(embeddings: nat, chunks: nat)

  datatype ProcessedDocument<V> = ProcessedDocument(
    text: string,
    summary: string,
    chunks: seq<string>,
    chunksWithContext: seq<string>,
    embeddings: seq<V>)

  const SummaryLength: int := 500
  const ChunkSize: int := 500
  const ChunkOverlap: int := 50
  const MinimumTextLength: int := 50

  /** The collaborators process_document calls. */
  datatype DocumentServices<!T, V> = DocumentServices(
    extractPdf: Bytes -> Option<string>,
    decodeUtf8: Bytes -> Option<string>,
    encode: string -> seq<T>,
    decode: seq<T> -> string,
    embed: seq<string> -> Option<seq<V>>)

  /** The text of a file of a supported type, as extracted or decoded. */
  function ExtractedText<T, V>(content: Bytes, ext: string, svc: DocumentServices<T, V>): Option<string>
    requires Supported(ext)
  {
    if ext == "pdf" then svc.extractPdf(content) else svc.decodeUtf8(content)
  }

  /** The chunks of a text with the default size and overlap. */
  function DocumentChunks<T, V>(text: string, svc: DocumentServices<T, V>): (cs: seq<string>)
    ensures |cs| == 0 <==> |svc.encode(text)| == 0
  {
    ChunksEmptyIff(svc.encode(text), ChunkSize, ChunkSize - ChunkOverlap, svc.decode);
    Chunks(svc.encode(text), ChunkSize, ChunkSize - ChunkOverlap, svc.decode)
  }

  /** Every chunk prefixed with the summary, in order. */
  function ContextChunks(chunks: seq<string>, summary: string): (cs: seq<string>)
    ensures |cs| == |chunks|
    ensures forall k :: 0 <= k < |chunks| ==> cs[k] == PrepareChunkForEmbedding(chunks[k], summary)
  {
    seq(|chunks|, k requires 0 <= k < |chunks| => PrepareChunkForEmbedding(chunks[k], summary))
  }

  /**
   * process_document: the extension picks the extractor (anything other than
   * pdf or txt is refused); a failing extractor is an error; texts whose
   * stripped length is below 50 are refused; the summary and chunks are
   * computed; an empty chunk list is refused; every chunk is prefixed with
   * the summary and embedded; a failing embedding call is an error, and so is
   * an embedding count that differs from the chunk count.
   */
  method ProcessDocument<T, V>(content: Bytes, filename: string, svc: DocumentServices<T, V>)
    returns (r: Result<ProcessedDocument<V>, DocumentError>)
    ensures var ext := FileExtension(filename);
            !Supported(ext) ==> r == Failure(UnsupportedFileType(ext))
    ensures var ext := FileExtension(filename);
            Supported(ext) && ExtractedText(content, ext, svc).None? ==> r == Failure(ExtractionFailed)
    ensures var ext := FileExtension(filename);
            (Supported(ext) && ExtractedText(content, ext, svc).Some?
             && |Strip(ExtractedText(content, ext, svc).value)| < MinimumTextLength) ==> r == Failure(TooShort)
    ensures var ext := FileExtension(filename);
            (Supported(ext) && ExtractedText(content, ext, svc).Some?
             && |Strip(ExtractedText(content, ext, svc).value)| >= MinimumTextLength) ==>
              var text := ExtractedText(content, ext, svc).value;
              var chunks := DocumentChunks(text, svc);
              var withContext := ContextChunks(chunks, GenerateDocumentSummary(text, SummaryLength));
              && (|chunks| == 0 ==> r == Failure(NoChunks))
              && (|chunks| > 0 && svc.embed(withContext).None? ==> r == Failure(EmbeddingFailed))
              && (|chunks| > 0 && svc.embed(withContext).Some? && |svc.embed(withContext).value| != |chunks| ==>
                    r == Failure(EmbeddingCountMismatch(|svc.embed(withContext).value|, |chunks|)))
              && (|chunks| > 0 && svc.embed(withContext).Some? && |svc.embed(withContext).value| == |chunks| ==> r.Success?)
    ensures r.Success? ==>
      var d := r.value;
      && Supported(FileExtension(filename))
      && Some(d.text) == ExtractedText(content, FileExtension(filename), svc)
      && |Strip(d.text)| >= MinimumTextLength
      && d.summary == GenerateDocumentSummary(d.text, SummaryLength)
      && d.chunks == DocumentChunks(d.text, svc)
      && |d.chunks| > 0
      && |d.chunksWithContext| == |d.chunks| == |d.embeddings|
      && d.chunksWithContext == ContextChunks(d.chunks, d.summary)
      && Some(d.embeddings) == svc.embed(d.chunksWithContext)
  {
    var ext := FileExtension(filename);
    var extracted: Option<string>;
    if ext == "pdf" {
      extracted := svc.extractPdf(content);
    } else if ext == "txt" {
      extracted := svc.decodeUtf8(content);
    } else {
      return Failure(UnsupportedFileType(ext));
    }
    if extracted.None? {
      return Failure(ExtractionFailed);
    }
    var text := extracted.value;
    if |text| == 0 || |Strip(text)| < MinimumTextLength {
      return Failure(TooShort);
    }
    var summary := GenerateDocumentSummary(text, SummaryLength);
    var tokens := svc.encode(text);
    var chunks := ChunkText(tokens, ChunkSize, ChunkOverlap, svc.decode);
    assert chunks == DocumentChunks(text, svc);
    if |chunks| == 0 {
      return Failure(NoChunks);
    }
    var withContext := seq(|chunks|, k requires 0 <= k < |chunks| => PrepareChunkForEmbedding(chunks[k], summary));
    assert withContext == ContextChunks(chunks, summary);
    var embeddings := svc.embed(withContext);
    if embeddings.None? {
      return Failure(EmbeddingFailed);
    }
    if |embeddings.value| != |chunks| {
      return Failure(EmbeddingCountMismatch(|embeddings.value|, |chunks|));
    }
    return Success(ProcessedDocument(text, summary, chunks, withContext, embeddings.value));
  }

  /** A text that survives the length check yields at least one token window when the tokenizer yields a token. */
  lemma NonEmptyTokensGiveChunks(n: nat)
    requires n > 0
    ensures ChunkCount(n, ChunkSize - ChunkOverlap) >= 1
  {
  }
}
