/** pilot_with_pdf/run_pdf_analysis.py: the page window of
    `pdf_to_text_limited`, `call_llm_json` (the same retry loop as
    `extract_fields`, then fence stripping and a strict parse only),
    `keyword_scan`, and the samples `analyze_document` and
    `propose_taxonomy` put into their prompts. Its `chunk_text` is the one
    modelled in `Chunker`. */
module PdfAnalysis {
  import opened Wrappers
  import opened Text
  import opened Json
  import opened Gateway
  import opened Recovery
  import PdfExtract
  import Chunker

  /** The settings `main` uses. */
  const SkipFirstPages: nat := 8
  const MaxPagesAfterSkip: nat := 15
  const ChunkMaxChars: nat := 3500
  const ChunkOverlap: nat := 300

  // ---------------------------------------------------------------------
  // Pages

  /** `pdf.pages[i].extract_text() or ""`: a page without text counts as
      empty. */
  function PageText(page: Option<string>): string {
    match page
    case Some(t) => t
    case None => ""
  }

  /** How many pages `range(start, min(start + max_pages, total))` visits. */
  function PageCount(total: nat, skipFirst: nat, maxPages: nat): nat {
    var end := Min(skipFirst + maxPages, total);
    if end <= skipFirst then 0 else end - skipFirst
  }

  /** The page texts used, in order. */
  function PageWindow(pages: seq<Option<string>>, skipFirst: nat, maxPages: nat): seq<string> {
    var n := PageCount(|pages|, skipFirst, maxPages);
    seq(n, k requires 0 <= k < n => PageText(pages[skipFirst + k]))
  }

  /** `pdf_to_text_limited`: the texts of the pages from `skip_first` on,
      at most `max_pages` of them, joined with newlines. The pages are a
      parameter (the text `pdfplumber` extracts from each page, if any). */
  method PdfToTextLimited(pages: seq<Option<string>>, skipFirst: nat, maxPages: nat) returns (text: string)
    ensures text == Join("\n", PageWindow(pages, skipFirst, maxPages))
  {
    var texts: seq<string> := [];
    var start := skipFirst;
    var end := Min(skipFirst + maxPages, |pages|);
    ghost var n := PageCount(|pages|, skipFirst, maxPages);
    var i := start;
    while i < end
      invariant start <= i <= start + n
      invariant n > 0 ==> start + n == end <= |pages|
      invariant |texts| == i - start
      invariant forall k :: 0 <= k < |texts| ==> texts[k] == PageText(pages[start + k])
    {
      texts := texts + [PageText(pages[i])];
      i := i + 1;
    }
    assert texts == PageWindow(pages, skipFirst, maxPages);
    text := Join("\n", texts);
  }

  /** Page `skip_first + k` is the `k`-th one used, for every `k` below
      `min(max_pages, total - skip_first)`; nothing is used when the skip
      reaches the end of the document. */
  lemma PageWindowSpec(pages: seq<Option<string>>, skipFirst: nat, maxPages: nat)
    ensures var w := PageWindow(pages, skipFirst, maxPages);
      && |w| == (if skipFirst >= |pages| then 0 else Min(maxPages, |pages| - skipFirst))
      && forall k :: 0 <= k < |w| ==>
           skipFirst + k < |pages| && w[k] == PageText(pages[skipFirst + k])
    ensures skipFirst >= |pages| ==> Join("\n", PageWindow(pages, skipFirst, maxPages)) == ""
  {
  }

  /** The first steps of `main`: the text of pages 8 to 22 at most, cut
      into chunks of 3500 characters that overlap by 300. These settings
      meet the chunker's requirement that the overlap be smaller than the
      window. */
  method TextAndChunks(pages: seq<Option<string>>) returns (text: string, chunks: seq<string>)
    ensures text == Join("\n", PageWindow(pages, SkipFirstPages, MaxPagesAfterSkip))
    ensures chunks == Chunker.Chunks(Chunker.Normalize(text), ChunkMaxChars, ChunkOverlap)
  {
    text := PdfToTextLimited(pages, SkipFirstPages, MaxPagesAfterSkip);
    chunks := Chunker.ChunkText(text, ChunkMaxChars, ChunkOverlap);
  }

  // ---------------------------------------------------------------------
  // call_llm_json

  /** `raw_output` keeps at most this many characters of the cleaned text. */
  const RawOutputLimit: nat := 1500

  /** What `call_llm_json` returns once the gateway has answered: the
      `output_text`, cleaned, parsed strictly, or else the error record. */
  function InterpretStrict(r: Response, parse: Parser): Json {
    var clean := CleanFences(r.outputText);
    RecoverStrict(clean, parse, ErrorRecord(PyPrefix(clean, RawOutputLimit)))
  }

  function CallOutcome(replies: Replies, parse: Parser): Result<Json> {
    match Retry(replies).outcome
    case Err(e) => Err(e)
    case Ok(r) => Ok(InterpretStrict(r, parse))
  }

  method CallLlmJson(prompt: string, endpoint: string -> Replies, parse: Parser)
    returns (result: Result<Json>, sleeps: seq<nat>)
    ensures result == CallOutcome(endpoint(prompt), parse)
    ensures sleeps == Retry(endpoint(prompt)).sleeps
  {
    var outcome, calls;
    outcome, calls, sleeps := CallWithRetry(endpoint(prompt));
    match outcome {
      case Err(e) => result := Err(e);
      case Ok(r) => result := Ok(InterpretStrict(r, parse));
    }
  }

  /** As in `extract_fields`, only the gateway can make the call raise. */
  lemma OnlyGatewayRaises(replies: Replies, parse: Parser)
    ensures CallOutcome(replies, parse).Err? <==> forall k :: 0 <= k < Attempts ==> replies(k).Failed?
  {
    RetryStopsAtFirstAnswer(replies, 0);
  }

  /** Without the brace fallback, an object wrapped in prose is lost: the
      analysis gives the error record (keeping 1500 characters) where the
      extraction scripts recover the object. */
  lemma ProseLosesObject(r: Response, pre: string, obj: string, post: string, parse: Parser)
    requires r.outputText != []
    requires CleanFences(r.outputText) == pre + obj + post
    requires |obj| >= 2 && obj[0] == '{' && obj[|obj| - 1] == '}'
    requires forall k :: 0 <= k < |pre| ==> pre[k] != '{'
    requires forall k :: 0 <= k < |post| ==> post[k] != '}'
    requires parse(pre + obj + post).Err? && parse(obj).Ok?
    ensures InterpretStrict(r, parse) == ErrorRecord(PyPrefix(pre + obj + post, RawOutputLimit))
    ensures PdfExtract.Interpret(r, parse) == parse(obj).value
  {
    ProseWrappedObject(pre, obj, post, parse, ErrorRecord(PyPrefix(pre + obj + post, PdfExtract.RawOutputLimit)));
  }

  // ---------------------------------------------------------------------
  // keyword_scan

  const Keywords: seq<string> := ["grant", "fund", "funding", "scheme", "subsidy", "loan", "tax",
                                  "incentive", "standard", "procurement", "regulation", "eligible",
                                  "million", "HK$"]

  /** `keyword_scan`: for every keyword, how often its lower-cased form
      occurs, without overlapping, in the lower-cased text; keywords that do
      not occur get a zero entry. */
  method KeywordScan(text: string) returns (counts: map<string, nat>)
    ensures counts.Keys == set kw | kw in Keywords
    ensures forall kw :: kw in counts ==> counts[kw] == Count(Lower(text), Lower(kw))
  {
    var textLower := Lower(text);
    counts := map[];
    var k := 0;
    while k < |Keywords|
      invariant k <= |Keywords|
      invariant counts.Keys == set j | 0 <= j < k :: Keywords[j]
      invariant forall kw :: kw in counts ==> counts[kw] == Count(textLower, Lower(kw))
    {
      var kw := Keywords[k];
      counts := counts[kw := Count(textLower, Lower(kw))];
      k := k + 1;
    }
  }

  /** A keyword's count is zero exactly when it does not occur, ignoring
      case, and the counted occurrences fit in the text. */
  lemma KeywordCountMeaning(text: string, kw: string)
    requires kw in Keywords
    ensures Count(Lower(text), Lower(kw)) == 0 <==> !IsInfix(Lower(kw), Lower(text))
    ensures Count(Lower(text), Lower(kw)) * |kw| <= |text|
  {
    assert |kw| > 0;
    CountZeroIffAbsent(Lower(text), Lower(kw));
    CountFits(Lower(text), Lower(kw));
  }

  // ---------------------------------------------------------------------
  // Prompt samples

  /** `analyze_document` sends only `text[:7000]`. */
  const SampleChars: nat := 7000

  const AnalysisIntro: string := @"
You are helping build a dataset from a government PDF.

Return ONLY JSON with:
- doc_type
- instrument_density
- extraction_feasibility
- likely_instrument_types
- recommended_next_step
- notes

Be conservative and analytical.
No policy advice.

TEXT:
"

  function AnalysisPrompt(text: string): string {
    AnalysisIntro + PyPrefix(text, SampleChars) + "\n"
  }

  /** The prompt holds the first 7000 characters verbatim and nothing else
      of the text: two texts that agree there get the same prompt. */
  lemma AnalysisPromptSample(text: string, other: string)
    ensures var sample := PyPrefix(text, SampleChars);
      && |sample| == Min(|text|, SampleChars)
      && InfixAt(sample, AnalysisPrompt(text), |AnalysisIntro|)
    ensures PyPrefix(other, SampleChars) == PyPrefix(text, SampleChars) ==>
      AnalysisPrompt(other) == AnalysisPrompt(text)
  {
    var sample := PyPrefix(text, SampleChars);
    var p := AnalysisPrompt(text);
    assert p[|AnalysisIntro|..|AnalysisIntro| + |sample|] == sample;
  }

  /** `analyze_document` (its `max_output_tokens` is not modelled). */
  method AnalyzeDocument(text: string, endpoint: string -> Replies, parse: Parser)
    returns (result: Result<Json>, sleeps: seq<nat>)
    ensures result == CallOutcome(endpoint(AnalysisPrompt(text)), parse)
    ensures sleeps == Retry(endpoint(AnalysisPrompt(text))).sleeps
  {
    result, sleeps := CallLlmJson(AnalysisPrompt(text), endpoint, parse);
  }

  const ProposalIntro: string := @"
Based on the text below:

1) Propose a taxonomy (8-12 categories) for coding industrial policy instruments.
2) Provide short definitions.
3) Suggest minimal extraction schema fields.
4) Provide 5 coding decision rules.

Return ONLY JSON.

TEXT:
"

  /** `propose_taxonomy` joins `chunks[:k]` with blank lines. */
  function ProposalPrompt(chunks: seq<string>, k: int): string {
    ProposalIntro + Join("\n\n", PyPrefix(chunks, k)) + "\n"
  }

  /** Each of the first `k` chunks (all of them when there are fewer)
      appears verbatim in the prompt, and the later ones play no part. */
  lemma ProposalPromptSample(chunks: seq<string>, k: nat, other: seq<string>)
    ensures forall i :: 0 <= i < Min(k, |chunks|) ==> IsInfix(chunks[i], ProposalPrompt(chunks, k))
    ensures PyPrefix(other, k) == PyPrefix(chunks, k) ==> ProposalPrompt(other, k) == ProposalPrompt(chunks, k)
  {
    var sample := PyPrefix(chunks, k);
    forall i | 0 <= i < Min(k, |chunks|)
      ensures IsInfix(chunks[i], ProposalPrompt(chunks, k))
    {
      assert sample[i] == chunks[i];
      JoinContains("\n\n", sample, i);
      InfixWithin(chunks[i], ProposalIntro, Join("\n\n", sample), "\n");
    }
  }

  /** `propose_taxonomy(chunks, k)`; `main` relies on the default `k = 4`. */
  method ProposeTaxonomy(chunks: seq<string>, k: int, endpoint: string -> Replies, parse: Parser)
    returns (result: Result<Json>, sleeps: seq<nat>)
    ensures result == CallOutcome(endpoint(ProposalPrompt(chunks, k)), parse)
    ensures sleeps == Retry(endpoint(ProposalPrompt(chunks, k))).sleeps
  {
    result, sleeps := CallLlmJson(ProposalPrompt(chunks, k), endpoint, parse);
  }
}
