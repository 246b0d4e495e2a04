# Policy instrument extraction pipeline: a Dafny model

This project models the core of a small research pipeline that codes
industrial-policy instruments from government documents with a language
model. The pipeline has four stages:

1. **Chunking.** Text comes from a page window of a PDF. Runs of three or
   more newlines are collapsed to two, the text is stripped, and it is cut
   into fixed-size windows that overlap.
2. **Extraction.** A few-shot prompt is built for each chunk and sent to
   the model endpoint. A call is tried up to three times (at most two
   retries), with exponential back-off between attempts.
3. **Tolerant parsing.** The reply is stripped of Markdown code fences
   and parsed as JSON. If that fails, the parser tries the window from the
   first `{` to the last `}`. If that also fails, the reply becomes an
   error record.
4. **Aggregation.** The per-chunk records are collected into rows, each
   tagged with its chunk index. A row whose call raised carries the error
   message instead of fields.

The same functions appear, copied, in several scripts. Each is modelled
once and the model table cites the copy that was modelled:

- `chunk_text` appears in `pilot_with_pdf/run_pdf_extract_after_analysis.py:118-125`,
  `pilot_with_pdf/run_pdf_extract_naive.py:91-98` and
  `pilot_with_pdf/run_pdf_analysis.py:78-85`. The bodies are
  identical. The first two copies default to `max_chars=5000, overlap=500`
  and the third has no defaults. Every caller passes both arguments, so
  the defaults are not modelled.
- `pdf_to_text_limited` appears in all three `pilot_with_pdf` scripts.
- `extract_fields`, with its retry loop, fence cleaning and brace fallback,
  appears in the naive and the after-analysis scripts. The two copies
  differ only in their few-shot block.
- The row loop in `main` appears in the same two scripts.

The model is split into modules:

- `Wrappers`: `Option` and `Result`.
- `Json`: the JSON value type. The parser is a parameter
  (`Parser = string -> Result<Json>`), because `json.loads` is not part of
  this model.
- `Text`: Python string semantics used throughout. This covers
  `str.strip` with the `str.isspace` set, slicing `s[:k]` with negative and
  zero `k`, `"sep".join`, `str.count`, ASCII `str.lower`, and the `repr` of
  a list of strings.
- `Chunker`: `re.sub(r"\n{3,}", "\n\n", ·).strip()` and the window loop.
- `Gateway`: the model endpoint as a sequence of replies per attempt, and
  the three-attempt retry with back-off `2 ** attempt`.
- `Recovery`: fence stripping, the first-`{`-to-last-`}` window, and the two
  parse cascades (with and without the brace fallback).
- `Taxonomy`: the nine labels.
- `PdfExtract`, `AfterAnalysis`, `Naive`: the two PDF extraction scripts.
- `PdfAnalysis`: the document analysis script (page window, `call_llm_json`,
  keyword scan, analysis and taxonomy prompts).
- `InstrumentExtract`, `Classify`, `BatchPipeline`: the modules that work
  without a PDF.

Stateful code is modelled as methods with loops, each proved against a
specification function:

- `PdfToTextLimited`, the chunk loop, the retry loop, the keyword scan and
  the two row loops are methods.
- Parsing and prompt building are functions.

## Model

| member | source | states |
|---|---|---|
| Text.Strip | pilot_with_pdf/run_pdf_extract_after_analysis.py:119 | `str.strip`: only whitespace is removed (the result sits in the input between an all-whitespace prefix and an all-whitespace suffix), the result starts and ends with a non-whitespace character, and it is empty exactly when the input is all whitespace |
| Text.StripOfStripped | pilot_with_pdf/run_pdf_extract_after_analysis.py:163 | stripping text that has no leading or trailing whitespace leaves it unchanged |
| Text.JoinContains | pilot_with_pdf/run_pdf_analysis.py:166 | every element of a `"sep".join` list occurs in the joined string |
| Text.ListReprContains | pilot_with_pdf/run_pdf_extract_after_analysis.py:73 | every element of a printed list of strings occurs in its `repr` |
| Text.LowerIdempotent | pilot_with_pdf/run_pdf_analysis.py:120 | lower-casing twice is the same as lower-casing once |
| Text.CountZeroIffAbsent | pilot_with_pdf/run_pdf_analysis.py:124 | `str.count` is zero exactly when the needle does not occur in the text |
| Text.CountFits | pilot_with_pdf/run_pdf_analysis.py:124 | non-overlapping occurrences counted by `str.count` fit in the text: count times needle length is at most the text length |
| Chunker.CollapseNewlines | pilot_with_pdf/run_pdf_extract_after_analysis.py:119 | collapsing never lengthens the text, and the result starts with a newline exactly when the input does |
| Chunker.CollapseRun | pilot_with_pdf/run_pdf_extract_after_analysis.py:119 | a run of n newlines followed by a non-newline becomes two newlines when n ≥ 3 and stays as it is otherwise; the rest is collapsed on its own |
| Chunker.CollapseChar | pilot_with_pdf/run_pdf_extract_after_analysis.py:119 | a character other than newline is kept and the substitution continues after it |
| Chunker.CollapseIsTripleFree | pilot_with_pdf/run_pdf_extract_after_analysis.py:119 | after the substitution no three newlines are adjacent |
| Chunker.CollapseKeepsOtherChars | pilot_with_pdf/run_pdf_extract_after_analysis.py:119 | only newlines are removed: the characters other than newline are the same, in the same order |
| Chunker.CollapseKeepsBlankness | pilot_with_pdf/run_pdf_extract_after_analysis.py:119 | the collapsed text is all whitespace exactly when the input is |
| Chunker.CollapseKeepsTripleFree | pilot_with_pdf/run_pdf_extract_after_analysis.py:119 | text with no run of three newlines is left unchanged |
| Chunker.CollapseIdempotent | pilot_with_pdf/run_pdf_extract_after_analysis.py:119 | applying the substitution twice equals applying it once |
| Chunker.Normalize | pilot_with_pdf/run_pdf_extract_after_analysis.py:119 | `re.sub(r"\n{3,}", "\n\n", text).strip()`; its properties are stated by `NormalizeShape` and `NormalizeIdempotent` |
| Chunker.NormalizeShape | pilot_with_pdf/run_pdf_extract_after_analysis.py:119 | normalised text has no triple newline, no surrounding whitespace, and is empty exactly when the input is blank |
| Chunker.NormalizeIdempotent | pilot_with_pdf/run_pdf_extract_after_analysis.py:119 | normalising normalised text changes nothing |
| Chunker.ChunkText | pilot_with_pdf/run_pdf_extract_after_analysis.py:118-125 | the loop's chunk list equals the windows of the normalised text (`Chunks`), for any overlap below the window size |
| Chunker.EmitWindows | pilot_with_pdf/run_pdf_extract_after_analysis.py:120-125 | the `while` loop over start positions emits exactly the windows starting at 0, step, 2·step, … below the text length |
| Chunker.WindowsAt | pilot_with_pdf/run_pdf_extract_after_analysis.py:121-124 | the k-th window from position i starts inside the text at i + k·step and is the slice up to i + k·step + max_chars, clipped at the end |
| Chunker.WindowsCount | pilot_with_pdf/run_pdf_extract_after_analysis.py:121-124 | the loop stops at the first start position at or past the end, and emits nothing when it starts past the end |
| Chunker.ChunkShape | pilot_with_pdf/run_pdf_extract_after_analysis.py:122-124 | chunk k is `norm[k·step : k·step + max_chars]`, non-empty and at most `max_chars` long |
| Chunker.ChunkCount | pilot_with_pdf/run_pdf_extract_after_analysis.py:122-124 | there are ⌈len / (max_chars − overlap)⌉ chunks |
| Chunker.ChunkCoverage | pilot_with_pdf/run_pdf_extract_after_analysis.py:122-124 | every character of the normalised text lies in some chunk |
| Chunker.DropOverlapsFrom | pilot_with_pdf/run_pdf_extract_after_analysis.py:122-124 | dropping the first `overlap` characters of every window from position i leaves the text after i + overlap |
| Chunker.StitchRestoresText | pilot_with_pdf/run_pdf_extract_after_analysis.py:122-124 | the first chunk followed by the other chunks without their leading overlap gives back the normalised text |
| Chunker.NoChunksIffBlank | pilot_with_pdf/run_pdf_extract_after_analysis.py:118-125 | `chunk_text` returns no chunk exactly when the input is all whitespace |
| Chunker.OneChunkIffWithinStep | pilot_with_pdf/run_pdf_extract_after_analysis.py:122-124 | non-empty text gives a single chunk exactly when it is no longer than `max_chars − overlap`, and that chunk is the whole text |
| Chunker.RedundantTailChunk | pilot_with_pdf/run_pdf_extract_after_analysis.py:122-124 | text longer than the step but no longer than a window gives at least two chunks, the first being the whole text and the second contained in it |
| Chunker.RedundantTailExample | pilot_with_pdf/run_pdf_extract_after_analysis.py:118-125 | `chunk_text("abcd", 4, 1)` is `["abcd", "d"]` |
| Chunker.ChunkTextToEnd | pilot_with_pdf/run_pdf_extract_after_analysis.py:118-125 | the corrected chunker's loop returns `ChunksToEnd` of the normalised text |
| Chunker.WindowsUntilEnd | pilot_with_pdf/run_pdf_extract_after_analysis.py:120-125 | the corrected loop stops once a window has reached the end of the text, and returns `ChunksToEnd` |
| Chunker.WindowsToEndAt | pilot_with_pdf/run_pdf_extract_after_analysis.py:122-124 | in the corrected chunker the k-th window from position i is the slice at i + k·step clipped at the end, and that start lies inside the text |
| Chunker.WindowsToEndFollowed | pilot_with_pdf/run_pdf_extract_after_analysis.py:122-124 | in the corrected chunker window k is followed by window k + 1 exactly when it ends before the text does |
| Chunker.WindowsToEndShape | pilot_with_pdf/run_pdf_extract_after_analysis.py:122-124 | in the corrected chunker the k-th window is the clipped slice at i + k·step, and a window is followed by another exactly when it ends before the text does |
| Chunker.DropOverlapsToEnd | pilot_with_pdf/run_pdf_extract_after_analysis.py:122-124 | in the corrected chunker, dropping the overlaps of the windows from i leaves the text after i + overlap |
| Chunker.ToEndShortTextIsOneChunk | pilot_with_pdf/run_pdf_extract_after_analysis.py:122-124 | in the corrected chunker, a non-empty text of at most `max_chars` is one chunk |
| Chunker.ToEndShape | pilot_with_pdf/run_pdf_extract_after_analysis.py:122-124 | in the corrected chunker every chunk but the last is a full window, and the last one reaches the end of the text |
| Chunker.ToEndStitch | pilot_with_pdf/run_pdf_extract_after_analysis.py:122-124 | in the corrected chunker, stitching the chunks gives back the normalised text |
| Gateway.RawText | pilot_with_pdf/run_pdf_extract_after_analysis.py:156-161 | the reply text: `output_text` when non-empty, else the first content text, else `str(r)`; used by `ExtractFields` |
| Gateway.CallWithRetry | pilot_with_pdf/run_pdf_extract_after_analysis.py:138-154 | the retry loop's outcome, number of calls and sleeps equal the specification `Retry` of the endpoint's replies |
| Gateway.RetryBounds | pilot_with_pdf/run_pdf_extract_after_analysis.py:140-154 | from attempt a there are 1 to 3 − a calls, one sleep fewer than calls, and the sleep after attempt a + k is `2 ** (a + k)` |
| Gateway.RetrySleeps | pilot_with_pdf/run_pdf_extract_after_analysis.py:149-151 | a call sleeps 1 then 2 seconds between its at most three attempts, and never after the last |
| Gateway.RetryStopsAtFirstAnswer | pilot_with_pdf/run_pdf_extract_after_analysis.py:140-148 | the call succeeds exactly when one of the remaining attempts answers; it then returns the first answer, and every earlier attempt failed |
| Gateway.RetryGivesUp | pilot_with_pdf/run_pdf_extract_after_analysis.py:149-154 | when all three attempts fail, the last failure is re-raised after 3 calls and sleeps of 1 and 2 |
| Recovery.FenceRoundTrip | pilot_with_pdf/run_pdf_extract_after_analysis.py:163-165 | a reply of the form fence, optional `json` tag, whitespace, payload, whitespace, fence is cleaned to exactly the payload |
| Recovery.FencesRemoved | pilot_with_pdf/run_pdf_extract_after_analysis.py:164-165 | applying both fence substitutions to a fenced payload leaves the payload |
| Recovery.LeadingFenceOfFenced | pilot_with_pdf/run_pdf_extract_after_analysis.py:164 | the leading-fence substitution on a fenced payload leaves the payload and the closing fence |
| Recovery.LeadingFenceRemoved | pilot_with_pdf/run_pdf_extract_after_analysis.py:164 | the leading-fence pattern removes the fence, an optional case-insensitive `json` tag and the whitespace after it |
| Recovery.TagDropped | pilot_with_pdf/run_pdf_extract_after_analysis.py:164 | the optional `json` tag is removed when present and nothing is removed otherwise |
| Recovery.TrailingFenceRemoved | pilot_with_pdf/run_pdf_extract_after_analysis.py:165 | the trailing-fence pattern removes the closing fence and the whitespace before it |
| Recovery.UnfencedOnlyStripped | pilot_with_pdf/run_pdf_extract_after_analysis.py:163-165 | a reply that neither starts nor ends with a fence is only stripped |
| Recovery.CleanFences | pilot_with_pdf/run_pdf_extract_after_analysis.py:163-165 | the strip and both fence substitutions; the cleaned text is a contiguous piece of the stripped reply and never longer than it |
| Recovery.FirstIndex | pilot_with_pdf/run_pdf_extract_after_analysis.py:170 | returns the position of the first occurrence of the character, or nothing when it does not occur |
| Recovery.LastIndex | pilot_with_pdf/run_pdf_extract_after_analysis.py:170 | returns the position of the last occurrence of the character, or nothing when it does not occur |
| Recovery.BraceWindow | pilot_with_pdf/run_pdf_extract_after_analysis.py:170-171 | `re.search(r"\{.*\}", clean, flags=re.DOTALL)`: a match starts with `{`, ends with `}`, is at least two characters and is a contiguous piece of the text |
| Recovery.BraceWindowExists | pilot_with_pdf/run_pdf_extract_after_analysis.py:170-171 | the greedy `\{.*\}` search with DOTALL matches exactly when some `{` comes before some `}` |
| Recovery.BraceWindowOutermost | pilot_with_pdf/run_pdf_extract_after_analysis.py:170 | the match runs from the first `{` to the last `}` |
| Recovery.BraceWindowInProse | pilot_with_pdf/run_pdf_extract_after_analysis.py:170 | an object between prose with no `{` before it and no `}` after it is matched exactly |
| Recovery.BraceWindowExample | pilot_with_pdf/run_pdf_extract_after_analysis.py:170 | the match keeps nested braces: `Sure: {"a": {"b": 2}} done` gives `{"a": {"b": 2}}` |
| Recovery.RecoverWithBraces | pilot_with_pdf/run_pdf_extract_after_analysis.py:167-177 | the parse cascade with the brace fallback; its cases are stated by `RecoverWithBracesCases` |
| Recovery.RecoverWithBracesCases | pilot_with_pdf/run_pdf_extract_after_analysis.py:167-177 | a parsable reply is returned as parsed; otherwise a parsable brace window is returned; any other result is the error record |
| Recovery.BracesExtendStrict | pilot_with_pdf/run_pdf_analysis.py:109-112 | whenever the strict cascade of `call_llm_json` succeeds, the brace cascade returns the same value |
| Recovery.NoBracesSameAsStrict | pilot_with_pdf/run_pdf_extract_after_analysis.py:169-177 | when no `{` precedes a `}`, the brace cascade and the strict cascade agree |
| Recovery.FencedTextRecovered | pilot_with_pdf/run_pdf_extract_after_analysis.py:163-168 | a fenced reply whose payload parses yields that payload's value under both cascades |
| Recovery.ProseWrappedObject | pilot_with_pdf/run_pdf_analysis.py:109-112 | an object wrapped in prose is recovered by the brace cascade and lost by the strict one |
| Taxonomy.PrintedListNamesLabels | pilot_without_pdf/src/extract.py:30 | a prompt that prints the label list contains every label |
| Taxonomy.PromptHoldsText | pilot_without_pdf/src/extract.py:47-48 | a prompt that embeds the text contains it |
| PdfExtract.PromptEmbedsChunk | pilot_with_pdf/run_pdf_extract_after_analysis.py:129-137 | the extraction prompt starts with the few-shot block and holds the chunk right after the fixed instruction |
| PdfExtract.PromptNamesPrintedLabels | pilot_with_pdf/run_pdf_extract_after_analysis.py:129-137 | every label printed in the few-shot block occurs in the extraction prompt |
| PdfExtract.ExtractFields | pilot_with_pdf/run_pdf_extract_after_analysis.py:128-177 | the method's result and its sleeps are those of the retry specification applied to the prompt's replies, followed by the tolerant parse |
| PdfExtract.OnlyGatewayRaises | pilot_with_pdf/run_pdf_extract_after_analysis.py:138-177 | `extract_fields` raises exactly when all three attempts fail, with the last failure's message; a bad reply never raises |
| PdfExtract.UnparsableGivesErrorRecord | pilot_with_pdf/run_pdf_extract_after_analysis.py:177 | a reply that parses neither whole nor by braces gives the error record with the first 1000 characters of the cleaned reply |
| PdfExtract.ChunkRow | pilot_with_pdf/run_pdf_extract_after_analysis.py:209-214 | the row for one chunk's outcome; its shape is stated by `RowCarriesIndex`, `RowKeepsParsedFields`, `GatewayFailureRow` and `ErrorRowShape` |
| PdfExtract.ExtractAll | pilot_with_pdf/run_pdf_extract_after_analysis.py:207-214 | one row per chunk, in order, each the row for that chunk's extraction outcome |
| PdfExtract.RowCarriesIndex | pilot_with_pdf/run_pdf_extract_after_analysis.py:210-214 | every row carries its chunk index under `chunk_id` |
| PdfExtract.RowKeepsParsedFields | pilot_with_pdf/run_pdf_extract_after_analysis.py:210-212 | a parsed object keeps all its fields and gains `chunk_id` |
| PdfExtract.GatewayFailureRow | pilot_with_pdf/run_pdf_extract_after_analysis.py:213-214 | when all attempts fail, the row is `{chunk_id, error}` with the last failure's message |
| PdfExtract.ErrorRowShape | pilot_with_pdf/run_pdf_extract_after_analysis.py:209-214 | a raised call, or a parsed value that is not an object, gives a row with exactly `chunk_id` and a string `error` |
| AfterAnalysis.LoadLatestTaxonomy | pilot_with_pdf/run_pdf_extract_after_analysis.py:27-64 | the newest plan file's parsed content, or the default plan when there is none or it cannot be read; the default is described by `DefaultPlanShape` |
| AfterAnalysis.DefaultEntries | pilot_with_pdf/run_pdf_extract_after_analysis.py:37 | the default taxonomy has one `{category, definition: ""}` entry per label, in order |
| AfterAnalysis.DefaultPlanShape | pilot_with_pdf/run_pdf_extract_after_analysis.py:35-69 | without a readable plan file the categories are the nine labels; the schema fields as written are empty and as intended are the six defaults |
| AfterAnalysis.DefaultCategories | pilot_with_pdf/run_pdf_extract_after_analysis.py:68 | reading `category` back from the default entries gives the labels |
| AfterAnalysis.CategoriesOfItemsSpec | pilot_with_pdf/run_pdf_extract_after_analysis.py:68 | the comprehension succeeds exactly when every entry is a dict, and then gives each entry's `category` or `None` |
| AfterAnalysis.SchemaFieldsAlwaysEmpty | pilot_with_pdf/run_pdf_extract_after_analysis.py:69 | `[:-0]` always produces an empty list or empty string, whatever the plan holds |
| AfterAnalysis.FewshotNamesCategories | pilot_with_pdf/run_pdf_extract_after_analysis.py:71-87 | the few-shot block offers every category string it is given, verbatim, whatever field text follows |
| AfterAnalysis.Texts | pilot_with_pdf/run_pdf_extract_after_analysis.py:73 | a list of decoded values has texts exactly when every item is a string, and those texts read back as the list |
| AfterAnalysis.PrintedFields | pilot_with_pdf/run_pdf_extract_after_analysis.py:76 | `{SCHEMA_FIELDS}` in the f-string: a list of strings prints as its `repr`, a string as itself |
| AfterAnalysis.PlanBlock | pilot_with_pdf/run_pdf_extract_after_analysis.py:66-87 | the block built from a loaded plan's `TAXONOMY_CATEGORIES` and `SCHEMA_FIELDS` around given fixed text; its content is stated by the two lemmas below |
| AfterAnalysis.PlanFewshotBlock | pilot_with_pdf/run_pdf_extract_after_analysis.py:71-87 | `FEWSHOT_BLOCK` of a loaded plan: `PlanBlock` with the block's own fixed text, so the two lemmas below apply to it |
| AfterAnalysis.LoadedBlockNamesCategories | pilot_with_pdf/run_pdf_extract_after_analysis.py:66-87 | whenever the block of a loaded plan can be built, every category of that plan is a string and occurs verbatim in the block, whatever the fixed text around the lists |
| AfterAnalysis.DefaultFewshotNamesLabels | pilot_with_pdf/run_pdf_extract_after_analysis.py:27-87 | without a usable plan file the block prints the nine labels and `[]` for the fields, and it names each of the nine labels, whatever the fixed text around the lists |
| Naive.PromptNamesLabelsAndChunk | pilot_with_pdf/run_pdf_extract_naive.py:24-60 | the naive extraction prompt names all nine labels and holds the chunk after the fixed instruction |
| PdfAnalysis.PdfToTextLimited | pilot_with_pdf/run_pdf_analysis.py:61-75 | the loop's text is the pages of the window joined by newlines |
| PdfAnalysis.PageWindow | pilot_with_pdf/run_pdf_analysis.py:64-73 | the page texts from `skip_first` to `min(skip_first + max_pages, total)`; stated by `PageWindowSpec` |
| PdfAnalysis.TextAndChunks | pilot_with_pdf/run_pdf_analysis.py:194-201 | with `main`'s settings (skip 8 pages, at most 15, chunks of 3500 overlapping by 300) the text is the joined page window and the chunks are the windows of its normalised form; the settings meet the chunker's overlap requirement |
| PdfAnalysis.PageWindowSpec | pilot_with_pdf/run_pdf_analysis.py:64-75 | the window holds min(max_pages, total − skip) pages starting after the skipped ones, with `None` read as empty text; it is empty when everything is skipped |
| PdfAnalysis.CallLlmJson | pilot_with_pdf/run_pdf_analysis.py:88-112 | the result and sleeps of `call_llm_json` are the retry specification followed by the strict parse |
| PdfAnalysis.OnlyGatewayRaises | pilot_with_pdf/run_pdf_analysis.py:89-112 | `call_llm_json` raises exactly when all three attempts fail |
| PdfAnalysis.ProseLosesObject | pilot_with_pdf/run_pdf_analysis.py:105-112 | a reply with an object wrapped in prose gives the error record, with the first 1500 characters, in `call_llm_json`, while `extract_fields` recovers the object |
| PdfAnalysis.KeywordScan | pilot_with_pdf/run_pdf_analysis.py:119-130 | the scan has one entry per keyword, holding the number of case-insensitive occurrences of the keyword in the text |
| PdfAnalysis.KeywordCountMeaning | pilot_with_pdf/run_pdf_analysis.py:123-124 | a keyword's count is zero exactly when it does not occur, ignoring case, and the counted occurrences fit in the text |
| PdfAnalysis.AnalysisPromptSample | pilot_with_pdf/run_pdf_analysis.py:137-156 | the analysis prompt holds the first 7000 characters right after its instructions, and depends on nothing else of the text |
| PdfAnalysis.AnalyzeDocument | pilot_with_pdf/run_pdf_analysis.py:137-157 | the result is `call_llm_json` on the analysis prompt |
| PdfAnalysis.ProposalPromptSample | pilot_with_pdf/run_pdf_analysis.py:164-180 | the proposal prompt holds each of the first k chunks and depends on nothing else |
| PdfAnalysis.ProposeTaxonomy | pilot_with_pdf/run_pdf_analysis.py:164-181 | the result is `call_llm_json` on the proposal prompt |
| InstrumentExtract.PromptNamesLabelsAndText | pilot_without_pdf/src/extract.py:24-49 | the prompt names every label and holds the text |
| InstrumentExtract.ExtractInstrumentFields | pilot_without_pdf/src/extract.py:23-76 | the endpoint call, fence cleaning, strict parse, then the brace window, with the whole reply kept on failure; its cases are stated by the three lemmas below |
| InstrumentExtract.OnlyGatewayRaises | pilot_without_pdf/src/extract.py:51-76 | the function raises exactly when the endpoint call fails, with its message |
| InstrumentExtract.UnparsableKeepsWholeReply | pilot_without_pdf/src/extract.py:73-76 | an unparsable reply gives an error record holding the whole reply, uncleaned and untruncated |
| InstrumentExtract.FencedReplyRecovered | pilot_without_pdf/src/extract.py:57-63 | a fenced reply whose payload parses yields the payload's value |
| Classify.PromptNamesLabelsAndText | pilot_without_pdf/src/classify.py:23-38 | the classification prompt names every label and holds the text |
| Classify.FallbackFollowsPromptRule | pilot_without_pdf/src/classify.py:47-54 | the fallback record uses label `other` with confidence 0.0, which satisfies the prompt's "unclear" rule, and carries a non-empty error |
| Classify.ClassifyPolicyText | pilot_without_pdf/src/classify.py:22-54 | the endpoint call and strict parse with the fixed fallback record; its cases are stated by `ClassifyCases` |
| Classify.ClassifyCases | pilot_without_pdf/src/classify.py:40-54 | the function raises exactly when the call fails; a parsable reply is returned as parsed, any other reply gives the fallback |
| Classify.FencedReplyFallsBack | pilot_without_pdf/src/classify.py:45-46 | a fenced reply gives the fallback in `classify_policy_text`, while `extract_instrument_fields` recovers its payload |
| BatchPipeline.PromptEmbedsText | pilot_without_pdf/src/batch_pipeline.py:15 | the batch prompt starts with the few-shot block and holds the text after the fixed instruction |
| BatchPipeline.CallLlmExtract | pilot_without_pdf/src/batch_pipeline.py:14-20 | a failed call is its error; an answered call is `json.loads` of `output_text`, with no cleaning; stated by `FencedReplyFails` and `RunBatch` |
| BatchPipeline.RunBatch | pilot_without_pdf/src/batch_pipeline.py:22-33 | one row per snippet, in order; the loop pauses after exactly the snippets whose call failed, in increasing order |
| BatchPipeline.RowCarriesIdAndText | pilot_without_pdf/src/batch_pipeline.py:27-31 | every row carries the snippet's index and text, and a parsed object also keeps its other fields |
| BatchPipeline.FailedRowShape | pilot_without_pdf/src/batch_pipeline.py:30-31 | a failing snippet's row is `{id, text, error}`; the error is the call's message, or Python's item-assignment `TypeError` when the parsed value is not an object |
| BatchPipeline.FencedReplyFails | pilot_without_pdf/src/batch_pipeline.py:16-20 | with no fence cleaning, a reply in a code fence is a failing row carrying the parser's message |

## Left out

- Downloading the PDF and reading pages with `pdfplumber` are left out; the
  pages are an input sequence whose entries are optional text.
- The model client (model name, temperature, `max_output_tokens`) is left
  out. The endpoint is a function from a prompt and an attempt number to a
  reply, or an error message.
- `json.loads` is a parameter, so what counts as valid JSON is not
  modelled.
- Sleeping is modelled as the list of requested durations (retry) or as
  the indices of the snippets after which the loop pauses (batch, whose
  duration is a float).
- Writing CSV/JSON files, pandas DataFrames, `tqdm`, `print`, `.env`
  loading, timestamps and file discovery are left out.
- `LoadLatestTaxonomy` takes the result of reading the newest plan file as
  input; the directory listing and file reading are not modelled.
- `Text.Lower` maps only ASCII letters; Unicode case mapping is not
  modelled.
- `Text.ListRepr` quotes each string with single quotes and does not
  model Python's escaping of quotes and backslashes inside a string.
- The SDK response object is reduced to the three values `extract_fields`
  reads from it: `output_text`, the first content text if there is one,
  and `str(r)`. The object itself is not modelled. In particular a first
  content item whose `text` is `None` cannot be expressed: the source would
  then take `None` as the reply and raise `AttributeError` on `.strip()`
  outside every `try`.
- PdfAnalysis.PdfToTextLimited: `skip_first` and `max_pages` are natural
  numbers, so Python's handling of negative values is not modelled.
- AfterAnalysis.SchemaFields: slicing a dict gives `TypeError: unhashable
  type: 'slice'` as in Python before 3.12; the 3.12 `KeyError` is not
  modelled. Printing categories that are not strings is not modelled.
- `src/batch_prompt.py` and `src/batch_config.py` are not part of this
  model: the few-shot block is a parameter of the batch pipeline.
- Chunker.ChunkText: requires `overlap < max_chars`. With a larger or equal
  overlap the loop never advances and does not terminate, so that case is
  not modelled.
- The driver scripts (`main`, `run_*.py`, `test_openai.py`) are left out.
  Only the row loops of the two PDF extraction scripts and the page and
  chunk steps of `run_pdf_analysis.py`'s `main` are modelled.

## Findings

| source | as written | input that shows it | evidently intended | confidence | as-written member | corrected member |
|---|---|---|---|---|---|---|
| pilot_with_pdf/run_pdf_extract_after_analysis.py:122-124 | the window loop continues after a window already reached the end of the text, so a last chunk lies wholly inside the previous one | `chunk_text("abcd", 4, 1)` gives `["abcd", "d"]` | stop once a window reaches the end: `["abcd"]` | not executed | Chunker.RedundantTailExample | Chunker.ToEndShortTextIsOneChunk |
| pilot_with_pdf/run_pdf_extract_after_analysis.py:69 | `[:-0]` is `[:0]`, so the schema fields are always empty | no plan file: the six default fields become `[]` | keep the whole list | not executed | AfterAnalysis.SchemaFieldsAlwaysEmpty | AfterAnalysis.DefaultPlanShape |
