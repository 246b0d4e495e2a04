/** `extract_fields` and the row-collecting loop of `main`, which
    pilot_with_pdf/run_pdf_extract_after_analysis.py and
    run_pdf_extract_naive.py share word for word; the two scripts differ only
    in their few-shot block (modules `AfterAnalysis` and `Naive`). */
module PdfExtract {
  import opened Wrappers
  import opened Text
  import opened Json
  import opened Gateway
  import opened Recovery
  import Taxonomy

  const PromptHead: string := "\n\nNow process the next text.\n\nText:\n"
  const PromptTail: string := "\n\nReturn ONLY JSON:\n"

  /** The prompt sent for one chunk: the few-shot block, then the chunk. */
  function ExtractPrompt(fewshot: string, chunk: string): string {
    fewshot + PromptHead + chunk + PromptTail
  }

  /** The prompt starts with the few-shot block and holds the chunk
      verbatim, right after the fixed header. */
  lemma PromptEmbedsChunk(fewshot: string, chunk: string)
    ensures var p := ExtractPrompt(fewshot, chunk);
      InfixAt(fewshot, p, 0) && InfixAt(chunk, p, |fewshot| + |PromptHead|)
  {
    var p := ExtractPrompt(fewshot, chunk);
    assert p[..|fewshot|] == fewshot;
    assert p[|fewshot| + |PromptHead|..|fewshot| + |PromptHead| + |chunk|] == chunk;
  }

  /** A few-shot block that prints a label list passes every label on to
      the prompt of every chunk. */
  lemma PromptNamesPrintedLabels(intro: string, labels: seq<string>, outro: string, chunk: string)
    ensures forall i :: 0 <= i < |labels| ==>
      IsInfix(labels[i], ExtractPrompt(intro + ListRepr(labels) + outro, chunk))
  {
    var rest := PromptHead + chunk + PromptTail;
    assert ExtractPrompt(intro + ListRepr(labels) + outro, chunk) == intro + ListRepr(labels) + outro + rest + [];
    Taxonomy.PrintedListNamesLabels(labels, intro, outro, rest, []);
  }

  /** `raw_output` keeps at most this many characters of the cleaned text. */
  const RawOutputLimit: nat := 1000

  /** What `extract_fields` returns once the gateway has answered: the raw
      text is cleaned, parsed strictly, then through the brace window, and
      otherwise replaced by the error record. */
  function Interpret(r: Response, parse: Parser): Json {
    var clean := CleanFences(RawText(r));
    RecoverWithBraces(clean, parse, ErrorRecord(PyPrefix(clean, RawOutputLimit)))
  }

  /** `extract_fields` for a chunk whose prompt gets `replies`: the
      exception the retry loop re-raises, or the interpreted answer. */
  function ExtractOutcome(replies: Replies, parse: Parser): Result<Json> {
    match Retry(replies).outcome
    case Err(e) => Err(e)
    case Ok(r) => Ok(Interpret(r, parse))
  }

  method ExtractFields(fewshot: string, chunk: string, endpoint: string -> Replies, parse: Parser)
    returns (result: Result<Json>, sleeps: seq<nat>)
    ensures result == ExtractOutcome(endpoint(ExtractPrompt(fewshot, chunk)), parse)
    ensures sleeps == Retry(endpoint(ExtractPrompt(fewshot, chunk))).sleeps
  {
    var prompt := ExtractPrompt(fewshot, chunk);
    var outcome, calls;
    outcome, calls, sleeps := CallWithRetry(endpoint(prompt));
    match outcome {
      case Err(e) => result := Err(e);
      case Ok(r) => result := Ok(Interpret(r, parse));
    }
  }

  /** Only the gateway can make `extract_fields` raise: whatever text comes
      back, malformed or not, it returns a value. */
  lemma OnlyGatewayRaises(replies: Replies, parse: Parser)
    ensures ExtractOutcome(replies, parse).Err? <==> forall k :: 0 <= k < Attempts ==> replies(k).Failed?
    ensures ExtractOutcome(replies, parse).Err? ==> ExtractOutcome(replies, parse).error == replies(2).message
  {
    RetryStopsAtFirstAnswer(replies, 0);
    if forall k :: 0 <= k < Attempts ==> replies(k).Failed? {
      RetryGivesUp(replies);
    }
  }

  /** When nothing parses, the result is exactly the error record, whose
      `raw_output` is the first 1000 characters of the cleaned text. */
  lemma UnparsableGivesErrorRecord(r: Response, parse: Parser)
    requires var clean := CleanFences(RawText(r));
      parse(clean).Err? && (BraceWindow(clean).None? || parse(BraceWindow(clean).value).Err?)
    ensures var clean := CleanFences(RawText(r));
      && Interpret(r, parse) == ErrorRecord(PyPrefix(clean, RawOutputLimit))
      && |PyPrefix(clean, RawOutputLimit)| == Min(|clean|, RawOutputLimit)
      && InfixAt(PyPrefix(clean, RawOutputLimit), clean, 0)
  {
  }

  // ---------------------------------------------------------------------
  // The rows of `main`

  /** The row appended for chunk `idx`: a parsed object gets `chunk_id`
      written into it; a failure becomes `{"chunk_id": idx, "error": str(e)}`.
      Writing `chunk_id` into a parsed value that is not an object raises a
      `TypeError` inside the `try`, which also ends up as an error row. */
  function ChunkRow(idx: nat, outcome: Result<Json>): Record {
    match outcome
    case Ok(JObject(fields)) => fields["chunk_id" := JInt(idx)]
    case Ok(v) => map["chunk_id" := JInt(idx), "error" := JStr(ItemAssignError(v))]
    case Err(e) => map["chunk_id" := JInt(idx), "error" := JStr(e)]
  }

  /** The loop over `enumerate(chunks)`: one row per chunk, in order; a
      failing chunk is recorded and the loop goes on. */
  method ExtractAll(chunks: seq<string>, fewshot: string, service: Service, parse: Parser)
    returns (rows: seq<Record>)
    ensures |rows| == |chunks|
    ensures forall i :: 0 <= i < |chunks| ==>
      rows[i] == ChunkRow(i, ExtractOutcome(service(i, ExtractPrompt(fewshot, chunks[i])), parse))
  {
    rows := [];
    var idx := 0;
    while idx < |chunks|
      invariant idx <= |chunks| && |rows| == idx
      invariant forall i :: 0 <= i < idx ==>
        rows[i] == ChunkRow(i, ExtractOutcome(service(i, ExtractPrompt(fewshot, chunks[i])), parse))
    {
      var out, _ := ExtractFields(fewshot, chunks[idx], p => service(idx, p), parse);
      rows := rows + [ChunkRow(idx, out)];
      idx := idx + 1;
    }
  }

  /** Every row carries its chunk's index under `chunk_id`, overriding any
      `chunk_id` the model returned. */
  lemma RowCarriesIndex(idx: nat, outcome: Result<Json>)
    ensures "chunk_id" in ChunkRow(idx, outcome) && ChunkRow(idx, outcome)["chunk_id"] == JInt(idx)
  {
  }

  /** A parsed object keeps all its other fields, with their values. */
  lemma RowKeepsParsedFields(idx: nat, fields: map<string, Json>)
    ensures var row := ChunkRow(idx, Ok(JObject(fields)));
      && row.Keys == fields.Keys + {"chunk_id"}
      && forall k :: k in fields && k != "chunk_id" ==> row[k] == fields[k]
  {
  }

  /** A chunk whose three calls all fail gives exactly
      `{"chunk_id": idx, "error": <last failure>}`. */
  lemma GatewayFailureRow(idx: nat, replies: Replies, parse: Parser)
    requires forall k :: 0 <= k < Attempts ==> replies(k).Failed?
    ensures ChunkRow(idx, ExtractOutcome(replies, parse))
      == map["chunk_id" := JInt(idx), "error" := JStr(replies(2).message)]
  {
    RetryGivesUp(replies);
  }

  /** The row of a failed chunk has exactly the keys `chunk_id` and
      `error`, and `error` holds the exception's message. */
  lemma ErrorRowShape(idx: nat, outcome: Result<Json>)
    requires outcome.Err? || !outcome.value.JObject?
    ensures ChunkRow(idx, outcome).Keys == {"chunk_id", "error"}
    ensures ChunkRow(idx, outcome)["error"].JStr?
    ensures outcome.Err? ==> ChunkRow(idx, outcome)["error"] == JStr(outcome.error)
  {
  }
}
