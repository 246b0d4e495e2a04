/** pilot_without_pdf/src/batch_pipeline.py: `call_llm_extract` (one call,
    strict parse, nothing caught) and `run_batch`, which turns every snippet
    into a row and pauses after each failure. The few-shot block of
    src/batch_prompt.py is a parameter. */
module BatchPipeline {
  import opened Wrappers
  import opened Text
  import opened Json
  import opened Gateway

  const PromptHead: string := "\n\nNow process this text:\nText: "
  const PromptTail: string := "\nJSON:"

  function BatchPrompt(fewshot: string, text: string): string {
    fewshot + PromptHead + text + PromptTail
  }

  /** The prompt starts with the few-shot block and holds the snippet
      verbatim after the fixed header. */
  lemma PromptEmbedsText(fewshot: string, text: string)
    ensures var p := BatchPrompt(fewshot, text);
      InfixAt(fewshot, p, 0) && InfixAt(text, p, |fewshot| + |PromptHead|)
  {
    var p := BatchPrompt(fewshot, text);
    assert p[..|fewshot|] == fewshot;
    assert p[|fewshot| + |PromptHead|..|fewshot| + |PromptHead| + |text|] == text;
  }

  /** `call_llm_extract(text)`: the exception of the gateway or of
      `json.loads`, or the parsed value. */
  function CallLlmExtract(reply: Reply, parse: Parser): Result<Json> {
    match reply
    case Failed(e) => Err(e)
    case Answered(r) => parse(r.outputText)
  }

  /** The row for snippet `i`: a parsed object gets `id` and `text`
      written into it; an exception, including the `TypeError` of writing
      `id` into a non-object, gives `{"id", "text", "error"}`. */
  function BatchRow(i: nat, s: string, outcome: Result<Json>): Record {
    match outcome
    case Ok(JObject(fields)) => fields["id" := JInt(i)]["text" := JStr(s)]
    case Ok(v) => map["id" := JInt(i), "text" := JStr(s), "error" := JStr(ItemAssignError(v))]
    case Err(e) => map["id" := JInt(i), "text" := JStr(s), "error" := JStr(e)]
  }

  /** Whether the `except` branch runs for an outcome. */
  predicate Fails(outcome: Result<Json>) {
    !(outcome.Ok? && outcome.value.JObject?)
  }

  /** The outcome for snippet `i`; `gateway(i, p)` is the reply to that
      snippet's prompt. */
  function Outcome(snippets: seq<string>, i: nat, fewshot: string, gateway: (nat, string) -> Reply, parse: Parser): Result<Json>
    requires i < |snippets|
  {
    CallLlmExtract(gateway(i, BatchPrompt(fewshot, snippets[i])), parse)
  }

  /** `run_batch`: one row per snippet, in order, and a pause right after
      every failing snippet and after no other; `pauses` lists the indices
      of the snippets after which it slept, in the order it slept. */
  method RunBatch(snippets: seq<string>, fewshot: string, gateway: (nat, string) -> Reply, parse: Parser)
    returns (rows: seq<Record>, pauses: seq<nat>)
    ensures |rows| == |snippets|
    ensures forall i :: 0 <= i < |snippets| ==>
      rows[i] == BatchRow(i, snippets[i], Outcome(snippets, i, fewshot, gateway, parse))
    ensures forall k :: 0 <= k < |pauses| ==>
      pauses[k] < |snippets| && Fails(Outcome(snippets, pauses[k], fewshot, gateway, parse))
    ensures forall i :: 0 <= i < |snippets| && Fails(Outcome(snippets, i, fewshot, gateway, parse)) ==> i in pauses
    ensures forall k, l :: 0 <= k < l < |pauses| ==> pauses[k] < pauses[l]
  {
    rows := [];
    pauses := [];
    var i := 0;
    while i < |snippets|
      invariant i <= |snippets| && |rows| == i
      invariant forall j :: 0 <= j < i ==>
        rows[j] == BatchRow(j, snippets[j], Outcome(snippets, j, fewshot, gateway, parse))
      invariant forall k :: 0 <= k < |pauses| ==>
        pauses[k] < i && Fails(Outcome(snippets, pauses[k], fewshot, gateway, parse))
      invariant forall j :: 0 <= j < i && Fails(Outcome(snippets, j, fewshot, gateway, parse)) ==> j in pauses
      invariant forall k, l :: 0 <= k < l < |pauses| ==> pauses[k] < pauses[l]
    {
      var s := snippets[i];
      var out := CallLlmExtract(gateway(i, BatchPrompt(fewshot, s)), parse);
      rows := rows + [BatchRow(i, s, out)];
      if Fails(out) {
        pauses := pauses + [i];
      }
      i := i + 1;
    }
  }

  /** Every row carries its snippet's index and text, overriding whatever
      the model put under those keys; a parsed object keeps its other
      fields. */
  lemma RowCarriesIdAndText(i: nat, s: string, outcome: Result<Json>)
    ensures var row := BatchRow(i, s, outcome);
      && "id" in row && row["id"] == JInt(i)
      && "text" in row && row["text"] == JStr(s)
    ensures outcome.Ok? && outcome.value.JObject? ==>
      var row := BatchRow(i, s, outcome);
      && row.Keys == outcome.value.fields.Keys + {"id", "text"}
      && forall k :: k in outcome.value.fields && k != "id" && k != "text" ==> row[k] == outcome.value.fields[k]
  {
  }

  /** A failing snippet's row has exactly the keys `id`, `text` and
      `error`, and `error` is the exception's message. */
  lemma FailedRowShape(i: nat, s: string, outcome: Result<Json>)
    requires Fails(outcome)
    ensures BatchRow(i, s, outcome).Keys == {"id", "text", "error"}
    ensures BatchRow(i, s, outcome)["error"].JStr?
    ensures outcome.Ok? ==> BatchRow(i, s, outcome)["error"] == JStr(ItemAssignError(outcome.value))
    ensures outcome.Err? ==> BatchRow(i, s, outcome)["error"] == JStr(outcome.error)
  {
  }

  /** With no cleaning at all, a fenced reply fails when `json.loads`
      rejects text that starts with a backtick: the row records the
      decode error and the batch pauses after it. */
  lemma FencedReplyFails(i: nat, s: string, r: Response, parse: Parser)
    requires |r.outputText| >= 3 && r.outputText[..3] == "```"
    requires forall t :: t != [] && t[0] == '`' ==> parse(t).Err?
    ensures Fails(CallLlmExtract(Answered(r), parse))
    ensures BatchRow(i, s, CallLlmExtract(Answered(r), parse))["error"] == JStr(parse(r.outputText).error)
  {
    assert r.outputText[0] == r.outputText[..3][0];
  }
}
