/** pilot_without_pdf/src/classify.py: `classify_policy_text`, one gateway
    call, a strict parse of the reply as it came, and a fixed fallback
    classification. */
module Classify {
  import opened Wrappers
  import opened Text
  import opened Json
  import opened Gateway
  import opened Recovery
  import Taxonomy
  import InstrumentExtract

  const PromptIntro: string := @"
You are classifying industrial policy instruments.

Classify the policy text into exactly ONE instrument_type from:
"

  const PromptMiddle: string := @"

Return ONLY valid JSON with keys:
- instrument_type (string)
- confidence (number between 0 and 1)
- evidence_span (short quote from text, <= 20 words)

If unclear, use instrument_type=""other"" and confidence<=0.4.

TEXT:
"

  function ClassifyPrompt(text: string): string {
    PromptIntro + ListRepr(Taxonomy.Labels) + PromptMiddle + text + "\n"
  }

  /** Every taxonomy label and the whole text appear in the prompt. */
  lemma PromptNamesLabelsAndText(text: string)
    ensures forall i :: 0 <= i < |Taxonomy.Labels| ==> IsInfix(Taxonomy.Labels[i], ClassifyPrompt(text))
    ensures IsInfix(text, ClassifyPrompt(text))
  {
    Taxonomy.PrintedListNamesLabels(Taxonomy.Labels, PromptIntro, PromptMiddle, text, "\n");
    Taxonomy.PromptHoldsText(PromptIntro, ListRepr(Taxonomy.Labels), PromptMiddle, text, "\n");
  }

  /** The classification returned when the reply does not parse. */
  const Fallback: Json := JObject(map[
    "instrument_type" := JStr("other"),
    "confidence" := JFloat(0.0),
    "evidence_span" := JStr(""),
    "error" := JStr("Invalid JSON response")])

  /** The fallback follows the prompt's own rule for an unclear text: the
      label `other`, which is in the taxonomy, with confidence at most 0.4;
      and it says why it was used. */
  lemma FallbackFollowsPromptRule()
    ensures Fallback.JObject?
    ensures Fallback.fields.Keys == {"instrument_type", "confidence", "evidence_span", "error"}
    ensures Fallback.fields["instrument_type"].JStr?
    ensures Fallback.fields["instrument_type"].s in Taxonomy.Labels
    ensures Fallback.fields["confidence"].JFloat?
    ensures 0.0 <= Fallback.fields["confidence"].f <= 0.4
    ensures Fallback.fields["error"] != JStr("")
  {
    assert Taxonomy.Labels[8] == "other";
  }

  /** `classify_policy_text(text)` when the gateway gives `reply` to its
      prompt: a gateway exception propagates; an answer is parsed as it
      came, without cleaning, or replaced by the fallback. */
  function ClassifyPolicyText(text: string, gateway: string -> Reply, parse: Parser): Result<Json> {
    match gateway(ClassifyPrompt(text))
    case Failed(e) => Err(e)
    case Answered(r) => Ok(RecoverStrict(r.outputText, parse, Fallback))
  }

  /** The result is the parsed reply exactly when it parses, and the
      fallback otherwise; only the gateway makes the call raise. */
  lemma ClassifyCases(text: string, gateway: string -> Reply, parse: Parser)
    ensures var reply := gateway(ClassifyPrompt(text));
      var res := ClassifyPolicyText(text, gateway, parse);
      && (res.Err? <==> reply.Failed?)
      && (reply.Answered? && parse(reply.response.outputText).Ok? ==>
            res == Ok(parse(reply.response.outputText).value))
      && (reply.Answered? && parse(reply.response.outputText).Err? ==> res == Ok(Fallback))
  {
  }

  /** `json.loads` rejects any text that starts with a backtick. */
  ghost predicate RejectsBacktick(parse: Parser) {
    forall s :: s != [] && s[0] == '`' ==> parse(s).Err?
  }

  /** A reply wrapped in a Markdown fence, which `extract.py` unwraps and
      parses, is classified as the fallback here, however valid the JSON
      inside. */
  lemma FencedReplyFallsBack(outputText: string, tag: string, ws1: string, t: string, ws2: string, parse: Parser)
    requires RejectsBacktick(parse)
    requires outputText != [] && outputText[0] == '`'
    requires Strip(outputText) == Fence + tag + ws1 + t + ws2 + Fence
    requires tag == [] || IsJsonTag(tag)
    requires AllSpace(ws1) && AllSpace(ws2)
    requires t != [] && !IsSpace(t[0]) && !IsSpace(t[|t| - 1])
    requires t[0] != 'j' && t[0] != 'J'
    requires parse(t).Ok?
    ensures RecoverStrict(outputText, parse, Fallback) == Fallback
    ensures InstrumentExtract.InterpretReply(outputText, parse) == parse(t).value
  {
    InstrumentExtract.FencedReplyRecovered(outputText, tag, ws1, t, ws2, parse);
  }
}
