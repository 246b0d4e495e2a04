/** pilot_without_pdf/src/extract.py: `extract_instrument_fields`, one
    gateway call without retries, fence stripping, the strict parse, the
    brace window, and an error record that keeps the whole reply. */
module InstrumentExtract {
  import opened Wrappers
  import opened Text
  import opened Json
  import opened Gateway
  import opened Recovery
  import Taxonomy

  const PromptIntro: string := @"
You extract industrial policy / regulatory instrument fields.

Return ONLY valid JSON with:

- instrument_name: string|null
- instrument_type: one of "

  const PromptMiddle: string := @"
- administering_agency: string|null
- target_sector: string|null
- beneficiary: string|null
- funding_amount_or_cap: string|null
- cost_share_or_matching: string|null
- eligibility_rules: list[string]
- application_process: list[string]
- enforceability: one of [""binding"",""nonbinding"",""unclear""]
- evidence_spans: list[string] (short quotes <= 20 words; must appear in text)

Rules:
- If a field is not present, use null (or empty list).
- Do NOT guess.
- evidence_spans must be exact text snippets from the text.
- Return JSON only. No explanation.

TEXT:
"

  /** The prompt: the instructions with the taxonomy printed as a Python
      list, then the text. */
  function InstrumentPrompt(text: string): string {
    PromptIntro + ListRepr(Taxonomy.Labels) + PromptMiddle + text + "\n"
  }

  /** Every taxonomy label and the whole text appear in the prompt. */
  lemma PromptNamesLabelsAndText(text: string)
    ensures forall i :: 0 <= i < |Taxonomy.Labels| ==> IsInfix(Taxonomy.Labels[i], InstrumentPrompt(text))
    ensures IsInfix(text, InstrumentPrompt(text))
  {
    Taxonomy.PrintedListNamesLabels(Taxonomy.Labels, PromptIntro, PromptMiddle, text, "\n");
    Taxonomy.PromptHoldsText(PromptIntro, ListRepr(Taxonomy.Labels), PromptMiddle, text, "\n");
  }

  /** What the function returns for an answer: `output_text` cleaned and
      recovered as in the PDF scripts, except that the error record keeps
      the reply as it came, uncleaned and untruncated. */
  function InterpretReply(outputText: string, parse: Parser): Json {
    RecoverWithBraces(CleanFences(outputText), parse, ErrorRecord(outputText))
  }

  /** `extract_instrument_fields(text)` when the gateway gives `reply` to
      its prompt: an exception from the gateway propagates (there is no
      retry), anything else is interpreted. */
  function ExtractInstrumentFields(text: string, gateway: string -> Reply, parse: Parser): Result<Json> {
    match gateway(InstrumentPrompt(text))
    case Failed(e) => Err(e)
    case Answered(r) => Ok(InterpretReply(r.outputText, parse))
  }

  /** Only the gateway can make the function raise, and then with its own
      message. */
  lemma OnlyGatewayRaises(text: string, gateway: string -> Reply, parse: Parser)
    ensures ExtractInstrumentFields(text, gateway, parse).Err? <==> gateway(InstrumentPrompt(text)).Failed?
    ensures ExtractInstrumentFields(text, gateway, parse).Err? ==>
      ExtractInstrumentFields(text, gateway, parse).error == gateway(InstrumentPrompt(text)).message
  {
  }

  /** When neither parse attempt succeeds, the record holds the reply
      verbatim, fences and surrounding blanks included, which the PDF
      scripts' record (cleaned, at most 1000 characters) does not. */
  lemma UnparsableKeepsWholeReply(outputText: string, parse: Parser)
    requires var clean := CleanFences(outputText);
      parse(clean).Err? && (BraceWindow(clean).None? || parse(BraceWindow(clean).value).Err?)
    ensures InterpretReply(outputText, parse) == ErrorRecord(outputText)
    ensures InterpretReply(outputText, parse).fields["raw_output"] == JStr(outputText)
  {
  }

  /** A fenced JSON reply is returned parsed. */
  lemma FencedReplyRecovered(outputText: string, tag: string, ws1: string, t: string, ws2: string, parse: Parser)
    requires Strip(outputText) == Fence + tag + ws1 + t + ws2 + Fence
    requires tag == [] || IsJsonTag(tag)
    requires AllSpace(ws1) && AllSpace(ws2)
    requires t != [] && !IsSpace(t[0]) && !IsSpace(t[|t| - 1])
    requires t[0] != 'j' && t[0] != 'J'
    requires parse(t).Ok?
    ensures InterpretReply(outputText, parse) == parse(t).value
  {
    FencedTextRecovered(outputText, tag, ws1, t, ws2, parse, ErrorRecord(outputText));
  }
}
