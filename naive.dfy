/** The few-shot block of pilot_with_pdf/run_pdf_extract_naive.py, which
    prints the taxonomy labels into a fixed instruction text. Its
    `chunk_text`, `extract_fields` and row loop are the ones modelled in
    `Chunker` and `PdfExtract`. */
module Naive {
  import opened Text
  import Taxonomy
  import PdfExtract

  /** `FEWSHOT_BLOCK` after `.strip()` (which only removes the newline at
      each end). */
  function Fewshot(): string {
    FewshotIntro + ListRepr(Taxonomy.Labels) + FewshotOutro
  }

  const FewshotIntro: string := @"You are building a structured dataset of industrial policy and regulatory instruments.

Definition:
A ""policy instrument"" is a concrete, actionable measure such as:
- financial support (grant/subsidy/loan) with clear support terms
- tax incentive (credit/deduction/allowance)
- export restriction or licensing requirement
- local content/sourcing requirement
- procurement preference/requirement
- mandatory standard/compliance requirement

If the text is only strategy/vision/narrative without a concrete instrument, use instrument_type=""other"".

Return ONLY valid JSON with keys:
- instrument_type: one of "

  const FewshotOutro: string := @"
- target_sector: string|null
- funding_amount_or_cap: string|null
- eligibility_rules: list[string]
- evidence_spans: list[string]  (exact quotes <= 20 words from the text)

Rules:
- Do NOT invent details.
- If not explicitly stated, use null or empty list.
- evidence_spans must be copied verbatim from the text.
- Prefer ""other"" when unclear.

Examples:
Text: ""The Government aims to strengthen Hong Kong’s innovation ecosystem and build a vibrant I&T hub.""
JSON: {""instrument_type"":""other"",""target_sector"":null,""funding_amount_or_cap"":null,""eligibility_rules"":[],""evidence_spans"":[]}

Text: ""Eligible firms may receive matching grants up to HKD 10 million for automation equipment upgrades.""
JSON: {""instrument_type"":""grant"",""target_sector"":""manufacturing"",""funding_amount_or_cap"":""up to HKD 10 million"",""eligibility_rules"":[""eligible firms"",""automation equipment upgrades""],""evidence_spans"":[""matching grants up to HKD 10 million""]}

Text: ""Exports of dual-use advanced chips require an export license before shipment.""
JSON: {""instrument_type"":""export_control"",""target_sector"":""semiconductors"",""funding_amount_or_cap"":null,""eligibility_rules"":[""export license required""],""evidence_spans"":[""require an export license""]}"

  /** The prompt for a chunk names all nine labels and holds the chunk
      verbatim after the few-shot block. */
  lemma PromptNamesLabelsAndChunk(chunk: string)
    ensures var p := PdfExtract.ExtractPrompt(Fewshot(), chunk);
      && (forall i :: 0 <= i < |Taxonomy.Labels| ==> IsInfix(Taxonomy.Labels[i], p))
      && InfixAt(chunk, p, |Fewshot()| + |PdfExtract.PromptHead|)
  {
    PdfExtract.PromptNamesPrintedLabels(FewshotIntro, Taxonomy.Labels, FewshotOutro, chunk);
    PdfExtract.PromptEmbedsChunk(Fewshot(), chunk);
  }
}
