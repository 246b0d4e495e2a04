/** The instrument taxonomy that every script repeats
    (`TAXONOMY` in run_pdf_extract_after_analysis.py, run_pdf_extract_naive.py,
    src/extract.py and src/classify.py) and the way the prompts print it. */
module Taxonomy {
  import opened Text

  const Labels: seq<string> := ["subsidy", "tax_credit", "grant", "loan", "export_control",
                                "local_content", "procurement", "standard", "other"]

  /** A prompt that prints a list of labels, as `f"...{TAXONOMY}..."`
      does, names every label verbatim, whatever else it holds. */
  lemma PrintedListNamesLabels(labels: seq<string>, before: string, after: string, inner: string, last: string)
    ensures forall i :: 0 <= i < |labels| ==>
      IsInfix(labels[i], before + ListRepr(labels) + after + inner + last)
  {
    forall i | 0 <= i < |labels|
      ensures IsInfix(labels[i], before + ListRepr(labels) + after + inner + last)
    {
      ListReprContains(labels, i);
      InfixWithinFive(labels[i], before, ListRepr(labels), after, inner, last);
    }
  }

  /** The inner text of such a prompt also appears verbatim. */
  lemma PromptHoldsText(before: string, list: string, after: string, text: string, last: string)
    ensures IsInfix(text, before + list + after + text + last)
  {
    InfixPrefix(text, []);
    assert text + [] == text;
    InfixWithinFive(text, before + list + after, text, [], [], last);
    assert before + list + after + text + [] + [] + last == before + list + after + text + last;
  }
}
