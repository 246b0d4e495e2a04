/** Tolerant recovery of a JSON value from model output: the fence
    stripping, the first-`{`-to-last-`}` window and the cascade of parse
    attempts that ends in an error record. The same steps appear in
    `extract_fields` (run_pdf_extract_after_analysis.py and
    run_pdf_extract_naive.py), `call_llm_json` (run_pdf_analysis.py) and
    `extract_instrument_fields` (src/extract.py); the variants differ only in
    whether the brace window is tried and in what the error record keeps. */
module Recovery {
  import opened Wrappers
  import opened Text
  import opened Json

  const Fence: string := "```"

  /** The optional `json` tag of the leading fence, matched under
      `re.IGNORECASE`: Unicode case folding also lets the long s (U+017F)
      stand for `s`. */
  predicate IsJsonTag(t: string) {
    |t| == 4
    && (t[0] == 'j' || t[0] == 'J')
    && (t[1] == 's' || t[1] == 'S' || t[1] == 'ſ')
    && (t[2] == 'o' || t[2] == 'O')
    && (t[3] == 'n' || t[3] == 'N')
  }

  /** `re.sub(r"^```(?:json)?\s*", "", s, flags=re.IGNORECASE)`: the pattern
      is anchored at the start, so at most one fence is removed, with its
      tag and all the whitespace after it. */
  function StripLeadingFence(s: string): string {
    if |s| >= 3 && s[..3] == Fence then TrimStart(DropJsonTag(s[3..])) else s
  }

  function DropJsonTag(t: string): string {
    if |t| >= 4 && IsJsonTag(t[..4]) then t[4..] else t
  }

  /** `re.sub(r"\s*```$", "", s)`: a fence at the very end, or just before
      a final newline (where `$` also matches), is removed together with the
      whitespace in front of it; the final newline stays. */
  function StripTrailingFence(s: string): string {
    if |s| >= 3 && s[|s| - 3..] == Fence then TrimEnd(s[..|s| - 3])
    else if |s| >= 4 && s[|s| - 4..] == Fence + "\n" then TrimEnd(s[..|s| - 4]) + "\n"
    else s
  }

  /** The three cleaning steps applied to raw model output. The cleaned text
      is a piece of the stripped output: stripped output never ends with a
      newline, so the branch of the trailing pattern that keeps a final
      newline is never taken after the strip. */
  function CleanFences(raw: string): (r: string)
    ensures IsInfix(r, Strip(raw))
    ensures |r| <= |Strip(raw)|
  {
    var s := Strip(raw);
    var l := StripLeadingFence(s);
    LeadingFenceIsSuffix(s);
    assert l != [] ==> l[|l| - 1] == s[|s| - 1];
    TrailingFenceIsPrefix(l);
    PrefixOfSuffix(s, |s| - |l|, |StripTrailingFence(l)|);
    StripTrailingFence(l)
  }

  // ---------------------------------------------------------------------
  // What the cleaning does

  /** A fenced JSON text comes out of the cleaning exactly as it went in,
      whatever whitespace surrounds the fence: the fence may carry the
      `json` tag in any case and whitespace may surround the text inside it.
      A JSON text never starts with `j`, so an untagged fence cannot eat part
      of it. */
  lemma FenceRoundTrip(raw: string, tag: string, ws1: string, t: string, ws2: string)
    requires Strip(raw) == Fence + tag + ws1 + t + ws2 + Fence
    requires tag == [] || IsJsonTag(tag)
    requires AllSpace(ws1) && AllSpace(ws2)
    requires t != [] && !IsSpace(t[0]) && !IsSpace(t[|t| - 1])
    requires t[0] != 'j' && t[0] != 'J'
    ensures CleanFences(raw) == t
  {
    FencesRemoved(tag, ws1, t, ws2);
  }

  lemma FencesRemoved(tag: string, ws1: string, t: string, ws2: string)
    requires tag == [] || IsJsonTag(tag)
    requires AllSpace(ws1) && AllSpace(ws2)
    requires t != [] && !IsSpace(t[0]) && !IsSpace(t[|t| - 1])
    requires t[0] != 'j' && t[0] != 'J'
    ensures StripTrailingFence(StripLeadingFence(Fence + tag + ws1 + t + ws2 + Fence)) == t
  {
    LeadingFenceOfFenced(tag, ws1, t, ws2);
    TrailingFenceRemoved(t, ws2);
  }

  lemma LeadingFenceOfFenced(tag: string, ws1: string, t: string, ws2: string)
    requires tag == [] || IsJsonTag(tag)
    requires AllSpace(ws1)
    requires t != [] && !IsSpace(t[0]) && t[0] != 'j' && t[0] != 'J'
    ensures StripLeadingFence(Fence + tag + ws1 + t + ws2 + Fence) == t + ws2 + Fence
  {
    var body := t + ws2 + Fence;
    assert Fence + tag + ws1 + t + ws2 + Fence == Fence + tag + ws1 + body;
    LeadingFenceRemoved(tag, ws1, body);
  }

  lemma LeadingFenceRemoved(tag: string, ws: string, body: string)
    requires tag == [] || IsJsonTag(tag)
    requires AllSpace(ws)
    requires body != [] && !IsSpace(body[0]) && body[0] != 'j' && body[0] != 'J'
    ensures StripLeadingFence(Fence + tag + ws + body) == body
  {
    var s := Fence + tag + ws + body;
    var u := ws + body;
    assert s[..3] == Fence && s[3..] == tag + u;
    assert u[0] == if ws == [] then body[0] else ws[0];
    TagDropped(tag, u);
    TrimStartOfSpaces(ws, body);
  }

  lemma TagDropped(tag: string, u: string)
    requires tag == [] || IsJsonTag(tag)
    requires u != [] && u[0] != 'j' && u[0] != 'J'
    ensures DropJsonTag(tag + u) == u
  {
    if tag == [] {
      assert tag + u == u;
    } else {
      assert (tag + u)[..4] == tag && (tag + u)[4..] == u;
    }
  }

  lemma TrailingFenceRemoved(t: string, ws: string)
    requires AllSpace(ws)
    requires t != [] && !IsSpace(t[|t| - 1])
    ensures StripTrailingFence(t + ws + Fence) == t
  {
    var s := t + ws + Fence;
    assert s[|s| - 3..] == Fence && s[..|s| - 3] == t + ws;
    TrimEndOfSpaces(t, ws);
  }

  /** Output without fences is only stripped. */
  lemma UnfencedOnlyStripped(raw: string)
    requires var s := Strip(raw);
      !(|s| >= 3 && s[..3] == Fence) && !(|s| >= 3 && s[|s| - 3..] == Fence)
    ensures CleanFences(raw) == Strip(raw)
  {
    var s := Strip(raw);
    assert StripLeadingFence(s) == s;
    if |s| >= 4 {
      assert s[|s| - 4..][3] == s[|s| - 1];
    }
  }

  /** On text that does not end in whitespace the trailing pattern only
      ever removes a suffix. */
  lemma TrailingFenceIsPrefix(l: string)
    requires l == [] || !IsSpace(l[|l| - 1])
    ensures |StripTrailingFence(l)| <= |l|
    ensures StripTrailingFence(l) == l[..|StripTrailingFence(l)|]
  {
    if |l| >= 4 {
      assert l[|l| - 4..][3] == l[|l| - 1];
    }
    if |l| >= 3 && l[|l| - 3..] == Fence {
      var c := TrimEnd(l[..|l| - 3]);
      assert c == l[..|l| - 3][..|c|] == l[..|c|];
    }
  }

  /** The leading pattern only ever removes a prefix. */
  lemma LeadingFenceIsSuffix(s: string)
    ensures |StripLeadingFence(s)| <= |s|
    ensures StripLeadingFence(s) == s[|s| - |StripLeadingFence(s)|..]
  {
    if |s| >= 3 && s[..3] == Fence {
      var d := DropJsonTag(s[3..]);
      assert d == s[|s| - |d|..];
      var l := TrimStart(d);
      assert d[|d| - |l|..] == s[|s| - |l|..];
    }
  }

  // ---------------------------------------------------------------------
  // The brace window

  /** Index of the first `c` in `s`. */
  function FirstIndex(s: string, c: char): (r: Option<nat>)
    ensures r.Some? ==>
      (r.value < |s| && s[r.value] == c && forall k :: 0 <= k < r.value ==> s[k] != c)
    ensures r.None? ==> forall k :: 0 <= k < |s| ==> s[k] != c
  {
    if s == [] then None
    else if s[0] == c then Some(0)
    else match FirstIndex(s[1..], c)
      case None => None
      case Some(i) => Some(i + 1)
  }

  /** Index of the last `c` in `s`. */
  function LastIndex(s: string, c: char): (r: Option<nat>)
    ensures r.Some? ==>
      (r.value < |s| && s[r.value] == c && forall k :: r.value < k < |s| ==> s[k] != c)
    ensures r.None? ==> forall k :: 0 <= k < |s| ==> s[k] != c
  {
    if s == [] then None
    else if s[|s| - 1] == c then Some(|s| - 1)
    else LastIndex(s[..|s| - 1], c)
  }

  /** `re.search(r"\{.*\}", s, flags=re.DOTALL)`: the leftmost `{` that has a
      `}` somewhere after it, up to the last `}`. Only the first `{` can
      start a match, because any `}` after a later `{` is also after the
      first one. */
  function BraceWindow(s: string): (r: Option<string>)
    ensures r.Some? ==> |r.value| >= 2 && r.value[0] == '{' && r.value[|r.value| - 1] == '}'
    ensures r.Some? ==> IsInfix(r.value, s)
  {
    match FirstIndex(s, '{')
    case None => None
    case Some(i) =>
      match LastIndex(s, '}')
      case None => None
      case Some(j) =>
        if i < j then
          assert InfixAt(s[i..j + 1], s, i);
          Some(s[i..j + 1])
        else None
  }

  /** There is a window exactly when some `{` comes before some `}`. */
  lemma BraceWindowExists(s: string)
    ensures BraceWindow(s).Some? <==>
      exists i, j :: 0 <= i < j < |s| && s[i] == '{' && s[j] == '}'
  {
    if exists i, j :: 0 <= i < j < |s| && s[i] == '{' && s[j] == '}' {
      var i, j :| 0 <= i < j < |s| && s[i] == '{' && s[j] == '}';
      var f := FirstIndex(s, '{');
      var l := LastIndex(s, '}');
      assert f.Some? && f.value <= i;
      assert l.Some? && j <= l.value;
    }
  }

  /** The window runs from the first `{` to the last `}`: when `s[i]` is
      the first `{`, `s[j]` the last `}` and `i < j`, it is `s[i..j]`
      inclusive, whatever lies between. */
  lemma BraceWindowOutermost(s: string, i: nat, j: nat)
    requires i < j < |s| && s[i] == '{' && s[j] == '}'
    requires forall k :: 0 <= k < i ==> s[k] != '{'
    requires forall k :: j < k < |s| ==> s[k] != '}'
    ensures BraceWindow(s) == Some(s[i..j + 1])
  {
    var f := FirstIndex(s, '{');
    var l := LastIndex(s, '}');
    assert f.Some? && f.value == i;
    assert l.Some? && l.value == j;
  }

  /** An object embedded in prose that holds no braces is recovered whole. */
  lemma BraceWindowInProse(pre: string, obj: string, post: string)
    requires |obj| >= 2 && obj[0] == '{' && obj[|obj| - 1] == '}'
    requires forall k :: 0 <= k < |pre| ==> pre[k] != '{'
    requires forall k :: 0 <= k < |post| ==> post[k] != '}'
    ensures BraceWindow(pre + obj + post) == Some(obj)
  {
    var s := pre + obj + post;
    var i := |pre|;
    var j := |pre| + |obj| - 1;
    forall k | 0 <= k < i ensures s[k] != '{' { assert s[k] == pre[k]; }
    forall k | j < k < |s| ensures s[k] != '}' { assert s[k] == post[k - j - 1]; }
    BraceWindowOutermost(s, i, j);
    assert s[i..j + 1] == obj;
  }

  // ---------------------------------------------------------------------
  // The cascade

  /** `{"error": "Invalid JSON", "raw_output": rawOutput}`. */
  function ErrorRecord(rawOutput: string): Json {
    JObject(map["error" := JStr("Invalid JSON"), "raw_output" := JStr(rawOutput)])
  }

  /** Strict parse of the cleaned text, then the brace window, then the
      given error record; a `JSONDecodeError` never escapes. */
  function RecoverWithBraces(clean: string, parse: Parser, fallback: Json): Json {
    match parse(clean)
    case Ok(v) => v
    case Err(_) =>
      match BraceWindow(clean)
      case None => fallback
      case Some(w) =>
        match parse(w)
        case Ok(v) => v
        case Err(_) => fallback
  }

  /** Strict parse of the cleaned text, else the given error record. */
  function RecoverStrict(clean: string, parse: Parser, fallback: Json): Json {
    match parse(clean)
    case Ok(v) => v
    case Err(_) => fallback
  }

  /** The result of the cascade is the value of one of the two parse
      attempts, or the fallback; a strict parse that succeeds is returned
      unchanged, and the fallback appears only when neither attempt
      parsed. */
  lemma RecoverWithBracesCases(clean: string, parse: Parser, fallback: Json)
    ensures var r := RecoverWithBraces(clean, parse, fallback);
      && (parse(clean).Ok? ==> r == parse(clean).value)
      && ((parse(clean).Err? && BraceWindow(clean).Some? && parse(BraceWindow(clean).value).Ok?) ==>
            r == parse(BraceWindow(clean).value).value)
      && (r != fallback ==>
            (parse(clean) == Ok(r) || (BraceWindow(clean).Some? && parse(BraceWindow(clean).value) == Ok(r))))
  {
  }

  /** The brace window only ever adds recoveries: whenever the strict
      variant recovers a value, the brace variant recovers the same one. */
  lemma BracesExtendStrict(clean: string, parse: Parser, fallback: Json)
    requires RecoverStrict(clean, parse, fallback) != fallback
    ensures RecoverWithBraces(clean, parse, fallback) == RecoverStrict(clean, parse, fallback)
  {
  }

  /** A fenced JSON text is returned parsed, by either variant, whatever
      error record would have been used. */
  lemma FencedTextRecovered(raw: string, tag: string, ws1: string, t: string, ws2: string,
                            parse: Parser, fallback: Json)
    requires Strip(raw) == Fence + tag + ws1 + t + ws2 + Fence
    requires tag == [] || IsJsonTag(tag)
    requires AllSpace(ws1) && AllSpace(ws2)
    requires t != [] && !IsSpace(t[0]) && !IsSpace(t[|t| - 1])
    requires t[0] != 'j' && t[0] != 'J'
    requires parse(t).Ok?
    ensures RecoverWithBraces(CleanFences(raw), parse, fallback) == parse(t).value
    ensures RecoverStrict(CleanFences(raw), parse, fallback) == parse(t).value
  {
    FenceRoundTrip(raw, tag, ws1, t, ws2);
  }

  /** An object wrapped in prose that the strict parse rejects is recovered
      by the brace variant, while the strict variant gives the error
      record. */
  lemma ProseWrappedObject(pre: string, obj: string, post: string, parse: Parser, fallback: Json)
    requires |obj| >= 2 && obj[0] == '{' && obj[|obj| - 1] == '}'
    requires forall k :: 0 <= k < |pre| ==> pre[k] != '{'
    requires forall k :: 0 <= k < |post| ==> post[k] != '}'
    requires parse(pre + obj + post).Err? && parse(obj).Ok?
    ensures RecoverWithBraces(pre + obj + post, parse, fallback) == parse(obj).value
    ensures RecoverStrict(pre + obj + post, parse, fallback) == fallback
  {
    BraceWindowInProse(pre, obj, post);
  }

  /** With no `{` before a `}`, the brace variant behaves like the strict
      one. */
  lemma NoBracesSameAsStrict(clean: string, parse: Parser, fallback: Json)
    requires forall i, j :: 0 <= i < j < |clean| && clean[i] == '{' ==> clean[j] != '}'
    ensures RecoverWithBraces(clean, parse, fallback) == RecoverStrict(clean, parse, fallback)
  {
    BraceWindowExists(clean);
  }

  // ---------------------------------------------------------------------
  // Concrete instances

  lemma BraceWindowExample()
    ensures BraceWindow("Sure: {\"a\": {\"b\": 2}} done") == Some("{\"a\": {\"b\": 2}}")
  {
    BraceWindowInProse("Sure: ", "{\"a\": {\"b\": 2}}", " done");
    assert "Sure: " + "{\"a\": {\"b\": 2}}" + " done" == "Sure: {\"a\": {\"b\": 2}} done";
  }
}
