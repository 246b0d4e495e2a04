/** The text chunker, `chunk_text`, of
    pilot_with_pdf/run_pdf_extract_after_analysis.py (the same function is
    repeated verbatim in run_pdf_extract_naive.py and run_pdf_analysis.py):
    newline runs are collapsed, the text is stripped, and fixed-size windows
    are emitted every `max_chars - overlap` characters. */
module Chunker {
  import opened Text

  /** Three newlines in a row start at index `i`. */
  predicate TripleAt(s: string, i: int) {
    0 <= i < |s| - 2 && s[i] == '\n' && s[i + 1] == '\n' && s[i + 2] == '\n'
  }

  predicate NoTripleNewline(s: string) {
    forall i :: 0 <= i < |s| - 2 ==> !TripleAt(s, i)
  }

  /** The characters of `s` other than newlines, in order. */
  function WithoutNewlines(s: string): string {
    if s == [] then []
    else (if s[0] == '\n' then [] else [s[0]]) + WithoutNewlines(s[1..])
  }

  /** Length of the run of newlines `s` starts with. */
  function LeadingNewlines(s: string): (k: nat)
    ensures k <= |s|
    ensures forall i :: 0 <= i < k ==> s[i] == '\n'
    ensures k == |s| || s[k] != '\n'
  {
    if |s| > 0 && s[0] == '\n' then 1 + LeadingNewlines(s[1..]) else 0
  }

  lemma NoTripleAfterChar(c: char, b: string)
    requires c != '\n' && NoTripleNewline(b)
    ensures NoTripleNewline([c] + b)
  {
    var s := [c] + b;
    forall i | 0 <= i < |s| - 2
      ensures !TripleAt(s, i)
    {
      if i > 0 {
        assert s[i] == b[i - 1] && s[i + 1] == b[i] && s[i + 2] == b[i + 1];
        assert !TripleAt(b, i - 1);
      }
    }
  }

  lemma NoTripleAfterRun(a: string, b: string)
    requires |a| <= 2 && NoTripleNewline(b) && (b == [] || b[0] != '\n')
    ensures NoTripleNewline(a + b)
  {
    var s := a + b;
    forall i | 0 <= i < |s| - 2
      ensures !TripleAt(s, i)
    {
      if i >= |a| {
        assert s[i] == b[i - |a|] && s[i + 1] == b[i - |a| + 1] && s[i + 2] == b[i - |a| + 2];
        assert !TripleAt(b, i - |a|);
      } else {
        assert s[|a|] == b[0];
      }
    }
  }

  lemma AllSpaceConcat(a: string, b: string)
    ensures AllSpace(a + b) <==> AllSpace(a) && AllSpace(b)
  {
    if AllSpace(a) && AllSpace(b) {
      forall i | 0 <= i < |a + b| ensures IsSpace((a + b)[i]) {
        if i >= |a| { assert (a + b)[i] == b[i - |a|]; }
      }
    }
    if AllSpace(a + b) {
      forall i | 0 <= i < |b| ensures IsSpace(b[i]) { assert (a + b)[|a| + i] == b[i]; }
      forall i | 0 <= i < |a| ensures IsSpace(a[i]) { assert (a + b)[i] == a[i]; }
    }
  }

  lemma WithoutNewlinesConcat(a: string, b: string)
    ensures WithoutNewlines(a + b) == WithoutNewlines(a) + WithoutNewlines(b)
    decreases |a|
  {
    if a == [] {
      assert a + b == b;
    } else {
      assert (a + b)[1..] == a[1..] + b;
      WithoutNewlinesConcat(a[1..], b);
    }
  }

  lemma WithoutNewlinesOfRun(a: string)
    requires forall i :: 0 <= i < |a| ==> a[i] == '\n'
    ensures WithoutNewlines(a) == []
    decreases |a|
  {
    if a != [] { WithoutNewlinesOfRun(a[1..]); }
  }

  /** How much of `s` the collapse handles in one step: one character
      other than a newline, or the whole run of newlines `s` starts with. */
  function PieceLength(s: string): (k: nat)
    requires s != []
    ensures 1 <= k <= |s|
  {
    if s[0] != '\n' then 1 else LeadingNewlines(s)
  }

  /** What that piece becomes: a run of three or more newlines turns into
      two, anything else stays. */
  function Replacement(s: string): string
    requires s != []
  {
    var k := PieceLength(s);
    if k >= 3 then "\n\n" else s[..k]
  }

  /** `re.sub(r"\n{3,}", "\n\n", s)`: every maximal run of three or more
      newlines becomes exactly two, everything else is kept. The result
      starts with a newline exactly when `s` does. */
  function CollapseNewlines(s: string): (r: string)
    ensures (r != [] && r[0] == '\n') <==> (s != [] && s[0] == '\n')
    ensures |r| <= |s|
    decreases |s|
  {
    if s == [] then []
    else
      var k := PieceLength(s);
      assert k >= 3 ==> s[0] == '\n';
      Replacement(s) + CollapseNewlines(s[k..])
  }

  /** One step of the collapse: the piece and its replacement are both a
      single ordinary character, or both newlines only, the replacement
      at most two of them, and the rest of `s` does not start with a
      newline after a run. */
  lemma PieceFacts(s: string)
    requires s != []
    ensures var k := PieceLength(s);
      var r := Replacement(s);
      && s == s[..k] + s[k..]
      && |r| <= 2
      && (s[0] != '\n' ==> k == 1 && r == [s[0]])
      && (s[0] == '\n' ==>
            (forall i :: 0 <= i < |r| ==> r[i] == '\n')
            && (forall i :: 0 <= i < k ==> s[i] == '\n')
            && (k == |s| || s[k] != '\n'))
  {
    var k := PieceLength(s);
    if s[0] != '\n' {
      assert s[..1] == [s[0]];
    }
  }

  /** A maximal run of `n` newlines becomes exactly two newlines when
      `n >= 3` and stays as it is otherwise; the text after the run is
      collapsed on its own. */
  lemma CollapseRun(n: nat, b: string)
    requires n >= 1 && (b == [] || b[0] != '\n')
    ensures CollapseNewlines(seq(n, _ => '\n') + b)
            == (if n >= 3 then "\n\n" else seq(n, _ => '\n')) + CollapseNewlines(b)
  {
    var run := seq(n, _ => '\n');
    var s := run + b;
    var k := LeadingNewlines(s);
    assert forall i :: 0 <= i < n ==> s[i] == '\n';
    assert n < |s| ==> s[n] == b[0];
    assert k == n;
    assert s[k..] == b;
    assert s[..k] == run;
  }

  /** A character other than a newline is kept, and the rest is collapsed
      on its own. */
  lemma CollapseChar(c: char, b: string)
    requires c != '\n'
    ensures CollapseNewlines([c] + b) == [c] + CollapseNewlines(b)
  {
    var s := [c] + b;
    assert s[1..] == b;
    assert s[..1] == [c];
  }

  /** After the collapse no three newlines follow each other. */
  lemma {:induction false} CollapseIsTripleFree(s: string)
    ensures NoTripleNewline(CollapseNewlines(s))
    decreases |s|
  {
    if s != [] {
      var k := PieceLength(s);
      PieceFacts(s);
      CollapseIsTripleFree(s[k..]);
      if s[0] != '\n' {
        NoTripleAfterChar(s[0], CollapseNewlines(s[k..]));
      } else {
        NoTripleAfterRun(Replacement(s), CollapseNewlines(s[k..]));
      }
    }
  }

  /** The collapse removes newlines only: every other character is kept,
      in order. */
  lemma {:induction false} CollapseKeepsOtherChars(s: string)
    ensures WithoutNewlines(CollapseNewlines(s)) == WithoutNewlines(s)
    decreases |s|
  {
    if s != [] {
      var k := PieceLength(s);
      PieceFacts(s);
      CollapseKeepsOtherChars(s[k..]);
      if s[0] == '\n' {
        WithoutNewlinesOfRun(Replacement(s));
        WithoutNewlinesOfRun(s[..k]);
      }
      SameOtherChars(Replacement(s), CollapseNewlines(s[k..]), s[..k], s[k..]);
    }
  }

  lemma SameOtherChars(a: string, b: string, c: string, d: string)
    requires WithoutNewlines(a) == WithoutNewlines(c) && WithoutNewlines(b) == WithoutNewlines(d)
    ensures WithoutNewlines(a + b) == WithoutNewlines(c + d)
  {
    WithoutNewlinesConcat(a, b);
    WithoutNewlinesConcat(c, d);
  }

  /** The collapse leaves a blank text blank and a non-blank one non-blank. */
  lemma {:induction false} CollapseKeepsBlankness(s: string)
    ensures AllSpace(CollapseNewlines(s)) <==> AllSpace(s)
    decreases |s|
  {
    if s != [] {
      var k := PieceLength(s);
      PieceFacts(s);
      CollapseKeepsBlankness(s[k..]);
      SameBlankness(Replacement(s), CollapseNewlines(s[k..]), s[..k], s[k..]);
    }
  }

  lemma SameBlankness(a: string, b: string, c: string, d: string)
    requires AllSpace(a) <==> AllSpace(c)
    requires AllSpace(b) <==> AllSpace(d)
    ensures AllSpace(a + b) <==> AllSpace(c + d)
  {
    AllSpaceConcat(a, b);
    AllSpaceConcat(c, d);
  }

  lemma NoTripleInSuffix(s: string, k: nat)
    requires k <= |s| && NoTripleNewline(s)
    ensures NoTripleNewline(s[k..])
  {
    forall i | 0 <= i < |s| - k - 2
      ensures !TripleAt(s[k..], i)
    {
      assert s[k..][i] == s[k + i] && s[k..][i + 1] == s[k + i + 1] && s[k..][i + 2] == s[k + i + 2];
      assert !TripleAt(s, k + i);
    }
  }

  /** Text that has no run of three newlines is left as it is; so the
      collapse is idempotent. */
  lemma {:induction false} CollapseKeepsTripleFree(s: string)
    requires NoTripleNewline(s)
    ensures CollapseNewlines(s) == s
    decreases |s|
  {
    if s != [] {
      var k := PieceLength(s);
      PieceFacts(s);
      assert |s| > 2 ==> !TripleAt(s, 0);
      assert k < 3;
      NoTripleInSuffix(s, k);
      CollapseKeepsTripleFree(s[k..]);
    }
  }

  lemma CollapseIdempotent(s: string)
    ensures CollapseNewlines(CollapseNewlines(s)) == CollapseNewlines(s)
  {
    CollapseIsTripleFree(s);
    CollapseKeepsTripleFree(CollapseNewlines(s));
  }

  lemma NoTripleInInfix(n: string, h: string)
    requires NoTripleNewline(h) && IsInfix(n, h)
    ensures NoTripleNewline(n)
  {
    var j :| 0 <= j <= |h| - |n| && InfixAt(n, h, j);
    assert h[j..j + |n|] == n;
    forall i | 0 <= i < |n| - 2
      ensures !TripleAt(n, i)
    {
      assert n[i] == h[j..j + |n|][i] == h[j + i];
      assert n[i + 1] == h[j..j + |n|][i + 1] == h[j + i + 1];
      assert n[i + 2] == h[j..j + |n|][i + 2] == h[j + i + 2];
      assert !TripleAt(h, j + i);
    }
  }

  /** `re.sub(r"\n{3,}", "\n\n", text).strip()`. */
  function Normalize(text: string): string {
    Strip(CollapseNewlines(text))
  }

  /** The normalised text has no three newlines in a row, does not start
      or end with whitespace, and is empty exactly when `text` is blank. */
  lemma NormalizeShape(text: string)
    ensures NoTripleNewline(Normalize(text))
    ensures var norm := Normalize(text);
      norm == [] || (!IsSpace(norm[0]) && !IsSpace(norm[|norm| - 1]))
    ensures Normalize(text) == [] <==> AllSpace(text)
  {
    var c := CollapseNewlines(text);
    CollapseIsTripleFree(text);
    NoTripleInInfix(Strip(c), c);
    CollapseKeepsBlankness(text);
  }

  /** Normalising twice changes nothing. */
  lemma NormalizeIdempotent(text: string)
    ensures Normalize(Normalize(text)) == Normalize(text)
  {
    var norm := Normalize(text);
    NormalizeShape(text);
    CollapseKeepsTripleFree(norm);
    assert CollapseNewlines(norm) == norm;
    StripOfStripped(norm);
    assert Normalize(norm) == Strip(norm);
  }

  // ---------------------------------------------------------------------
  // Windows, as the source's loop emits them

  /** The windows the loop emits from offset `i` on: `text[i:i+max_chars]`
      while `i < len(text)`, advancing by `step`. */
  function WindowsFrom(norm: string, maxChars: nat, step: nat, i: nat): seq<string>
    requires 0 < step <= maxChars
    decreases |norm| - i
  {
    if i >= |norm| then []
    else [norm[i..Min(i + maxChars, |norm|)]] + WindowsFrom(norm, maxChars, step, i + step)
  }

  /** The chunks of an already normalised text. */
  function Chunks(norm: string, maxChars: nat, overlap: nat): seq<string>
    requires overlap < maxChars
  {
    WindowsFrom(norm, maxChars, maxChars - overlap, 0)
  }

  /** `chunk_text(text, max_chars, overlap)`. The source never checks its
      parameters; with `max_chars - overlap <= 0` its loop would not end, so
      the model asks for `0 <= overlap < max_chars`. */
  method ChunkText(text: string, maxChars: nat, overlap: nat) returns (chunks: seq<string>)
    requires overlap < maxChars
    ensures chunks == Chunks(Normalize(text), maxChars, overlap)
  {
    chunks := EmitWindows(Normalize(text), maxChars, overlap);
  }

  /** The `while i < len(text)` loop over an already normalised text. */
  method EmitWindows(norm: string, maxChars: nat, overlap: nat) returns (chunks: seq<string>)
    requires overlap < maxChars
    ensures chunks == Chunks(norm, maxChars, overlap)
  {
    var step := maxChars - overlap;
    ghost var all := Chunks(norm, maxChars, overlap);
    chunks := [];
    var i := 0;
    while i < |norm|
      invariant chunks + WindowsFrom(norm, maxChars, step, i) == all
      decreases |norm| - i
    {
      var window := norm[i..Min(i + maxChars, |norm|)];
      ghost var rest := WindowsFrom(norm, maxChars, step, i + step);
      assert chunks + [window] + rest == chunks + ([window] + rest);
      chunks := chunks + [window];
      i := i + step;
    }
  }

  lemma {:induction false} WindowsAt(norm: string, maxChars: nat, step: nat, i: nat, k: nat)
    requires 0 < step <= maxChars
    requires k < |WindowsFrom(norm, maxChars, step, i)|
    ensures i + k * step < |norm|
    ensures WindowsFrom(norm, maxChars, step, i)[k]
            == norm[i + k * step..Min(i + k * step + maxChars, |norm|)]
    decreases |norm| - i
  {
    if k > 0 {
      WindowsAt(norm, maxChars, step, i + step, k - 1);
      assert i + step + (k - 1) * step == i + k * step;
    }
  }

  lemma {:induction false} WindowsCount(norm: string, maxChars: nat, step: nat, i: nat)
    requires 0 < step <= maxChars
    ensures var c := |WindowsFrom(norm, maxChars, step, i)|;
            if i >= |norm| then c == 0
            else i + (c - 1) * step < |norm| <= i + c * step
    decreases |norm| - i
  {
    if i < |norm| {
      WindowsCount(norm, maxChars, step, i + step);
      var c' := |WindowsFrom(norm, maxChars, step, i + step)|;
      assert i + step + (c' - 1) * step == i + c' * step;
      assert i + step + c' * step == i + (c' + 1) * step;
    }
  }

  /** What is left of each chunk once the `overlap` characters it shares
      with its predecessor are dropped, concatenated. */
  function DropOverlaps(cs: seq<string>, overlap: nat): string {
    if cs == [] then "" else PyDrop(cs[0], overlap) + DropOverlaps(cs[1..], overlap)
  }

  /** The first chunk followed by every later chunk minus its overlap. */
  function Stitch(cs: seq<string>, overlap: nat): string {
    if cs == [] then "" else cs[0] + DropOverlaps(cs[1..], overlap)
  }

  lemma {:induction false} DropOverlapsFrom(norm: string, maxChars: nat, overlap: nat, i: nat)
    requires overlap < maxChars
    ensures DropOverlaps(WindowsFrom(norm, maxChars, maxChars - overlap, i), overlap)
            == norm[Min(i + overlap, |norm|)..]
    decreases |norm| - i
  {
    var step := maxChars - overlap;
    if i < |norm| {
      var e := Min(i + maxChars, |norm|);
      var rest := WindowsFrom(norm, maxChars, step, i + step);
      WindowsFromStep(norm, maxChars, step, i);
      DropOverlapsFrom(norm, maxChars, overlap, i + step);
      assert Min(i + step + overlap, |norm|) == e;
      DropStep(norm, i, e, overlap, rest, WindowsFrom(norm, maxChars, step, i));
    }
  }

  /** The inductive step of the overlap dropping: a first window
      `norm[i..e]` followed by windows that give back `norm[e..]`. */
  lemma DropStep(norm: string, i: nat, e: nat, overlap: nat, rest: seq<string>, ws: seq<string>)
    requires i <= e <= |norm| && Min(i + overlap, |norm|) <= e
    requires ws == [norm[i..e]] + rest
    requires DropOverlaps(rest, overlap) == norm[e..]
    ensures DropOverlaps(ws, overlap) == norm[Min(i + overlap, |norm|)..]
  {
    DropOverlapsCons(norm[i..e], rest, overlap);
    DropThenRest(norm, i, e, overlap);
  }

  /** A first chunk `norm[0..e]` followed by chunks that give back
      `norm[e..]` once their overlaps are dropped stitches to `norm`. */
  lemma StitchStep(norm: string, e: nat, overlap: nat, rest: seq<string>, cs: seq<string>)
    requires e <= |norm| && cs == [norm[0..e]] + rest
    requires DropOverlaps(rest, overlap) == norm[e..]
    ensures Stitch(cs, overlap) == norm
  {
    assert cs[0] == norm[0..e] && cs[1..] == rest;
    assert norm == norm[0..e] + norm[e..];
  }

  /** One unfolding of the window list. */
  lemma WindowsFromStep(norm: string, maxChars: nat, step: nat, i: nat)
    requires 0 < step <= maxChars && i < |norm|
    ensures WindowsFrom(norm, maxChars, step, i)
            == [norm[i..Min(i + maxChars, |norm|)]] + WindowsFrom(norm, maxChars, step, i + step)
  {
  }

  /** `DropOverlaps` of a list with a first window. */
  lemma DropOverlapsCons(w: string, rest: seq<string>, overlap: nat)
    ensures DropOverlaps([w] + rest, overlap) == PyDrop(w, overlap) + DropOverlaps(rest, overlap)
  {
    assert ([w] + rest)[1..] == rest;
  }

  /** Dropping the overlap from a window and appending what follows the
      window gives the text from the end of the overlap on. */
  lemma DropThenRest(norm: string, i: nat, e: nat, overlap: nat)
    requires i <= e <= |norm| && Min(i + overlap, |norm|) <= e
    ensures PyDrop(norm[i..e], overlap) + norm[e..] == norm[Min(i + overlap, |norm|)..]
  {
    var d := Min(i + overlap, |norm|);
    assert PyDrop(norm[i..e], overlap) == norm[d..e];
    assert norm[d..] == norm[d..e] + norm[e..];
  }

  // ---------------------------------------------------------------------
  // What the chunks are

  /** Chunk `k` is the window of `max_chars` characters (cut at the end of
      the text) starting at `k * (max_chars - overlap)`; it is non-empty and
      no longer than `max_chars`. */
  lemma ChunkShape(norm: string, maxChars: nat, overlap: nat, k: nat)
    requires overlap < maxChars
    requires k < |Chunks(norm, maxChars, overlap)|
    ensures var start := k * (maxChars - overlap);
            && start < |norm|
            && Chunks(norm, maxChars, overlap)[k] == norm[start..Min(start + maxChars, |norm|)]
            && 0 < |Chunks(norm, maxChars, overlap)[k]| <= maxChars
  {
    var step := maxChars - overlap;
    var start := k * step;
    WindowsAt(norm, maxChars, step, 0, k);
    assert 0 + k * step == start;
  }

  lemma DivUnique(x: nat, d: nat, c: nat)
    requires d > 0 && c * d <= x < (c + 1) * d
    ensures x / d == c
  {
    var q := x / d;
    assert q * d <= x < q * d + d;
    if q > c {
      MulMonotone(c + 1, q, d);
    } else if q < c {
      MulMonotone(q + 1, c, d);
    }
  }

  /** There are exactly `ceil(len(norm) / (max_chars - overlap))` chunks. */
  lemma ChunkCount(norm: string, maxChars: nat, overlap: nat)
    requires overlap < maxChars
    ensures var step := maxChars - overlap;
            |Chunks(norm, maxChars, overlap)| == (|norm| + step - 1) / step
  {
    var step := maxChars - overlap;
    var c := |Chunks(norm, maxChars, overlap)|;
    WindowsCount(norm, maxChars, step, 0);
    if |norm| == 0 {
      assert (step - 1) / step == 0;
    } else {
      assert (c - 1) * step + 1 <= |norm|;
      assert c * step == (c - 1) * step + step;
      DivUnique(|norm| + step - 1, step, c);
    }
  }

  /** Every index `j` of the normalised text lies inside chunk
      `j / (max_chars - overlap)`. */
  lemma ChunkCoverage(norm: string, maxChars: nat, overlap: nat, j: nat)
    requires overlap < maxChars && j < |norm|
    ensures var step := maxChars - overlap;
            var k := j / step;
            && k < |Chunks(norm, maxChars, overlap)|
            && k * step <= j < Min(k * step + maxChars, |norm|)
  {
    var step := maxChars - overlap;
    var k := j / step;
    var c := |Chunks(norm, maxChars, overlap)|;
    WindowsCount(norm, maxChars, step, 0);
    assert j == k * step + j % step;
    if k >= c {
      MulMonotone(c, k, step);
    }
  }

  lemma MulMonotone(a: nat, b: nat, d: nat)
    requires a <= b
    ensures a * d <= b * d
  {
  }

  /** Removing the overlap from every chunk but the first and joining them
      gives back the normalised text exactly. */
  lemma StitchRestoresText(norm: string, maxChars: nat, overlap: nat)
    requires overlap < maxChars
    ensures Stitch(Chunks(norm, maxChars, overlap), overlap) == norm
  {
    var step := maxChars - overlap;
    if |norm| > 0 {
      var e := Min(maxChars, |norm|);
      var rest := WindowsFrom(norm, maxChars, step, step);
      WindowsFromStep(norm, maxChars, step, 0);
      DropOverlapsFrom(norm, maxChars, overlap, step);
      assert Min(step + overlap, |norm|) == e;
      StitchStep(norm, e, overlap, rest, Chunks(norm, maxChars, overlap));
    }
  }

  /** Blank input, and only blank input, gives no chunks at all. */
  lemma NoChunksIffBlank(text: string, maxChars: nat, overlap: nat)
    requires overlap < maxChars
    ensures Chunks(Normalize(text), maxChars, overlap) == [] <==> AllSpace(text)
  {
    NormalizeShape(text);
  }

  /** A single chunk comes out exactly when the normalised text is non-empty
      and no longer than one step, and that chunk is the whole text. */
  lemma OneChunkIffWithinStep(norm: string, maxChars: nat, overlap: nat)
    requires overlap < maxChars && norm != []
    ensures |Chunks(norm, maxChars, overlap)| == 1 <==> |norm| <= maxChars - overlap
    ensures |norm| <= maxChars - overlap ==> Chunks(norm, maxChars, overlap) == [norm]
  {
    var step := maxChars - overlap;
    WindowsCount(norm, maxChars, step, 0);
    if |norm| <= step {
      assert WindowsFrom(norm, maxChars, step, step) == [];
      assert norm[0..Min(maxChars, |norm|)] == norm;
    }
  }

  /** As written, a text longer than one step but no longer than
      `max_chars` yields the whole text and then at least one more chunk
      that lies entirely inside the first. */
  lemma RedundantTailChunk(norm: string, maxChars: nat, overlap: nat)
    requires overlap < maxChars
    requires maxChars - overlap < |norm| <= maxChars
    ensures var cs := Chunks(norm, maxChars, overlap);
            |cs| >= 2 && cs[0] == norm && IsInfix(cs[1], cs[0])
  {
    var step := maxChars - overlap;
    var cs := Chunks(norm, maxChars, overlap);
    WindowsCount(norm, maxChars, step, 0);
    WindowsAt(norm, maxChars, step, 0, 1);
    assert cs[0] == norm[0..|norm|] == norm;
    assert InfixAt(cs[1], norm, step);
  }

  /** A concrete instance: four characters, `max_chars = 4`, `overlap = 1`. */
  lemma RedundantTailExample()
    ensures Chunks("abcd", 4, 1) == ["abcd", "d"]
  {
    assert WindowsFrom("abcd", 4, 3, 6) == [];
    assert "abcd"[3..Min(7, 4)] == "d";
    assert WindowsFrom("abcd", 4, 3, 3) == ["d"];
    assert "abcd"[0..Min(4, 4)] == "abcd";
    assert WindowsFrom("abcd", 4, 3, 0) == ["abcd"] + ["d"];
  }

  // ---------------------------------------------------------------------
  // Corrected chunker: stop once a window reaches the end of the text

  function WindowsToEnd(norm: string, maxChars: nat, step: nat, i: nat): seq<string>
    requires 0 < step <= maxChars
    decreases |norm| - i
  {
    if i >= |norm| then []
    else if i + maxChars >= |norm| then [norm[i..]]
    else [norm[i..i + maxChars]] + WindowsToEnd(norm, maxChars, step, i + step)
  }

  function ChunksToEnd(norm: string, maxChars: nat, overlap: nat): seq<string>
    requires overlap < maxChars
  {
    WindowsToEnd(norm, maxChars, maxChars - overlap, 0)
  }

  /** `chunk_text` with the loop left as soon as a window reaches the end
      of the text, so no chunk repeats the tail of the one before it. */
  method ChunkTextToEnd(text: string, maxChars: nat, overlap: nat) returns (chunks: seq<string>)
    requires overlap < maxChars
    ensures chunks == ChunksToEnd(Normalize(text), maxChars, overlap)
  {
    chunks := WindowsUntilEnd(Normalize(text), maxChars, overlap);
  }

  /** The corrected window loop over an already normalised text. */
  method WindowsUntilEnd(norm: string, maxChars: nat, overlap: nat) returns (chunks: seq<string>)
    requires overlap < maxChars
    ensures chunks == ChunksToEnd(norm, maxChars, overlap)
  {
    var step := maxChars - overlap;
    ghost var all := ChunksToEnd(norm, maxChars, overlap);
    chunks := [];
    var i := 0;
    while i < |norm|
      invariant chunks + WindowsToEnd(norm, maxChars, step, i) == all
      decreases |norm| - i
    {
      WindowsToEndStep(norm, maxChars, step, i);
      if i + maxChars >= |norm| {
        chunks := chunks + [norm[i..]];
        break;
      }
      var window := norm[i..i + maxChars];
      MoveWindow(chunks, window, WindowsToEnd(norm, maxChars, step, i + step), all);
      chunks := chunks + [window];
      i := i + step;
    }
  }

  /** Moving the next window from the pending list to the emitted ones. */
  lemma MoveWindow(chunks: seq<string>, w: string, rest: seq<string>, all: seq<string>)
    requires chunks + ([w] + rest) == all
    ensures (chunks + [w]) + rest == all
  {
    assert chunks + [w] + rest == chunks + ([w] + rest);
  }

  /** One unfolding of the corrected window list: the last window runs to
      the end of the text, any other one is a full window followed by the
      windows from the next start. */
  lemma WindowsToEndStep(norm: string, maxChars: nat, step: nat, i: nat)
    requires 0 < step <= maxChars && i < |norm|
    ensures i + maxChars >= |norm| ==> WindowsToEnd(norm, maxChars, step, i) == [norm[i..]]
    ensures i + maxChars < |norm| ==>
      WindowsToEnd(norm, maxChars, step, i)
      == [norm[i..i + maxChars]] + WindowsToEnd(norm, maxChars, step, i + step)
  {
  }

  /** In the corrected chunker the `k`-th window from `i` is the slice at
      `i + k * step`, clipped at the end of the text. */
  lemma {:induction false} WindowsToEndAt(norm: string, maxChars: nat, step: nat, i: nat, k: nat)
    requires 0 < step <= maxChars && i < |norm|
    requires k < |WindowsToEnd(norm, maxChars, step, i)|
    ensures i + k * step < |norm|
    ensures WindowsToEnd(norm, maxChars, step, i)[k]
            == norm[i + k * step..Min(i + k * step + maxChars, |norm|)]
    decreases |norm| - i
  {
    var ws := WindowsToEnd(norm, maxChars, step, i);
    WindowsToEndStep(norm, maxChars, step, i);
    if i + maxChars >= |norm| {
      assert k == 0 && k * step == 0;
      assert ws[0] == norm[i..|norm|];
    } else if k == 0 {
      assert k * step == 0;
      assert ws[0] == norm[i..i + maxChars];
    } else {
      WindowsToEndTail(norm, maxChars, step, i, k);
      WindowsToEndAt(norm, maxChars, step, i + step, k - 1);
      assert i + step + (k - 1) * step == i + k * step;
    }
  }

  /** Past the first window, window `k` from `i` is window `k - 1` from
      the next start. */
  lemma WindowsToEndTail(norm: string, maxChars: nat, step: nat, i: nat, k: nat)
    requires 0 < step <= maxChars && i + maxChars < |norm|
    requires 0 < k < |WindowsToEnd(norm, maxChars, step, i)|
    ensures i + step < |norm|
    ensures k - 1 < |WindowsToEnd(norm, maxChars, step, i + step)|
    ensures WindowsToEnd(norm, maxChars, step, i)[k] == WindowsToEnd(norm, maxChars, step, i + step)[k - 1]
  {
    WindowsToEndStep(norm, maxChars, step, i);
  }

  /** In the corrected chunker another window follows window `k` exactly
      when window `k` ends before the text does. */
  lemma {:induction false} WindowsToEndFollowed(norm: string, maxChars: nat, step: nat, i: nat, k: nat)
    requires 0 < step <= maxChars && i < |norm|
    requires k < |WindowsToEnd(norm, maxChars, step, i)|
    ensures k < |WindowsToEnd(norm, maxChars, step, i)| - 1 <==> i + k * step + maxChars < |norm|
    decreases |norm| - i
  {
    WindowsToEndStep(norm, maxChars, step, i);
    if i + maxChars < |norm| {
      var rest := WindowsToEnd(norm, maxChars, step, i + step);
      assert |WindowsToEnd(norm, maxChars, step, i)| == 1 + |rest|;
      if k > 0 {
        WindowsToEndFollowed(norm, maxChars, step, i + step, k - 1);
        assert i + step + (k - 1) * step == i + k * step;
      } else {
        assert rest != [] by {
          WindowsToEndStep(norm, maxChars, step, i + step);
        }
      }
    }
  }

  lemma WindowsToEndShape(norm: string, maxChars: nat, step: nat, i: nat, k: nat)
    requires 0 < step <= maxChars && i < |norm|
    requires k < |WindowsToEnd(norm, maxChars, step, i)|
    ensures i + k * step < |norm|
    ensures WindowsToEnd(norm, maxChars, step, i)[k]
            == norm[i + k * step..Min(i + k * step + maxChars, |norm|)]
    ensures k < |WindowsToEnd(norm, maxChars, step, i)| - 1 <==> i + k * step + maxChars < |norm|
  {
    WindowsToEndAt(norm, maxChars, step, i, k);
    WindowsToEndFollowed(norm, maxChars, step, i, k);
  }

  lemma {:induction false} DropOverlapsToEnd(norm: string, maxChars: nat, overlap: nat, i: nat)
    requires overlap < maxChars && i < |norm|
    ensures DropOverlaps(WindowsToEnd(norm, maxChars, maxChars - overlap, i), overlap)
            == norm[Min(i + overlap, |norm|)..]
    decreases |norm| - i
  {
    var step := maxChars - overlap;
    WindowsToEndStep(norm, maxChars, step, i);
    if i + maxChars < |norm| {
      var e := i + maxChars;
      var rest := WindowsToEnd(norm, maxChars, step, i + step);
      DropOverlapsToEnd(norm, maxChars, overlap, i + step);
      assert Min(i + step + overlap, |norm|) == e;
      DropStep(norm, i, e, overlap, rest, WindowsToEnd(norm, maxChars, step, i));
    } else {
      LastWindowDrop(norm, i, overlap, WindowsToEnd(norm, maxChars, step, i));
    }
  }

  /** Dropping the overlap of a single window that runs to the end of the
      text. */
  lemma LastWindowDrop(norm: string, i: nat, overlap: nat, ws: seq<string>)
    requires i < |norm| && ws == [norm[i..]]
    ensures DropOverlaps(ws, overlap) == norm[Min(i + overlap, |norm|)..]
  {
    assert norm[i..|norm|] == norm[i..];
    assert ws == [norm[i..|norm|]] + [];
    DropStep(norm, i, |norm|, overlap, [], ws);
  }

  /** With the fix, a non-empty text no longer than `max_chars` is one chunk
      equal to the text. */
  lemma ToEndShortTextIsOneChunk(norm: string, maxChars: nat, overlap: nat)
    requires overlap < maxChars && 0 < |norm| <= maxChars
    ensures ChunksToEnd(norm, maxChars, overlap) == [norm]
  {
    assert norm[0..Min(maxChars, |norm|)] == norm;
  }

  /** With the fix, chunk `k` still starts at `k * step`, every chunk but
      the last is a full `max_chars` window, and the last one ends the
      text. */
  lemma ToEndShape(norm: string, maxChars: nat, overlap: nat, k: nat)
    requires overlap < maxChars
    requires k < |ChunksToEnd(norm, maxChars, overlap)|
    ensures var cs := ChunksToEnd(norm, maxChars, overlap);
            var start := k * (maxChars - overlap);
            && start < |norm|
            && cs[k] == norm[start..Min(start + maxChars, |norm|)]
            && (k < |cs| - 1 ==> |cs[k]| == maxChars)
            && (k == |cs| - 1 ==> start + |cs[k]| == |norm|)
  {
    var step := maxChars - overlap;
    var cs := ChunksToEnd(norm, maxChars, overlap);
    var start := k * step;
    WindowsToEndShape(norm, maxChars, step, 0, k);
    assert 0 + k * step == start;
    WindowEnds(norm, start, maxChars, cs[k], k == |cs| - 1);
  }

  lemma WindowEnds(norm: string, start: nat, maxChars: nat, w: string, last: bool)
    requires start < |norm| && w == norm[start..Min(start + maxChars, |norm|)]
    requires last <==> start + maxChars >= |norm|
    ensures !last ==> |w| == maxChars
    ensures last ==> start + |w| == |norm|
  {
  }

  /** With the fix, the chunks still stitch back to the text. */
  lemma ToEndStitch(norm: string, maxChars: nat, overlap: nat)
    requires overlap < maxChars
    ensures Stitch(ChunksToEnd(norm, maxChars, overlap), overlap) == norm
  {
    var step := maxChars - overlap;
    if norm != [] {
      var cs := ChunksToEnd(norm, maxChars, overlap);
      WindowsToEndStep(norm, maxChars, step, 0);
      if maxChars < |norm| {
        var rest := WindowsToEnd(norm, maxChars, step, step);
        DropOverlapsToEnd(norm, maxChars, overlap, step);
        assert Min(step + overlap, |norm|) == maxChars;
        StitchStep(norm, maxChars, overlap, rest, cs);
      } else {
        assert norm[0..|norm|] == norm[0..];
        assert [norm[0..]] == [norm[0..|norm|]] + [];
        StitchStep(norm, |norm|, overlap, [], cs);
      }
    }
  }
}
