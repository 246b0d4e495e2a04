/** The language-model gateway as the scripts see it, and the bounded retry
    loop wrapped around it in `extract_fields`
    (pilot_with_pdf/run_pdf_extract_after_analysis.py and
    run_pdf_extract_naive.py) and `call_llm_json`
    (pilot_with_pdf/run_pdf_analysis.py).

    The gateway is not modelled: a call either raises (`Failed`, carrying
    `str(e)`) or returns a response. Which reply attempt `k` gets is a
    parameter, `replies(k)`; sleeping is recorded as the list of durations
    slept, in seconds. */
module Gateway {
  import opened Wrappers

  /** The parts of a response object the scripts read: the `output_text`
      property, the text of the first content block of the first output item
      (`None` when that lookup raises), and `str(r)`. */
  datatype Response = Response(outputText: string, firstContent: Option<string>, repr: string)

  datatype Reply = Failed(message: string) | Answered(response: Response)

  /** The reply the gateway gives to attempt `k` (0-based). */
  type Replies = nat -> Reply

  /** The replies given to the request with index `i` of a run (its
      position in the batch) whose prompt is `p`: `service(i, p)`. */
  type Service = (nat, string) -> Replies

  /** `attempts = 3`. */
  const Attempts: nat := 3

  function Pow2(n: nat): (p: nat)
    ensures p >= 1
  {
    if n == 0 then 1 else 2 * Pow2(n - 1)
  }

  /** `time.sleep(2 ** attempt)`. */
  function Backoff(attempt: nat): nat {
    Pow2(attempt)
  }

  /** What the retry loop did: the reply it ends with (or the exception it
      re-raises), how many calls it made, and the sleeps, in order. */
  datatype Trace = Trace(outcome: Result<Response>, calls: nat, sleeps: seq<nat>)

  /** The retry loop from attempt `attempt` on. */
  function RetryFrom(replies: Replies, attempt: nat): Trace
    requires attempt < Attempts
    decreases Attempts - attempt
  {
    match replies(attempt)
    case Answered(r) => Trace(Ok(r), 1, [])
    case Failed(e) =>
      if attempt < Attempts - 1 then
        var rest := RetryFrom(replies, attempt + 1);
        Trace(rest.outcome, rest.calls + 1, [Backoff(attempt)] + rest.sleeps)
      else
        Trace(Err(e), 1, [])
  }

  function Retry(replies: Replies): Trace {
    RetryFrom(replies, 0)
  }

  /** The `for attempt in range(attempts)` loop: call, `break` on success,
      otherwise sleep `2 ** attempt` and go on, or re-raise on the last
      attempt. */
  method CallWithRetry(replies: Replies) returns (outcome: Result<Response>, calls: nat, sleeps: seq<nat>)
    ensures Trace(outcome, calls, sleeps) == Retry(replies)
  {
    outcome := Err("");
    calls := 0;
    sleeps := [];
    var attempt := 0;
    while attempt < Attempts
      invariant attempt <= Attempts
      invariant attempt < Attempts ==>
        var rest := RetryFrom(replies, attempt);
        Retry(replies) == Trace(rest.outcome, calls + rest.calls, sleeps + rest.sleeps)
      invariant attempt == Attempts ==> Retry(replies) == Trace(outcome, calls, sleeps)
      decreases Attempts - attempt
    {
      var reply := replies(attempt);
      calls := calls + 1;
      if reply.Answered? {
        outcome := Ok(reply.response);
        break;
      }
      if attempt < Attempts - 1 {
        ghost var rest := RetryFrom(replies, attempt + 1);
        assert sleeps + ([Backoff(attempt)] + rest.sleeps) == (sleeps + [Backoff(attempt)]) + rest.sleeps;
        sleeps := sleeps + [Backoff(attempt)];
      } else {
        outcome := Err(reply.message);
      }
      attempt := attempt + 1;
    }
  }

  // ---------------------------------------------------------------------
  // What the retry loop promises

  /** Between one and three calls; one sleep after every call but the last,
      and the `k`-th sleep lasts `2 ** k` seconds (so the sleeps are a
      prefix of 1, 2). */
  lemma {:induction false} RetryBounds(replies: Replies, attempt: nat)
    requires attempt < Attempts
    ensures var t := RetryFrom(replies, attempt);
      && 1 <= t.calls <= Attempts - attempt
      && |t.sleeps| == t.calls - 1
      && forall k :: 0 <= k < |t.sleeps| ==> t.sleeps[k] == Backoff(attempt + k)
    decreases Attempts - attempt
  {
    if replies(attempt).Failed? && attempt < Attempts - 1 {
      RetryBounds(replies, attempt + 1);
      var rest := RetryFrom(replies, attempt + 1);
      var t := RetryFrom(replies, attempt);
      forall k | 0 <= k < |t.sleeps|
        ensures t.sleeps[k] == Backoff(attempt + k)
      {
        if k > 0 {
          assert t.sleeps[k] == rest.sleeps[k - 1];
        }
      }
    }
  }

  /** The sleeps of a whole retry run are exactly `[1, 2][:calls - 1]`. */
  lemma RetrySleeps(replies: Replies)
    ensures var t := Retry(replies);
      1 <= t.calls <= 3 && t.sleeps == [1, 2][..t.calls - 1]
  {
    RetryBounds(replies, 0);
    var t := Retry(replies);
    assert Backoff(0) == 1 && Backoff(1) == 2;
    if t.calls == 3 {
      assert t.sleeps[0] == 1 && t.sleeps[1] == 2;
    } else if t.calls == 2 {
      assert t.sleeps[0] == 1;
    }
  }

  /** The loop stops at the first answer: it succeeds exactly when one of
      the three attempts is answered, and then it returns the reply of the
      first answered attempt after failing on every attempt before it. */
  lemma {:induction false} RetryStopsAtFirstAnswer(replies: Replies, attempt: nat)
    requires attempt < Attempts
    ensures var t := RetryFrom(replies, attempt);
      && (t.outcome.Ok? <==> exists k :: attempt <= k < Attempts && replies(k).Answered?)
      && (t.outcome.Ok? ==>
            && replies(attempt + t.calls - 1) == Answered(t.outcome.value)
            && forall k :: attempt <= k < attempt + t.calls - 1 ==> replies(k).Failed?)
    decreases Attempts - attempt
  {
    if replies(attempt).Failed? && attempt < Attempts - 1 {
      RetryStopsAtFirstAnswer(replies, attempt + 1);
      var t := RetryFrom(replies, attempt);
      if t.outcome.Ok? {
      } else {
        forall k | attempt <= k < Attempts
          ensures replies(k).Failed?
        {
          if k > attempt {
            assert !replies(k).Answered?;
          }
        }
      }
    }
  }

  /** When every attempt fails, the loop makes exactly three calls, sleeps
      1 and then 2 seconds, and re-raises the third failure; nothing is slept
      after it. */
  lemma RetryGivesUp(replies: Replies)
    requires forall k :: 0 <= k < Attempts ==> replies(k).Failed?
    ensures Retry(replies) == Trace(Err(replies(2).message), 3, [1, 2])
  {
    assert replies(0).Failed? && replies(1).Failed? && replies(2).Failed?;
  }

  // ---------------------------------------------------------------------
  // Which text of a response is used

  /** `getattr(r, "output_text", None)`, falling back, when that is empty,
      to `r.output[0].content[0].text` and, when that lookup raises, to
      `str(r)`. */
  function RawText(r: Response): string {
    if r.outputText != "" then r.outputText
    else if r.firstContent.Some? then r.firstContent.value
    else r.repr
  }
}
