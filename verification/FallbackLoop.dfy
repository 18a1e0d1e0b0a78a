// cmd/metiqd/agent_run_orchestrator.go: the attempt loop of runAgentTurnWithFallbacks,
// isRetryableAgentError and runtimeLabelAt.
module FallbackLoop {
  import opened Wrappers
  import Text

  // What ProcessTurn does on one runtime.
  datatype Reply = Answer(text: string) | Failure(error: string) | Panic(what: string)

  // A nil runtime is None.
  type Runtimes = seq<Option<Reply>>

  predicate Contains(s: string, sub: string)
  {
    sub <= s || (s != [] && Contains(s[1..], sub))
  }

  predicate Retryable(lower: string -> string, error: string)
  {
    var msg := lower(error);
    Contains(msg, "429") || Contains(msg, "rate_limit") || Contains(msg, "rate limit") ||
    Contains(msg, "context_length_exceeded") || Contains(msg, "context length") ||
    Contains(msg, "too many tokens") || Contains(msg, "model_not_found")
  }

  function RetryTest(lower: string -> string): string -> bool { error => Retryable(lower, error) }

  function LabelAt(labels: seq<string>, i: nat): string
  {
    if i < |labels| && Text.Trim(labels[i]) != "" then Text.Trim(labels[i])
    else if i == 0 then "primary"
    else "fallback-" + Text.Decimal(i)
  }

  datatype Attempt = Attempt(
    result: Option<string>, err: Option<string>, used: bool, from: string, to: string, reason: string)

  // Nothing here recovers: a panicking runtime unwinds the whole turn.
  datatype Turn = Returned(attempt: Attempt) | Panicked(what: string)

  // ----- Which runtime decides -----

  // The loop goes on past runtime i.
  predicate PassedOver(retry: string -> bool, rts: Runtimes, i: nat)
    requires i < |rts|
  {
    rts[i].Some? ==> rts[i].value.Failure? && retry(rts[i].value.error)
  }

  // Runtime k decides: everything before it was passed over, and it answers, fails for
  // good, or is the last there is.
  ghost predicate Decides(retry: string -> bool, rts: Runtimes, k: nat)
  {
    && k < |rts| && rts[k].Some?
    && AllPassedOver(retry, rts, k)
    && (PassedOver(retry, rts, k) ==> forall j: nat | k < j < |rts| :: rts[j].None?)
  }

  lemma OneDecides(retry: string -> bool, rts: Runtimes, j: nat, k: nat)
    requires Decides(retry, rts, j) && Decides(retry, rts, k)
    ensures j == k
  {
  }

  lemma {:induction false} SomeDecides(retry: string -> bool, rts: Runtimes, n: nat) returns (k: nat)
    requires n < |rts| && rts[n].Some? && forall i: nat | i < n :: PassedOver(retry, rts, i)
    ensures Decides(retry, rts, k)
    decreases |rts| - n
  {
    k := n;
    if PassedOver(retry, rts, n) {
      if j: nat :| n < j < |rts| && rts[j].Some? && forall i: nat | n < i < j :: rts[i].None? {
        k := SomeDecides(retry, rts, j);
      } else {
        forall j: nat | n < j < |rts| ensures rts[j].None? { NoneLeft(rts, n, j); }
      }
    }
  }

  lemma {:induction false} NoneLeft(rts: Runtimes, n: nat, j: nat)
    requires n < j < |rts|
    requires forall m: nat | n < m < |rts| && rts[m].Some? :: exists i: nat :: n < i < m && rts[i].Some?
    ensures rts[j].None?
    decreases j
  {
    if rts[j].Some? {
      var i: nat :| n < i < j && rts[i].Some?;
      NoneLeft(rts, n, i);
    }
  }

  // The runtimes called, in order: those that are not nil, up to the one that decides.
  function Called(rts: Runtimes, n: nat): seq<nat>
    requires n <= |rts|
  {
    if n == 0 then [] else Called(rts, n - 1) + if rts[n - 1].Some? then [n - 1] else []
  }

  // The first reason given for going on, among the first n runtimes.
  function ReasonUpTo(rts: Runtimes, n: nat): string
    requires n <= |rts|
  {
    if n == 0 then ""
    else if ReasonUpTo(rts, n - 1) != "" then ReasonUpTo(rts, n - 1)
    else if rts[n - 1].Some? && rts[n - 1].value.Failure? then Text.Trim(rts[n - 1].value.error)
    else ""
  }

  // The outcome is that of the deciding runtime k alone; fallback is reported exactly
  // when an answer comes from a runtime other than the first.  A failure counts as a
  // reason to go on unless it ended the loop.
  ghost predicate Reports(retry: string -> bool, rts: Runtimes, labels: seq<string>, guard: string -> string, k: nat,
                          turn: Turn)
    requires k < |rts| && rts[k].Some?
  {
    match rts[k].value
    case Panic(what) => turn == Panicked(what)
    case Answer(text) =>
      turn == Returned(Attempt(Some(guard(text)), None, k > 0, if k > 0 then LabelAt(labels, k - 1) else "",
                               if k > 0 then LabelAt(labels, k) else "", ReasonUpTo(rts, k)))
    case Failure(error) =>
      turn == Returned(Attempt(None, Some(error), false, "", "",
                               ReasonUpTo(rts, if retry(error) && k < |rts| - 1 then k + 1 else k)))
  }

  // Runtime k decided, and nothing after it was called.
  ghost predicate OutcomeOf(retry: string -> bool, rts: Runtimes, labels: seq<string>, guard: string -> string,
                            k: nat, turn: Turn, called: seq<nat>)
  {
    Decides(retry, rts, k) && Reports(retry, rts, labels, guard, k, turn) && called == Called(rts, k + 1)
  }

  ghost predicate IsOutcome(retry: string -> bool, rts: Runtimes, labels: seq<string>, guard: string -> string,
                            turn: Turn, called: seq<nat>)
  {
    exists k: nat :: OutcomeOf(retry, rts, labels, guard, k, turn, called)
  }

  // ----- The program -----

  method RunTurn(lower: string -> string, guard: string -> string, primary: Option<Reply>, fallbacks: Runtimes,
                 labels: seq<string>)
    returns (turn: Turn, called: seq<nat>)
    ensures primary.None? ==> turn.Returned? && turn.attempt.err.Some? && called == []
    ensures primary.Some? ==> IsOutcome(RetryTest(lower), [primary] + fallbacks, labels, guard, turn, called)
  {
    if primary.None? {
      return Returned(Attempt(None, Some("agent runtime not configured"), false, "", "", "")), [];
    }
    turn, called := TryEach(RetryTest(lower), guard, [primary] + fallbacks, labels);
  }

  method TryEach(retry: string -> bool, guard: string -> string, rts: Runtimes, labels: seq<string>)
    returns (turn: Turn, called: seq<nat>)
    requires rts != [] && rts[0].Some?
    ensures IsOutcome(retry, rts, labels, guard, turn, called)
  {
    var attempt := Attempt(None, None, false, "", "", "");
    var lastErr: Option<string> := None;
    called := [];
    ghost var k: nat := 0;   // the last runtime called
    var i := 0;
    while i < |rts|
      invariant 0 <= i <= |rts| && called == Called(rts, i)
      invariant AllPassedOver(retry, rts, i)
      invariant i > 0 ==> k < |rts| - 1 && LastCalled(rts, k, i) && lastErr == Some(rts[k].value.error)
      invariant attempt == Attempt(None, None, false, "", "", ReasonUpTo(rts, i))
    {
      if rts[i].Some? {
        called := called + [i];
        k := i;
        match rts[i].value
        case Panic(what) =>
          turn := Panicked(what);
          assert OutcomeOf(retry, rts, labels, guard, k, turn, called);
          return;
        case Answer(text) =>
          if i > 0 {
            attempt := attempt.(used := true, from := LabelAt(labels, i - 1), to := LabelAt(labels, i));
          }
          turn := Returned(attempt.(result := Some(guard(text))));
          assert OutcomeOf(retry, rts, labels, guard, k, turn, called);
          return;
        case Failure(error) =>
          lastErr := Some(error);
          if i == |rts| - 1 || !retry(error) {
            turn := Returned(attempt.(err := lastErr));
            assert OutcomeOf(retry, rts, labels, guard, k, turn, called);
            return;
          }
          if attempt.reason == "" {
            attempt := attempt.(reason := Text.Trim(error));
          }
      }
      i := i + 1;
    }
    turn := Returned(attempt.(err := if lastErr.Some? then lastErr else Some("all runtimes returned nil result")));
    Exhausted(retry, rts, labels, guard, k, turn);
    assert OutcomeOf(retry, rts, labels, guard, k, turn, called);
  }

  ghost predicate AllPassedOver(retry: string -> bool, rts: Runtimes, n: nat)
    requires n <= |rts|
  {
    forall i: nat | i < n :: PassedOver(retry, rts, i)
  }

  // k is the last runtime called before i, and it failed.
  ghost predicate LastCalled(rts: Runtimes, k: nat, i: nat)
  {
    k < i <= |rts| && rts[k].Some? && rts[k].value.Failure? && forall j: nat | k < j < i :: rts[j].None?
  }

  // Nothing but nil runtimes were left after the last failure.
  lemma {:induction false} Exhausted(retry: string -> bool, rts: Runtimes, labels: seq<string>, guard: string -> string,
                                     k: nat, turn: Turn)
    requires k < |rts| - 1 && LastCalled(rts, k, |rts|) && AllPassedOver(retry, rts, |rts|)
    requires turn == Returned(Attempt(None, Some(rts[k].value.error), false, "", "", ReasonUpTo(rts, |rts|)))
    ensures Decides(retry, rts, k) && Reports(retry, rts, labels, guard, k, turn)
    ensures Called(rts, |rts|) == Called(rts, k + 1)
  {
    assert PassedOver(retry, rts, k);
    CalledUpTo(rts, k + 1, |rts|);
    NoMoreReasons(rts, k + 1, |rts|);
  }

  lemma {:induction false} CalledUpTo(rts: Runtimes, m: nat, n: nat)
    requires m <= n <= |rts| && forall j: nat | m <= j < n :: rts[j].None?
    ensures Called(rts, n) == Called(rts, m)
    decreases n
  {
    if m < n { CalledUpTo(rts, m, n - 1); }
  }

  lemma {:induction false} NoMoreReasons(rts: Runtimes, m: nat, n: nat)
    requires m <= n <= |rts| && forall j: nat | m <= j < n :: rts[j].None?
    ensures ReasonUpTo(rts, n) == ReasonUpTo(rts, m)
    decreases n
  {
    if m < n { NoMoreReasons(rts, m, n - 1); }
  }

  // The result is a function of the runtimes: exactly one of them decides it, and every
  // other one called failed with a retryable error.
  lemma OutcomeIsDetermined(retry: string -> bool, rts: Runtimes)
    requires rts != [] && rts[0].Some?
    ensures exists k: nat :: Decides(retry, rts, k) && forall j: nat | Decides(retry, rts, j) :: j == k
  {
    var k := SomeDecides(retry, rts, 0);
    forall j: nat | Decides(retry, rts, j) ensures j == k { OneDecides(retry, rts, j, k); }
  }

  // An answer is returned exactly when some runtime answers and every one before it is
  // nil or fails retryably.
  lemma AnswerIff(retry: string -> bool, rts: Runtimes, k: nat)
    requires Decides(retry, rts, k)
    ensures rts[k].value.Answer? <==>
            exists j: nat :: j < |rts| && rts[j].Some? && rts[j].value.Answer? &&
                             forall i: nat | i < j :: PassedOver(retry, rts, i)
  {
    if j: nat :| j < |rts| && rts[j].Some? && rts[j].value.Answer? && AllPassedOver(retry, rts, j) {
      OneDecides(retry, rts, j, k);
    }
  }

  // The label reported as "from" is that of runtime k - 1, which was called exactly when
  // it is not nil.
  lemma {:induction false} FromWasCalledIff(retry: string -> bool, rts: Runtimes, k: nat)
    requires Decides(retry, rts, k) && k > 0
    ensures k - 1 in Called(rts, k + 1) <==> rts[k - 1].Some?
  {
    CalledMembers(rts, k + 1, k - 1);
  }

  lemma {:induction false} CalledMembers(rts: Runtimes, n: nat, i: nat)
    requires n <= |rts|
    ensures i in Called(rts, n) <==> i < n && rts[i].Some?
  {
    if n > 0 { CalledMembers(rts, n - 1, i); }
  }

  // An attempt that came back holds an answer or an error, never both and never neither.
  lemma {:induction false} AnswerOrError(retry: string -> bool, rts: Runtimes, labels: seq<string>,
                                         guard: string -> string, turn: Turn, called: seq<nat>)
    requires IsOutcome(retry, rts, labels, guard, turn, called)
    ensures turn.Returned? ==> (turn.attempt.result.Some? <==> turn.attempt.err.None?)
  {
    var k: nat :| OutcomeOf(retry, rts, labels, guard, k, turn, called);
  }

  // ----- The reported reason -----

  // Lowering turns no blank text into anything else.
  ghost predicate KeepsBlank(lower: string -> string)
  {
    forall s | Text.Trim(s) == "" :: Text.Trim(lower(s)) == ""
  }

  lemma {:induction false} ContainsMembers(s: string, sub: string)
    requires Contains(s, sub)
    ensures forall c | c in sub :: c in s
  {
    if !(sub <= s) { ContainsMembers(s[1..], sub); }
  }

  lemma {:induction false} BlankContains(s: string, sub: string, c: char)
    requires Text.Trim(s) == "" && c in sub && !Text.IsSpace(c)
    ensures !Contains(s, sub)
  {
    if Contains(s, sub) {
      ContainsMembers(s, sub);
      Text.BlankIsSpace(s);
    }
  }

  // Only a failure with something to say is retried.
  lemma {:induction false} RetriedIsNotBlank(lower: string -> string, error: string)
    requires KeepsBlank(lower) && Retryable(lower, error)
    ensures Text.Trim(error) != ""
  {
    if Text.Trim(error) == "" {
      var msg := lower(error);
      BlankContains(msg, "429", '4');
      BlankContains(msg, "rate_limit", 'r');
      BlankContains(msg, "rate limit", 'r');
      BlankContains(msg, "context_length_exceeded", 'c');
      BlankContains(msg, "context length", 'c');
      BlankContains(msg, "too many tokens", 't');
      BlankContains(msg, "model_not_found", 'm');
    }
  }

  lemma {:induction false} ReasonStays(rts: Runtimes, m: nat, n: nat)
    requires m <= n <= |rts| && ReasonUpTo(rts, m) != ""
    ensures ReasonUpTo(rts, n) == ReasonUpTo(rts, m)
    decreases n
  {
    if m < n { ReasonStays(rts, m, n - 1); }
  }

  // The reason given with an answer from fallback k is always the primary's error, while
  // `from` names runtime k - 1: the two speak of the same runtime only for k = 1.
  lemma {:induction false} ReasonIsThePrimarys(lower: string -> string, rts: Runtimes, labels: seq<string>,
                                               guard: string -> string, k: nat, turn: Turn, called: seq<nat>)
    requires KeepsBlank(lower) && rts != [] && rts[0].Some?
    requires OutcomeOf(RetryTest(lower), rts, labels, guard, k, turn, called)
    requires turn.Returned? && turn.attempt.used
    ensures k > 0 && turn.attempt.from == LabelAt(labels, k - 1) && turn.attempt.to == LabelAt(labels, k)
    ensures rts[0].value.Failure? && turn.attempt.reason == Text.Trim(rts[0].value.error) != ""
  {
    assert PassedOver(RetryTest(lower), rts, 0);
    RetriedIsNotBlank(lower, rts[0].value.error);
    assert ReasonUpTo(rts, 1) == Text.Trim(rts[0].value.error);
    ReasonStays(rts, 1, k);
  }

  // ----- Labels -----

  // A runtime goes by its own label without the space around it; the primary without one by
  // "primary", and the i-th fallback by "fallback-i".
  lemma {:induction false} LabelsTell(labels: seq<string>, i: nat)
    ensures i < |labels| && Text.Trim(labels[i]) != "" ==> LabelAt(labels, i) == Text.Trim(labels[i])
    ensures (i >= |labels| || Text.Trim(labels[i]) == "") && i == 0 ==> LabelAt(labels, i) == "primary"
    ensures (i >= |labels| || Text.Trim(labels[i]) == "") && i > 0 ==> LabelAt(labels, i)[..9] == "fallback-"
    ensures (i >= |labels| || Text.Trim(labels[i]) == "") && i > 0 ==> Text.ValueOf(LabelAt(labels, i)[9..]) == Some(i)
  {
    if (i >= |labels| || Text.Trim(labels[i]) == "") && i > 0 {
      Text.ValueOfDigits(i);
      assert LabelAt(labels, i) == "fallback-" + Text.Decimal(i);
      assert |"fallback-"| == 9;
    }
  }

  // Default labels tell the runtimes apart.
  lemma {:induction false} DefaultLabelsDiffer(i: nat, j: nat)
    requires i < j
    ensures LabelAt([], i) != LabelAt([], j)
  {
    LabelsTell([], j);
    if i > 0 { LabelsTell([], i); } else { assert LabelAt([], 0)[0] == 'p' && LabelAt([], j)[..9][0] == 'f'; }
  }

  // ----- Which errors are retried -----

  const RETRY_MARKS := ["429", "rate_limit", "rate limit", "context_length_exceeded", "context length",
                        "too many tokens", "model_not_found"]

  ghost predicate OccursAt(s: string, sub: string, i: nat) { i + |sub| <= |s| && s[i..i + |sub|] == sub }

  lemma {:induction false} OccursFirst(s: string, sub: string)
    ensures OccursAt(s, sub, 0) <==> sub <= s
  {
    if |sub| <= |s| { assert s[0..|sub|] == s[..|sub|]; }
  }

  lemma {:induction false} OccursLater(s: string, sub: string, i: nat)
    requires s != []
    ensures OccursAt(s, sub, i + 1) <==> OccursAt(s[1..], sub, i)
  {
    if i + 1 + |sub| <= |s| { assert s[1..][i..i + |sub|] == s[i + 1..i + 1 + |sub|]; }
  }

  lemma {:induction false} ContainsIff(s: string, sub: string)
    ensures Contains(s, sub) <==> exists i: nat :: OccursAt(s, sub, i)
  {
    OccursFirst(s, sub);
    if s != [] {
      ContainsIff(s[1..], sub);
      if i: nat :| OccursAt(s[1..], sub, i) {
        OccursLater(s, sub, i);
      }
      if i: nat :| i > 0 && OccursAt(s, sub, i) {
        OccursLater(s, sub, i - 1);
      }
    }
  }

  // An error is retried exactly when one of the seven marks occurs in it, letter case aside.
  lemma {:induction false} RetryableIff(lower: string -> string, error: string)
    ensures Retryable(lower, error) <==>
            exists k, i: nat | 0 <= k < |RETRY_MARKS| :: OccursAt(lower(error), RETRY_MARKS[k], i)
  {
    forall k | 0 <= k < |RETRY_MARKS|
      ensures Contains(lower(error), RETRY_MARKS[k]) <==> exists i: nat :: OccursAt(lower(error), RETRY_MARKS[k], i)
    {
      ContainsIff(lower(error), RETRY_MARKS[k]);
    }
    assert RETRY_MARKS[0] == "429" && RETRY_MARKS[1] == "rate_limit" && RETRY_MARKS[2] == "rate limit";
    assert RETRY_MARKS[3] == "context_length_exceeded" && RETRY_MARKS[4] == "context length";
    assert RETRY_MARKS[5] == "too many tokens" && RETRY_MARKS[6] == "model_not_found";
  }
}
