// cmd/metiqd/agent_run_orchestrator.go: launchManagedRun and executeAgentRunWithFallbacks,
// with the job registry of cmd/metiqd/runtime_semantics.go that they report to and the
// shutdown gate that cmd/metiqd/main.go closes before it waits for the runs.
//
// Any number of launches, their goroutines, the shutdown and the registry's clean-up
// interleave; the gate is the section under runMu.  A launch is named by its run id.
module ManagedRuns {
  import opened Wrappers
  import opened FallbackLoop
  import Text

  // ----- The job record -----

  datatype Fallback = Fallback(from: string, to: string, reason: string)

  datatype Job = Job(status: string, result: string, err: string, fallback: Option<Fallback>)

  const NEW_JOB := Job("pending", "", "", None)

  // The arguments of jobs.Finish.
  type Verdict = Result<string, string>

  function FinishJob(job: Job, v: Verdict): Job
  {
    match v
    case Ok(text) => job.(status := "ok", result := Text.Trim(text))
    case Err(error) => job.(status := "error", err := Text.Trim(error))
  }

  function FallbackOf(a: Attempt): Fallback
  {
    Fallback(Text.Trim(a.from), Text.Trim(a.to), Text.Trim(a.reason))
  }

  // The three ways out of executeAgentRunWithFallbacks after the turn came back.
  function AttemptVerdict(a: Attempt): Verdict
  {
    if a.err.Some? then Err(a.err.value)
    else if a.result.None? then Err("all runtimes returned nil result")
    else Ok(a.result.value)
  }

  function PanicError(what: string): string { "agent runtime panic: " + what }

  // What a turn amounts to: its answer, its error, or what stands in for one.
  function VerdictOf(turn: Turn): Verdict
  {
    match turn
    case Panicked(what) => Err(PanicError(what))
    case Returned(a) => AttemptVerdict(a)
  }

  // ----- One launch -----

  datatype Phase =
    | Ready                            // the caller is about to launch
    | Invalid(error: string)           // validation failed: the launch returns at once
    | Refused(error: string)           // at the gate
    | Running                          // admitted: in the wait group, goroutine started
    | TurnReturned(attempt: Attempt)
    | FallbackNoted(attempt: Attempt)
    | Unwinding(what: string)          // a panic on its way up
    | Recovered(what: string)          // the deferred function has caught it
    | Ended                            // jobs.Finish called
    | Looked(found: Option<Job>)       // jobs.Get called
    | Finalized                        // finalizer called, wait group still held
    | Over
  {
    predicate Unfinished()
    {
      Ready? || Invalid? || Refused? || Running? || TurnReturned? || FallbackNoted? || Unwinding? || Recovered?
    }

    // Nothing more happens, but for a caller that finishes the job itself.
    predicate Terminal() { Over? || Invalid? }

    // Steps of its own still to come, at most.
    function Left(): nat
    {
      match this
      case Ready => 7
      case Running => 6
      case TurnReturned(_) | Unwinding(_) => 5
      case FallbackNoted(_) | Recovered(_) | Refused(_) => 4
      case Ended => 3
      case Looked(_) => 2
      case Finalized => 1
      case Over | Invalid(_) => 0
    }
  }

  // What the caller of launchManagedRun brings along, how far the launch has got, and what
  // happened on the way.  `again` is a Finish by the caller, after the launch returned an
  // error.
  datatype Launch = Launch(
    begun: bool,
    hasFinalizer: bool,
    finishesErrors: bool,
    phase: Phase,
    refused: Option<string>,
    turn: Option<Turn>,
    fallback: Option<Fallback>,
    finishes: seq<Verdict>,
    received: seq<Option<Job>>,
    expired: bool,
    again: bool)
  {
    predicate InFlight() { refused.None? && !phase.Ready? && !phase.Terminal() }
    predicate Admitted() { refused.None? && !phase.Ready? && !phase.Invalid? }
  }

  function NewLaunch(begun: bool, hasFinalizer: bool, finishesErrors: bool): Launch
  {
    Launch(begun, hasFinalizer, finishesErrors, Ready, None, None, None, [], [], false, false)
  }

  datatype Action =
    | Reject(error: string)
    | Gate
    | EndTurn(turn: Turn)
    | NoteFallback
    | Recover
    | Finish
    | Look
    | Finalize
    | Release
    | CallerFinish
    | Expire

  // The error that launchManagedRun returned, if it did.
  function LaunchError(l: Launch): Option<string> { if l.phase.Invalid? then Some(l.phase.error) else l.refused }

  predicate Can(l: Launch, job: Option<Job>, a: Action)
  {
    match a
    case Reject(_) => l.phase.Ready?
    case Gate => l.phase.Ready?
    case EndTurn(_) => l.phase.Running?
    case NoteFallback => l.phase.TurnReturned? && l.phase.attempt.used
    case Recover => l.phase.Unwinding?
    case Finish =>
      || l.phase.Refused? || l.phase.Recovered? || l.phase.FallbackNoted?
      || (l.phase.TurnReturned? && !l.phase.attempt.used)
    case Look => l.phase.Ended?
    case Finalize => l.phase.Looked?
    case Release => l.phase.Finalized?
    case CallerFinish => LaunchError(l).Some? && l.phase.Terminal() && l.finishesErrors && !l.again
    case Expire => job.Some? && job.value.status != "pending"
  }

  // What jobs.Finish is called with on each way out.
  function FinishArgument(phase: Phase): Verdict
    requires phase.Refused? || phase.Recovered? || phase.FallbackNoted? || phase.TurnReturned?
  {
    if phase.Refused? then Err(phase.error)
    else if phase.Recovered? then Err(PanicError(phase.what))
    else AttemptVerdict(phase.attempt)
  }

  function Update(job: Option<Job>, v: Verdict): Option<Job>
  {
    if job.None? then None else Some(FinishJob(job.value, v))
  }

  // `gate` is the error that the gate answers with, if it does not let launches through.
  function Act(gate: Option<string>, l: Launch, job: Option<Job>, a: Action): (Launch, Option<Job>)
    requires Can(l, job, a)
  {
    match a
    case Reject(error) => (l.(phase := Invalid(error)), job)
    case Gate =>
      (if gate.Some? then l.(phase := Refused(gate.value), refused := gate) else l.(phase := Running), job)
    case EndTurn(turn) =>
      var phase := if turn.Panicked? then Unwinding(turn.what) else TurnReturned(turn.attempt);
      (l.(turn := Some(turn), phase := phase), job)
    case NoteFallback =>
      var noted := Some(FallbackOf(l.phase.attempt));
      (l.(phase := FallbackNoted(l.phase.attempt), fallback := noted),
       if job.None? then None else Some(job.value.(fallback := noted)))
    case Recover => (l.(phase := Recovered(l.phase.what)), job)
    case Finish =>
      var v := FinishArgument(l.phase);
      (l.(phase := Ended, finishes := l.finishes + [v]), Update(job, v))
    case Look => (l.(phase := Looked(job)), job)
    case Finalize =>
      (l.(phase := if l.refused.Some? then Over else Finalized,
          received := l.received + if l.hasFinalizer then [l.phase.found] else []), job)
    case Release => (l.(phase := Over), job)
    case CallerFinish =>
      var v := Err(LaunchError(l).value);
      (l.(finishes := l.finishes + [v], again := true), Update(job, v))
    case Expire => (l.(expired := true), None)
  }

  function Delta(gate: Option<string>, a: Action): int
  {
    if a.Gate? && gate.None? then 1 else if a.Release? then -1 else 0
  }

  // ----- What one launch keeps -----

  // How the launch came out, once it is known.
  function Settled(l: Launch): Verdict
  {
    if LaunchError(l).Some? then Err(LaunchError(l).value)
    else if l.turn.Some? then VerdictOf(l.turn.value)
    else Err("")
  }

  // What the job record should say.
  function RecordOf(l: Launch): Job
  {
    var job := NEW_JOB.(fallback := l.fallback);
    if l.finishes == [] then job else FinishJob(job, l.finishes[0])
  }

  // The phase tells what is known of the launch.
  predicate PhaseFits(l: Launch)
  {
    match l.phase
    case Ready | Invalid(_) | Running => l.refused.None? && l.turn.None?
    case Refused(error) => l.refused == Some(error) && l.turn.None?
    case TurnReturned(a) => l.refused.None? && l.turn == Some(Returned(a))
    case FallbackNoted(a) => l.refused.None? && l.turn == Some(Returned(a)) && a.used
    case Unwinding(what) => l.refused.None? && l.turn == Some(Panicked(what))
    case Recovered(what) => l.refused.None? && l.turn == Some(Panicked(what))
    case Finalized => l.refused.None? && l.turn.Some?
    case _ => l.refused.Some? != l.turn.Some?
  }

  predicate FallbackFits(l: Launch)
  {
    if l.turn.Some? && l.turn.value.Returned? && l.turn.value.attempt.used && !l.phase.TurnReturned?
    then l.fallback == Some(FallbackOf(l.turn.value.attempt)) else l.fallback.None?
  }

  predicate FinishesFit(l: Launch)
  {
    && l.finishes == (if l.phase.Unfinished() then [] else [Settled(l)]) + (if l.again then [Settled(l)] else [])
    && (l.again ==> l.phase.Terminal() && LaunchError(l).Some? && l.finishesErrors)
  }

  // What jobs.Get may have answered.
  predicate FoundFits(l: Launch, found: Option<Job>)
  {
    if found.Some? then l.begun && found.value == RecordOf(l) else !l.begun || l.expired
  }

  predicate ReceivedFits(l: Launch)
  {
    && (l.phase.Looked? ==> FoundFits(l, l.phase.found))
    && (if (l.phase.Finalized? || l.phase.Over?) && l.hasFinalizer
        then |l.received| == 1 && FoundFits(l, l.received[0]) else l.received == [])
  }

  predicate JobFits(l: Launch, job: Option<Job>)
  {
    && (job.Some? <==> l.begun && !l.expired)
    && (job.Some? ==> job.value == RecordOf(l))
    && (l.expired ==> l.finishes != [])
  }

  predicate Fits(l: Launch, job: Option<Job>)
  {
    PhaseFits(l) && FallbackFits(l) && FinishesFit(l) && ReceivedFits(l) && JobFits(l, job)
  }

  lemma {:induction false} FinishTwice(job: Job, v: Verdict)
    ensures FinishJob(FinishJob(job, v), v) == FinishJob(job, v)
  {
  }

  lemma {:induction false} ActKeepsPhase(gate: Option<string>, l: Launch, job: Option<Job>, a: Action)
    requires Can(l, job, a) && Fits(l, job)
    ensures var l' := Act(gate, l, job, a).0; PhaseFits(l') && FallbackFits(l')
  {
  }

  lemma {:induction false} ActKeepsFinishes(gate: Option<string>, l: Launch, job: Option<Job>, a: Action)
    requires Can(l, job, a) && Fits(l, job)
    ensures FinishesFit(Act(gate, l, job, a).0)
  {
  }

  lemma {:induction false} ActKeepsJob(gate: Option<string>, l: Launch, job: Option<Job>, a: Action)
    requires Can(l, job, a) && Fits(l, job)
    ensures var (l', job') := Act(gate, l, job, a); JobFits(l', job')
  {
    if a.CallerFinish? { FinishTwice(NEW_JOB.(fallback := l.fallback), Settled(l)); }
  }

  lemma {:induction false} ActKeepsReceived(gate: Option<string>, l: Launch, job: Option<Job>, a: Action)
    requires Can(l, job, a) && Fits(l, job)
    ensures ReceivedFits(Act(gate, l, job, a).0)
  {
  }

  lemma {:induction false} ActKeepsFits(gate: Option<string>, l: Launch, job: Option<Job>, a: Action)
    requires Can(l, job, a) && Fits(l, job)
    ensures var (l', job') := Act(gate, l, job, a); Fits(l', job')
  {
    ActKeepsPhase(gate, l, job, a);
    ActKeepsFinishes(gate, l, job, a);
    ActKeepsJob(gate, l, job, a);
    ActKeepsReceived(gate, l, job, a);
  }

  // Only passing the gate and releasing the wait group change who is in flight.
  lemma {:induction false} ActMovesInFlight(gate: Option<string>, l: Launch, job: Option<Job>, a: Action)
    requires Can(l, job, a) && Fits(l, job)
    ensures var l' := Act(gate, l, job, a).0;
            && (if a.Gate? && gate.None? then !l.InFlight() && l'.InFlight()
                else if a.Release? then l.InFlight() && !l'.InFlight()
                else l'.InFlight() == l.InFlight())
            && (l'.Admitted() <==> l.Admitted() || (a.Gate? && gate.None?))
  {
  }

  // ----- All launches together -----

  datatype State = State(
    closed: bool,
    cancelled: Option<string>,
    waitGroup: int,
    launches: map<nat, Launch>,
    jobs: map<nat, Job>)

  const INITIAL := State(false, None, 0, map[], map[])

  datatype Step =
    | Register(run: nat, begun: bool, hasFinalizer: bool, finishesErrors: bool)
    | At(run: nat, action: Action)
    | Close
    | Cancel(error: string)

  const CANCELLED := "context canceled"

  function GateOf(s: State): Option<string> { if s.closed then Some(CANCELLED) else s.cancelled }

  function JobOf(s: State, i: nat): Option<Job> { if i in s.jobs then Some(s.jobs[i]) else None }

  function WithJob(jobs: map<nat, Job>, i: nat, job: Option<Job>): map<nat, Job>
  {
    if job.Some? then jobs[i := job.value] else jobs - {i}
  }

  predicate Enabled(s: State, step: Step)
  {
    match step
    case Register(i, _, _, _) => i !in s.launches && i !in s.jobs
    case At(i, a) => i in s.launches && Can(s.launches[i], JobOf(s, i), a)
    case Close => true
    case Cancel(_) => s.cancelled.None?
  }

  function Do(s: State, step: Step): State
  {
    if !Enabled(s, step) then s
    else match step
      case Register(i, begun, hasFinalizer, finishesErrors) =>
        s.(launches := s.launches[i := NewLaunch(begun, hasFinalizer, finishesErrors)],
           jobs := if begun then s.jobs[i := NEW_JOB] else s.jobs)
      case At(i, a) =>
        var (l, job) := Act(GateOf(s), s.launches[i], JobOf(s, i), a);
        s.(launches := s.launches[i := l],
           jobs := WithJob(s.jobs, i, job),
           waitGroup := s.waitGroup + Delta(GateOf(s), a))
      case Close => s.(closed := true)
      case Cancel(error) => s.(cancelled := Some(error))
  }

  function Run(s: State, steps: seq<Step>): State
  {
    if steps == [] then s else Do(Run(s, steps[..|steps| - 1]), steps[|steps| - 1])
  }

  ghost predicate AllFit(s: State)
  {
    s.jobs.Keys <= s.launches.Keys && forall i | i in s.launches :: Fits(s.launches[i], JobOf(s, i))
  }

  ghost function InFlight(s: State): set<nat> { set i | i in s.launches && s.launches[i].InFlight() }

  ghost function EverAdmitted(s: State): set<nat> { set i | i in s.launches && s.launches[i].Admitted() }

  ghost predicate Counted(s: State) { s.waitGroup == |InFlight(s)| }

  // A step at launch i leaves the others alone.
  lemma {:induction false} StepElsewhere(s: State, i: nat, a: Action, j: nat)
    requires Enabled(s, At(i, a)) && j != i
    ensures var t := Do(s, At(i, a));
            && (j in t.launches <==> j in s.launches) && (j in s.launches ==> t.launches[j] == s.launches[j])
            && JobOf(t, j) == JobOf(s, j)
  {
  }

  lemma {:induction false} StepHere(s: State, i: nat, a: Action)
    requires Enabled(s, At(i, a))
    ensures var t := Do(s, At(i, a));
            && t.launches.Keys == s.launches.Keys
            && (t.launches[i], JobOf(t, i)) == Act(GateOf(s), s.launches[i], JobOf(s, i), a)
  {
  }

  lemma {:induction false} ActStepKeepsFit(s: State, i: nat, a: Action)
    requires AllFit(s) && Enabled(s, At(i, a))
    ensures AllFit(Do(s, At(i, a)))
  {
    StepHere(s, i, a);
    ActKeepsFits(GateOf(s), s.launches[i], JobOf(s, i), a);
    var t := Do(s, At(i, a));
    forall j | j in t.launches ensures Fits(t.launches[j], JobOf(t, j)) {
      if j != i { StepElsewhere(s, i, a, j); }
    }
  }

  lemma {:induction false} NewLaunchFits(begun: bool, hasFinalizer: bool, finishesErrors: bool)
    ensures Fits(NewLaunch(begun, hasFinalizer, finishesErrors), if begun then Some(NEW_JOB) else None)
  {
  }

  lemma {:induction false} RegisterKeepsFit(s: State, step: Step)
    requires AllFit(s) && Enabled(s, step) && step.Register?
    ensures AllFit(Do(s, step))
  {
    NewLaunchFits(step.begun, step.hasFinalizer, step.finishesErrors);
    var t, i := Do(s, step), step.run;
    assert t.launches[i] == NewLaunch(step.begun, step.hasFinalizer, step.finishesErrors);
    forall j | j in t.launches ensures Fits(t.launches[j], JobOf(t, j)) {
      assert j != i ==> t.launches[j] == s.launches[j] && JobOf(t, j) == JobOf(s, j);
    }
  }

  lemma {:induction false} StepKeepsFit(s: State, step: Step)
    requires AllFit(s)
    ensures AllFit(Do(s, step))
  {
    if Enabled(s, step) {
      match step
      case At(i, a) => ActStepKeepsFit(s, i, a);
      case Register(_, _, _, _) => RegisterKeepsFit(s, step);
      case _ =>
    }
  }

  lemma {:induction false} StepMovesInFlight(s: State, step: Step)
    requires AllFit(s)
    ensures var t := Do(s, step);
            && InFlight(t) ==
               (if Enabled(s, step) && step.At? && step.action.Gate? && GateOf(s).None? then InFlight(s) + {step.run}
                else if Enabled(s, step) && step.At? && step.action.Release? then InFlight(s) - {step.run}
                else InFlight(s))
            && (Enabled(s, step) && step.At? ==>
                  (step.run in InFlight(s) <==> s.launches[step.run].InFlight()))
  {
    if Enabled(s, step) && step.At? {
      var i, a, t := step.run, step.action, Do(s, step);
      ActMovesInFlight(GateOf(s), s.launches[i], JobOf(s, i), a);
      StepHere(s, i, a);
      forall j ensures j != i ==> (j in InFlight(t) <==> j in InFlight(s)) {
        if j != i { StepElsewhere(s, i, a, j); }
      }
    }
  }

  lemma {:induction false} StepKeepsCount(s: State, step: Step)
    requires AllFit(s) && Counted(s)
    ensures Counted(Do(s, step))
  {
    StepMovesInFlight(s, step);
    if Enabled(s, step) && step.At? {
      ActMovesInFlight(GateOf(s), s.launches[step.run], JobOf(s, step.run), step.action);
    }
  }

  // Over every interleaving: each launch, its job record and what its finalizer was given
  // fit together, and the wait group counts the admitted runs that have not released it.
  lemma {:induction false} RunKeepsInv(steps: seq<Step>)
    ensures AllFit(Run(INITIAL, steps)) && Counted(Run(INITIAL, steps))
  {
    if steps == [] {
      assert InFlight(INITIAL) == {};
    } else {
      var front, last := steps[..|steps| - 1], steps[|steps| - 1];
      RunKeepsInv(front);
      StepKeepsFit(Run(INITIAL, front), last);
      StepKeepsCount(Run(INITIAL, front), last);
    }
  }

  // ----- What that means -----

  // Runtime j answers, and the loop gets that far.
  ghost predicate AnswersAt(retry: string -> bool, rts: Runtimes, j: nat)
  {
    j < |rts| && rts[j].Some? && rts[j].value.Answer? && AllPassedOver(retry, rts, j)
  }

  // With the fallback loop behind it: a run succeeds if and only if some runtime answers
  // and every one before it is nil or fails retryably; and the exit for a nil result is
  // never taken.
  lemma {:induction false} RunSucceedsIff(retry: string -> bool, rts: Runtimes, labels: seq<string>,
                                          guard: string -> string, turn: Turn, called: seq<nat>)
    requires IsOutcome(retry, rts, labels, guard, turn, called)
    ensures VerdictOf(turn).Ok? <==> exists j: nat :: AnswersAt(retry, rts, j)
    ensures turn.Returned? ==> turn.attempt.err.Some? || turn.attempt.result.Some?
  {
    var k: nat :| OutcomeOf(retry, rts, labels, guard, k, turn, called);
    AnswerOrError(retry, rts, labels, guard, turn, called);
    if rts[k].value.Answer? {
      assert AnswersAt(retry, rts, k);
    }
    if j: nat :| AnswersAt(retry, rts, j) {
      OneDecides(retry, rts, j, k);
    }
  }

  // An admitted run that is over has had its one Finish, with what its turn amounts to:
  // the answer, the error, the stand-in for a nil result, or the recovered panic.  The
  // job says "ok" exactly on an answer, as long as it is registered.
  lemma {:induction false} AdmittedRunEnds(steps: seq<Step>, i: nat)
    requires var s := Run(INITIAL, steps); i in s.launches && s.launches[i].Admitted() && s.launches[i].phase.Over?
    ensures var s := Run(INITIAL, steps);
            var l := s.launches[i];
            && l.turn.Some? && l.finishes == [VerdictOf(l.turn.value)]
            && (i in s.jobs ==> s.jobs[i].fallback == l.fallback)
            && (i in s.jobs ==>
                  match VerdictOf(l.turn.value)
                  case Ok(text) =>
                    s.jobs[i].status == "ok" && s.jobs[i].result == Text.Trim(text) && s.jobs[i].err == ""
                  case Err(error) =>
                    s.jobs[i].status == "error" && s.jobs[i].err == Text.Trim(error) && s.jobs[i].result == "")
  {
    RunKeepsInv(steps);
    assert Fits(Run(INITIAL, steps).launches[i], JobOf(Run(INITIAL, steps), i));
  }

  // The record names the runtimes of the fallback that answered, and why, and no fallback
  // otherwise.
  lemma {:induction false} RecordNamesTheFallback(steps: seq<Step>, i: nat)
    requires var s := Run(INITIAL, steps); i in s.launches && s.launches[i].Admitted() && s.launches[i].phase.Over?
    ensures var l := Run(INITIAL, steps).launches[i];
            && l.turn.Some?
            && (l.fallback.Some? <==> l.turn.value.Returned? && l.turn.value.attempt.used)
            && (l.fallback.Some? ==>
                  && l.fallback.value.from == Text.Trim(l.turn.value.attempt.from)
                  && l.fallback.value.to == Text.Trim(l.turn.value.attempt.to)
                  && l.fallback.value.reason == Text.Trim(l.turn.value.attempt.reason))
  {
    RunKeepsInv(steps);
    assert Fits(Run(INITIAL, steps).launches[i], JobOf(Run(INITIAL, steps), i));
  }

  // What each ending is finished with.
  lemma {:induction false} VerdictsOf(a: Attempt, what: string)
    ensures VerdictOf(Panicked(what)) == Err("agent runtime panic: " + what)
    ensures a.err.Some? ==> VerdictOf(Returned(a)) == Err(a.err.value)
    ensures a.err.None? && a.result.Some? ==> VerdictOf(Returned(a)) == Ok(a.result.value)
    ensures a.err.None? && a.result.None? ==> VerdictOf(Returned(a)) == Err("all runtimes returned nil result")
  {
  }

  // A refused launch is finished with the gate's error, and a second time by a caller that
  // finishes on every error; the record is the same.
  lemma {:induction false} RefusedLaunchEnds(steps: seq<Step>, i: nat)
    requires var s := Run(INITIAL, steps); i in s.launches && s.launches[i].refused.Some? && s.launches[i].phase.Over?
    ensures var s := Run(INITIAL, steps);
            var l := s.launches[i];
            var v := Err(l.refused.value);
            && l.finishes == (if l.again then [v, v] else [v]) && (l.again ==> l.finishesErrors)
            && (i in s.jobs ==> s.jobs[i] == Job("error", "", Text.Trim(l.refused.value), None))
  {
    RunKeepsInv(steps);
    assert Fits(Run(INITIAL, steps).launches[i], JobOf(Run(INITIAL, steps), i));
  }

  // A launch that fails validation is left alone: no Finish unless the caller does it, no
  // finalizer, and a job that was begun stays pending until then.
  lemma {:induction false} InvalidLaunchEnds(steps: seq<Step>, i: nat)
    requires i in Run(INITIAL, steps).launches && Run(INITIAL, steps).launches[i].phase.Invalid?
    ensures var s := Run(INITIAL, steps);
            var l := s.launches[i];
            && l.received == [] && (l.again ==> l.finishesErrors)
            && l.finishes == (if l.again then [Err(l.phase.error)] else [])
            && (i in s.jobs ==>
                  s.jobs[i] == if l.again then Job("error", "", Text.Trim(l.phase.error), None) else NEW_JOB)
  {
    RunKeepsInv(steps);
    assert Fits(Run(INITIAL, steps).launches[i], JobOf(Run(INITIAL, steps), i));
  }

  // The finalizer is called at most once, only after Finish, and exactly once when the
  // launch is over, however it ended.
  lemma {:induction false} ExactlyOneFinalizer(steps: seq<Step>, i: nat)
    requires i in Run(INITIAL, steps).launches
    ensures var l := Run(INITIAL, steps).launches[i];
            && |l.received| <= 1 && (l.received != [] ==> l.hasFinalizer && l.finishes != [])
            && (l.phase.Over? ==> |l.received| == if l.hasFinalizer then 1 else 0)
  {
    RunKeepsInv(steps);
    assert Fits(Run(INITIAL, steps).launches[i], JobOf(Run(INITIAL, steps), i));
  }

  // What it is given: the ended record, or nothing, and then only if the caller never began
  // the job or it has expired.
  lemma {:induction false} FinalizerGetsTheRecord(steps: seq<Step>, i: nat)
    requires i in Run(INITIAL, steps).launches && Run(INITIAL, steps).launches[i].received != []
    ensures var s := Run(INITIAL, steps);
            var l, found := s.launches[i], s.launches[i].received[0];
            && (found.Some? ==> found.value == FinishJob(NEW_JOB.(fallback := l.fallback), Settled(l)))
            && (found.None? ==> i !in s.jobs && (!l.begun || l.expired))
            && (!l.begun ==> found.None?)
            && (l.begun && !l.expired ==> found.Some? && JobOf(s, i) == found)
  {
    RunKeepsInv(steps);
    assert Fits(Run(INITIAL, steps).launches[i], JobOf(Run(INITIAL, steps), i));
  }

  // ----- Nothing is left hanging -----

  function NextAction(l: Launch): Action
  {
    match l.phase
    case Ready => Gate
    case Running => EndTurn(Panicked(""))
    case TurnReturned(a) => if a.used then NoteFallback else Finish
    case Unwinding(_) => Recover
    case FallbackNoted(_) | Recovered(_) | Refused(_) => Finish
    case Ended => Look
    case Looked(_) => Finalize
    case _ => Release
  }

  lemma {:induction false} ActAdvances(gate: Option<string>, l: Launch, job: Option<Job>, a: Action)
    requires Can(l, job, a) && !a.CallerFinish? && !a.Expire?
    ensures Act(gate, l, job, a).0.phase.Left() < l.phase.Left()
  {
    var next := Act(gate, l, job, a).0.phase;
    match a
    case Reject(_) => assert l.phase == Ready && next.Invalid?;
    case Gate => assert l.phase == Ready && (next == Running || next.Refused?);
    case EndTurn(_) => assert l.phase == Running && (next.Unwinding? || next.TurnReturned?);
    case NoteFallback => assert l.phase.TurnReturned? && next.FallbackNoted?;
    case Recover => assert l.phase.Unwinding? && next.Recovered?;
    case Finish => assert next == Ended && l.phase.Left() >= 4;
    case Look => assert l.phase == Ended && next.Looked?;
    case Finalize => assert l.phase.Looked? && (next == Over || next == Finalized);
    case Release => assert l.phase == Finalized && next == Over;
    case _ =>
  }

  lemma {:induction false} NextIsPossible(l: Launch, job: Option<Job>)
    requires !l.phase.Terminal()
    ensures var a := NextAction(l); Can(l, job, a) && !a.CallerFinish? && !a.Expire?
  {
  }

  lemma {:induction false} CanGoOn(s: State, i: nat)
    requires i in s.launches && !s.launches[i].phase.Terminal()
    ensures var t := Do(s, At(i, NextAction(s.launches[i])));
            i in t.launches && t.launches[i].phase.Left() < s.launches[i].phase.Left()
  {
    var a := NextAction(s.launches[i]);
    NextIsPossible(s.launches[i], JobOf(s, i));
    ActAdvances(GateOf(s), s.launches[i], JobOf(s, i), a);
    StepHere(s, i, a);
  }

  lemma {:induction false} CanBeOver(s: State, i: nat) returns (more: seq<Step>)
    requires i in s.launches
    ensures |more| <= s.launches[i].phase.Left()
    ensures i in Run(s, more).launches && Run(s, more).launches[i].phase.Terminal()
    decreases s.launches[i].phase.Left()
  {
    more := [];
    if !s.launches[i].phase.Terminal() {
      var step := At(i, NextAction(s.launches[i]));
      CanGoOn(s, i);
      var rest := CanBeOver(Do(s, step), i);
      more := [step] + rest;
      OneMore(s, [], step);
      RunInTwo(s, more, 1);
      assert more[..1] == [step] && more[1..] == rest;
    }
  }

  // From every reachable state, whatever the other launches, the shutdown and the registry
  // have done, a launch is at most seven steps of its own from its end.
  lemma {:induction false} EveryLaunchCanFinish(steps: seq<Step>, i: nat) returns (more: seq<Step>)
    requires i in Run(INITIAL, steps).launches
    ensures |more| <= 7
    ensures i in Run(INITIAL, steps + more).launches && Run(INITIAL, steps + more).launches[i].phase.Terminal()
  {
    more := CanBeOver(Run(INITIAL, steps), i);
    RunInTwo(INITIAL, steps + more, |steps|);
    assert (steps + more)[..|steps|] == steps && (steps + more)[|steps|..] == more;
  }

  // ----- Shutdown -----

  lemma {:induction false} ClosedAdmitsNobody(s: State, step: Step)
    requires s.closed && AllFit(s)
    ensures Do(s, step).closed && EverAdmitted(Do(s, step)) == EverAdmitted(s)
  {
    if Enabled(s, step) && step.At? {
      var i, a, t := step.run, step.action, Do(s, step);
      ActMovesInFlight(GateOf(s), s.launches[i], JobOf(s, i), a);
      StepHere(s, i, a);
      forall j ensures j in EverAdmitted(t) <==> j in EverAdmitted(s) {
        if j != i { StepElsewhere(s, i, a, j); }
      }
    }
  }

  lemma {:induction false} ClosedStaysClosed(s: State, steps: seq<Step>)
    requires s.closed && AllFit(s)
    ensures AllFit(Run(s, steps))
    ensures Run(s, steps).closed && EverAdmitted(Run(s, steps)) == EverAdmitted(s)
  {
    if steps != [] {
      var front, last := steps[..|steps| - 1], steps[|steps| - 1];
      ClosedStaysClosed(s, front);
      ClosedAdmitsNobody(Run(s, front), last);
      StepKeepsFit(Run(s, front), last);
    }
  }

  lemma {:induction false} RunInTwo(s: State, steps: seq<Step>, n: nat)
    requires n <= |steps|
    ensures Run(s, steps) == Run(Run(s, steps[..n]), steps[n..])
    decreases |steps|
  {
    if n == |steps| {
      assert steps[..n] == steps && steps[n..] == [];
    } else {
      var m := |steps| - 1;
      RunInTwo(s, steps[..m], n);
      assert steps[..m][..n] == steps[..n] && steps[..m][n..] == steps[n..][..m - n];
    }
  }

  lemma {:induction false} DrainedStaysDrained(s: State, step: Step)
    requires s.closed && AllFit(s) && InFlight(s) == {}
    ensures InFlight(Do(s, step)) == {}
  {
    StepMovesInFlight(s, step);
  }

  lemma {:induction false} DrainedRun(s: State, steps: seq<Step>)
    requires s.closed && AllFit(s) && InFlight(s) == {}
    ensures InFlight(Run(s, steps)) == {}
  {
    if steps != [] {
      var front, last := steps[..|steps| - 1], steps[|steps| - 1];
      DrainedRun(s, front);
      ClosedStaysClosed(s, front);
      DrainedStaysDrained(Run(s, front), last);
    }
  }

  // Once the gate is closed no run is ever admitted, and once the wait group has drained
  // it stays drained with every admitted run over: shutdown may stop waiting.
  lemma {:induction false} NoRunAfterClose(steps: seq<Step>, n: nat)
    requires n <= |steps| && Run(INITIAL, steps[..n]).closed
    ensures EverAdmitted(Run(INITIAL, steps)) == EverAdmitted(Run(INITIAL, steps[..n]))
    ensures Run(INITIAL, steps[..n]).waitGroup == 0 ==>
              && Run(INITIAL, steps).waitGroup == 0
              && forall i | i in EverAdmitted(Run(INITIAL, steps)) :: Run(INITIAL, steps).launches[i].phase.Over?
  {
    var s, t := Run(INITIAL, steps[..n]), Run(INITIAL, steps);
    RunInTwo(INITIAL, steps, n);
    RunKeepsInv(steps[..n]);
    ClosedStaysClosed(s, steps[n..]);
    if s.waitGroup == 0 {
      DrainedRun(s, steps[n..]);
      RunKeepsInv(steps);
      forall i | i in EverAdmitted(t) ensures t.launches[i].phase.Over? {
        assert i !in InFlight(t);
      }
    }
  }

  lemma {:induction false} OneMore(s: State, steps: seq<Step>, step: Step)
    ensures Run(s, steps + [step]) == Do(Run(s, steps), step)
    ensures [] + [step] == [step]
  {
    assert (steps + [step])[..|steps|] == steps;
  }

  // ----- The program -----

  // One launch before and after its execution.
  ghost predicate Executed(l: Launch, l': Launch, turn: Turn)
  {
    l' == l.(phase := Ended, turn := Some(turn), fallback := l'.fallback, finishes := l.finishes + [VerdictOf(turn)])
  }

  ghost predicate Concluded(l: Launch, l': Launch, v: Verdict)
  {
    l' == l.(phase := Ended, fallback := l'.fallback, finishes := l.finishes + [v])
  }

  // And before and after its finalizer is called.
  ghost predicate Handed(l: Launch, l': Launch, found: Option<Job>)
  {
    l' == l.(phase := if l.refused.Some? then Over else Finalized,
             received := l.received + if l.hasFinalizer then [found] else [])
  }

  // t comes after s in some run.
  ghost predicate Reaches(s: State, t: State) { exists steps :: Run(s, steps) == t }

  lemma {:induction false} ReachesByOne(s: State, step: Step)
    ensures Reaches(s, Do(s, step))
  {
    OneMore(s, [], step);
    assert Run(s, [step]) == Do(s, step);
  }

  lemma {:induction false} ReachesOn(s: State, t: State, u: State)
    requires Reaches(s, t) && Reaches(t, u)
    ensures Reaches(s, u)
  {
    var first :| Run(s, first) == t;
    var second :| Run(t, second) == u;
    var both := first + second;
    RunInTwo(s, both, |first|);
    assert both[..|first|] == first && both[|first|..] == second;
    assert Run(s, both) == u;
  }

  datatype Launched = BadLaunch(error: string) | Rejected | Started

  class RunController {
    var closed: bool
    var cancelled: Option<string>
    var waitGroup: int
    var jobs: map<nat, Job>
    ghost var launches: map<nat, Launch>

    ghost function Now(): State
      reads this
    {
      State(closed, cancelled, waitGroup, launches, jobs)
    }

    constructor ()
      ensures Now() == INITIAL
    {
      closed, cancelled, waitGroup, jobs := false, None, 0, map[];
      launches := map[];
    }

    // jobs.Finish: a run that is not registered is left alone.
    method FinishRun(i: nat, v: Verdict)
      requires i in launches && Can(launches[i], JobOf(Now(), i), Finish) && FinishArgument(launches[i].phase) == v
      modifies this`jobs, this`launches
      ensures Reaches(old(Now()), Now())
      ensures launches == old(launches)[i := old(launches[i]).(
                phase := Ended, finishes := old(launches[i]).finishes + [v])]
      ensures jobs == if i in old(jobs) then old(jobs)[i := FinishJob(old(jobs)[i], v)] else old(jobs)
    {
      ReachesByOne(Now(), At(i, Finish));
      launches := launches[i := launches[i].(phase := Ended, finishes := launches[i].finishes + [v])];
      if i in jobs {
        jobs := jobs[i := FinishJob(jobs[i], v)];
      } else {
        assert jobs - {i} == jobs;
      }
    }

    // jobs.SetFallback
    method SetFallback(i: nat, attempt: Attempt)
      requires i in launches && launches[i].phase == TurnReturned(attempt) && attempt.used
      modifies this`jobs, this`launches
      ensures Reaches(old(Now()), Now())
      ensures launches == old(launches)[i := old(launches[i]).(
                phase := FallbackNoted(attempt), fallback := Some(FallbackOf(attempt)))]
    {
      ReachesByOne(Now(), At(i, NoteFallback));
      launches := launches[i := launches[i].(phase := FallbackNoted(attempt), fallback := Some(FallbackOf(attempt)))];
      if i in jobs {
        jobs := jobs[i := jobs[i].(fallback := Some(FallbackOf(attempt)))];
      } else {
        assert jobs - {i} == jobs;
      }
    }

    // Steps that touch nothing but the launch's own progress.
    ghost method EndsTurn(i: nat, turn: Turn)
      requires i in launches && launches[i].phase == Running
      modifies this`launches
      ensures Reaches(old(Now()), Now())
      ensures launches == old(launches)[i := old(launches[i]).(
                turn := Some(turn),
                phase := if turn.Panicked? then Unwinding(turn.what) else TurnReturned(turn.attempt))]
    {
      ReachesByOne(Now(), At(i, EndTurn(turn)));
      assert WithJob(jobs, i, JobOf(Now(), i)) == jobs;
      var phase := if turn.Panicked? then Unwinding(turn.what) else TurnReturned(turn.attempt);
      launches := launches[i := launches[i].(turn := Some(turn), phase := phase)];
    }

    ghost method Recovers(i: nat)
      requires i in launches && launches[i].phase.Unwinding?
      modifies this`launches
      ensures Reaches(old(Now()), Now())
      ensures launches == old(launches)[i := old(launches[i]).(phase := Recovered(old(launches[i]).phase.what))]
    {
      ReachesByOne(Now(), At(i, Recover));
      assert WithJob(jobs, i, JobOf(Now(), i)) == jobs;
      launches := launches[i := launches[i].(phase := Recovered(launches[i].phase.what))];
    }

    ghost method Looks(i: nat)
      requires i in launches && launches[i].phase == Ended
      modifies this`launches
      ensures Reaches(old(Now()), Now())
      ensures launches == old(launches)[i := old(launches[i]).(phase := Looked(JobOf(Now(), i)))]
    {
      ReachesByOne(Now(), At(i, Look));
      assert WithJob(jobs, i, JobOf(Now(), i)) == jobs;
      launches := launches[i := launches[i].(phase := Looked(JobOf(Now(), i)))];
    }

    // The finalizer is called with what was found.
    ghost method Finalizes(i: nat, found: Option<Job>)
      requires i in launches && launches[i].phase == Looked(found)
      modifies this`launches
      ensures Reaches(old(Now()), Now())
      ensures i in launches && launches == old(launches)[i := launches[i]]
      ensures Handed(old(launches[i]), launches[i], found)
    {
      ReachesByOne(Now(), At(i, Finalize));
      assert WithJob(jobs, i, JobOf(Now(), i)) == jobs;
      launches := launches[i := launches[i].(
        phase := if launches[i].refused.Some? then Over else Finalized,
        received := launches[i].received + if launches[i].hasFinalizer then [found] else [])];
    }

    // runWG.Done
    method Releases(i: nat)
      requires i in launches && launches[i].phase == Finalized
      modifies this`launches, this`waitGroup
      ensures Reaches(old(Now()), Now())
      ensures launches == old(launches)[i := old(launches[i]).(phase := Over)] && waitGroup == old(waitGroup) - 1
    {
      ReachesByOne(Now(), At(i, Release));
      assert WithJob(jobs, i, JobOf(Now(), i)) == jobs;
      launches := launches[i := launches[i].(phase := Over)];
      waitGroup := waitGroup - 1;
    }

    // The launch returns a validation error; nothing is touched.
    ghost method Rejects(i: nat, error: string)
      requires i in launches && launches[i].phase == Ready
      modifies this`launches
      ensures Reaches(old(Now()), Now())
      ensures launches == old(launches)[i := old(launches[i]).(phase := Invalid(error))]
    {
      ReachesByOne(Now(), At(i, Reject(error)));
      assert WithJob(jobs, i, JobOf(Now(), i)) == jobs;
      launches := launches[i := launches[i].(phase := Invalid(error))];
    }

    // The section under runMu.
    method PassGate(i: nat) returns (launchErr: Option<string>)
      requires i in launches && launches[i].phase == Ready
      modifies this`launches, this`waitGroup
      ensures Reaches(old(Now()), Now())
      ensures launchErr == if closed then Some(CANCELLED) else cancelled
      ensures waitGroup == old(waitGroup) + if launchErr.None? then 1 else 0
      ensures launches == old(launches)[i :=
                if launchErr.None? then old(launches[i]).(phase := Running)
                else old(launches[i]).(phase := Refused(launchErr.value), refused := launchErr)]
    {
      ReachesByOne(Now(), At(i, Gate));
      assert WithJob(jobs, i, JobOf(Now(), i)) == jobs;
      launchErr := None;
      if closed {
        launchErr := Some(CANCELLED);
      }
      if launchErr.None? {
        launchErr := cancelled;
      }
      if launchErr.Some? {
        launches := launches[i := launches[i].(phase := Refused(launchErr.value), refused := launchErr)];
        return;
      }
      waitGroup := waitGroup + 1;
      launches := launches[i := launches[i].(phase := Running)];
    }

    // The three exits after the turn came back.
    method FinishAttempt(i: nat, attempt: Attempt)
      requires i in launches && (launches[i].phase == FallbackNoted(attempt) ||
                                 (launches[i].phase == TurnReturned(attempt) && !attempt.used))
      modifies this`jobs, this`launches
      ensures Reaches(old(Now()), Now())
      ensures launches == old(launches)[i := old(launches[i]).(
                phase := Ended, finishes := old(launches[i]).finishes + [VerdictOf(Returned(attempt))])]
    {
      if attempt.err.Some? {
        FinishRun(i, Err(attempt.err.value));
        return;
      }
      if attempt.result.None? {
        FinishRun(i, Err("all runtimes returned nil result"));
        return;
      }
      FinishRun(i, Ok(attempt.result.value));
    }

    // The deferred function.
    method RecoverRun(i: nat, what: string)
      requires i in launches && launches[i].phase == Unwinding(what)
      modifies this`jobs, this`launches
      ensures Reaches(old(Now()), Now())
      ensures i in launches && launches == old(launches)[i := launches[i]]
      ensures Concluded(old(launches[i]), launches[i], Err(PanicError(what)))
    {
      ghost var start := Now();
      Recovers(i);
      ghost var recovered := Now();
      FinishRun(i, Err(PanicError(what)));
      ReachesOn(start, recovered, Now());
    }

    // What follows a turn that came back.
    method ConcludeRun(i: nat, attempt: Attempt)
      requires i in launches && launches[i].phase == TurnReturned(attempt)
      modifies this`jobs, this`launches
      ensures Reaches(old(Now()), Now())
      ensures i in launches && launches == old(launches)[i := launches[i]]
      ensures Concluded(old(launches[i]), launches[i], VerdictOf(Returned(attempt)))
    {
      ghost var start := Now();
      if !attempt.used {
        FinishAttempt(i, attempt);
        return;
      }
      SetFallback(i, attempt);
      ghost var noted := Now();
      FinishAttempt(i, attempt);
      ReachesOn(start, noted, Now());
    }

    // executeAgentRunWithFallbacks: whatever the runtimes do, one Finish, with what the
    // turn amounts to.
    method Execute(i: nat, lower: string -> string, guard: string -> string, primary: Option<Reply>,
                   fallbacks: Runtimes, labels: seq<string>)
      returns (turn: Turn, called: seq<nat>)
      requires i in launches && launches[i].phase == Running
      modifies this`jobs, this`launches
      ensures Reaches(old(Now()), Now())
      ensures primary.Some? ==> IsOutcome(RetryTest(lower), [primary] + fallbacks, labels, guard, turn, called)
      ensures i in launches && launches == old(launches)[i := launches[i]]
      ensures Executed(old(launches[i]), launches[i], turn)
    {
      ghost var start := Now();
      turn, called := RunTurn(lower, guard, primary, fallbacks, labels);
      EndsTurn(i, turn);
      ghost var ended := Now();
      if turn.Panicked? {
        RecoverRun(i, turn.what);
      } else {
        ConcludeRun(i, turn.attempt);
      }
      ReachesOn(start, ended, Now());
    }

    // After Finish, on either path: look the job up and call the finalizer.
    method LookAndFinalize(i: nat) returns (found: Option<Job>)
      requires i in launches && launches[i].phase == Ended
      modifies this`launches
      ensures Reaches(old(Now()), Now()) && found == JobOf(Now(), i)
      ensures i in launches && launches == old(launches)[i := launches[i]]
      ensures Handed(old(launches[i]), launches[i], found)
    {
      ghost var start := Now();
      found := if i in jobs then Some(jobs[i]) else None;
      Looks(i);
      ghost var looked := Now();
      Finalizes(i, found);
      ReachesOn(start, looked, Now());
    }

    // The goroutine: execute, look the job up, call the finalizer, release the wait group.
    method Goroutine(i: nat, lower: string -> string, guard: string -> string, primary: Option<Reply>,
                     fallbacks: Runtimes, labels: seq<string>)
      returns (found: Option<Job>, turn: Turn)
      requires i in launches && launches[i].phase == Running && launches[i].refused.None?
      modifies this`jobs, this`launches, this`waitGroup
      ensures Reaches(old(Now()), Now())
      ensures found == JobOf(Now(), i) && waitGroup == old(waitGroup) - 1
      ensures i in launches && launches[i].phase == Over && launches[i].turn == Some(turn)
      ensures launches[i].finishes == old(launches[i]).finishes + [VerdictOf(turn)]
      ensures launches[i].received == old(launches[i]).received + if launches[i].hasFinalizer then [found] else []
    {
      ghost var start := Now();
      var called;
      turn, called := Execute(i, lower, guard, primary, fallbacks, labels);
      ghost var executed := Now();
      found := LookAndFinalize(i);
      ReachesOn(start, executed, Now());
      ghost var finalized := Now();
      Releases(i);
      ReachesOn(start, finalized, Now());
    }

    // An invalid launch touches nothing; a rejected one has finished its job and called its
    // finalizer when it returns; a started one is counted and left to its goroutine.
    method LaunchManagedRun(i: nat, runID: string, hasRuntime: bool, hasJobs: bool) returns (out: Launched)
      requires i in launches && launches[i].phase == Ready && launches[i].refused.None?
      modifies this`launches, this`jobs, this`waitGroup
      ensures Reaches(old(Now()), Now())
      ensures out.BadLaunch? <==> Text.Trim(runID) == "" || !hasRuntime || !hasJobs
      ensures out.BadLaunch? ==>
                && jobs == old(jobs) && waitGroup == old(waitGroup)
                && launches == old(launches)[i := old(launches[i]).(phase := Invalid(out.error))]
      ensures !out.BadLaunch? ==> (out == Rejected <==> closed || cancelled.Some?)
      ensures i in launches
      ensures out == Started ==> launches[i] == old(launches[i]).(phase := Running) && waitGroup == old(waitGroup) + 1
      ensures out == Rejected ==>
                && launches[i].phase == Over && waitGroup == old(waitGroup) && launches[i].refused == GateOf(Now())
                && launches[i].finishes == old(launches[i]).finishes + [Err(GateOf(Now()).value)]
                && launches[i].received ==
                   old(launches[i]).received + if launches[i].hasFinalizer then [JobOf(Now(), i)] else []
    {
      ghost var start := Now();
      if Text.Trim(runID) == "" || !hasRuntime || !hasJobs {
        var error := if Text.Trim(runID) == "" then "agent run id required"
                     else if !hasRuntime then "agent runtime not configured"
                     else "agent job registry not configured";
        Rejects(i, error);
        return BadLaunch(error);
      }
      var launchErr := PassGate(i);
      if launchErr.None? {
        return Started;
      }
      ghost var refused := Now();
      FinishRun(i, Err(launchErr.value));
      ReachesOn(start, refused, Now());
      ghost var finished := Now();
      var found := LookAndFinalize(i);
      ReachesOn(start, finished, Now());
      out := Rejected;
    }
  }
}
