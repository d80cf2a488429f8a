/**
 * ConditionalFlowJobConfig.conditionalFlowJob: validationStep, then the decider, then
 * one of four steps chosen by the decider's status. The transition table is data; the
 * two tasklets whose exit status matters are functions from their inputs to it.
 */
module ConditionalFlowJobConfig {
  import opened JavaLang
  import opened JobFlowDecider

  datatype StepName =
    | ValidationStep
    | NormalProcessingStep
    | LargeDataProcessingStep
    | ErrorHandlingStep
    | NoDataStep

  datatype ExitStatus = ExitCompleted | ExitFailed

  /** A flow transition: `.on(pattern).to(target)`. */
  datatype Transition = Transition(pattern: string, target: StepName)

  /** The four transitions out of the decider, in declaration order. */
  const DeciderTransitions: seq<Transition> := [
    Transition("HIGH_SKIP_RATE", ErrorHandlingStep),
    Transition("NO_DATA", NoDataStep),
    Transition("LARGE_DATA", LargeDataProcessingStep),
    Transition("COMPLETED", NormalProcessingStep)
  ]

  /** The target of the first transition whose pattern equals the status. */
  function Lookup(ts: seq<Transition>, status: string): Option<StepName>
  {
    if ts == [] then None
    else if ts[0].pattern == status then Some(ts[0].target)
    else Lookup(ts[1..], status)
  }

  /** The step the flow goes to after the decider returns status. */
  function Route(status: FlowExecutionStatus): Option<StepName>
  {
    Lookup(DeciderTransitions, status.Name())
  }

  /** The transitions whose pattern matches status. */
  function Matching(ts: seq<Transition>, status: string): seq<Transition>
  {
    if ts == [] then []
    else (if ts[0].pattern == status then [ts[0]] else []) + Matching(ts[1..], status)
  }

  /** Each of the four statuses is routed to its step. */
  lemma RouteTable()
    ensures Route(HighSkipRate) == Some(ErrorHandlingStep)
    ensures Route(NoData) == Some(NoDataStep)
    ensures Route(LargeData) == Some(LargeDataProcessingStep)
    ensures Route(Completed) == Some(NormalProcessingStep)
  {
  }

  /** Every decider status matches exactly one transition, and so has exactly one target. */
  lemma ExactlyOneTransition(status: FlowExecutionStatus)
    ensures |Matching(DeciderTransitions, status.Name())| == 1
    ensures Route(status) == Some(Matching(DeciderTransitions, status.Name())[0].target)
  {
    var ts := DeciderTransitions;
    assert ts[1..] == [ts[1], ts[2], ts[3]] && ts[1..][1..] == [ts[2], ts[3]] && ts[1..][1..][1..] == [ts[3]];
    assert ts[1..][1..][1..][1..] == [];
  }

  /** Different statuses go to different steps, and none goes back to validation. */
  lemma TargetsDistinct(a: FlowExecutionStatus, b: FlowExecutionStatus)
    ensures Route(a) == Route(b) <==> a == b
    ensures Route(a) != Some(ValidationStep)
  {
  }

  /**
   * validationStep's tasklet: a null or empty inputFile sets FAILED and throws
   * IllegalArgumentException; anything else finishes.
   */
  function ValidationExit(inputFile: Option<string>): (r: ExitStatus)
    ensures r == ExitFailed <==> inputFile.None? || inputFile.value == ""
  {
    if inputFile.None? || |inputFile.value| == 0 then ExitFailed else ExitCompleted
  }

  /** errorHandlingStep's tasklet sets FAILED whatever happened before. */
  function ErrorHandlingExit(): (r: ExitStatus)
    ensures r == ExitFailed
  {
    ExitFailed
  }

  /** The exit status each of the four routed steps ends with. */
  function TargetExit(step: StepName): (r: ExitStatus)
    ensures r == ExitFailed <==> step == ErrorHandlingStep
  {
    if step == ErrorHandlingStep then ErrorHandlingExit() else ExitCompleted
  }

  /** The steps a run visits and the decider's status, if the decider ran. */
  datatype FlowRun = FlowRun(steps: seq<StepName>, decision: Option<FlowExecutionStatus>, lastExit: ExitStatus)

  /**
   * One run of conditionalFlowJob. `.next(decider)` is taken only on a completed
   * validationStep, and the decider sees validationStep's execution, whose counts
   * are a parameter here.
   */
  function RunFlow(inputFile: Option<string>, validationCounts: StepExecution): FlowRun
  {
    if ValidationExit(inputFile) == ExitFailed then FlowRun([ValidationStep], None, ExitFailed)
    else
      var status := Decide(Some(validationCounts));
      var target := if Route(status).Some? then Route(status).value else NormalProcessingStep;
      FlowRun([ValidationStep, target], Some(status), TargetExit(target))
  }

  /** The decider runs only after validationStep, and only when that step completed. */
  lemma DeciderAfterValidation(inputFile: Option<string>, counts: StepExecution)
    ensures var run := RunFlow(inputFile, counts);
      run.steps[0] == ValidationStep &&
      (run.decision.Some? <==> ValidationExit(inputFile) == ExitCompleted) &&
      (run.decision.Some? ==> |run.steps| == 2 && Route(run.decision.value) == Some(run.steps[1])) &&
      (run.decision.None? ==> run.steps == [ValidationStep] && run.lastExit == ExitFailed)
  {
    RouteTable();
  }

  /** Only the high-skip branch ends in FAILED once validation has passed. */
  lemma FailedOnlyOnHighSkipRate(inputFile: Option<string>, counts: StepExecution)
    requires ValidationExit(inputFile) == ExitCompleted
    ensures RunFlow(inputFile, counts).lastExit == ExitFailed <==> Decide(Some(counts)) == HighSkipRate
  {
    RouteTable();
  }

  /**
   * validationStep is a tasklet that reads and skips nothing, so its counts are (0, 0)
   * and a run that passes validation always goes to noDataStep.
   */
  lemma ValidatedRunsEndInNoData(inputFile: Option<string>)
    requires inputFile.Some? && inputFile.value != ""
    ensures RunFlow(inputFile, StepExecution(0, 0)).steps == [ValidationStep, NoDataStep]
    ensures RunFlow(inputFile, StepExecution(0, 0)).decision == Some(NoData)
  {
    RouteTable();
  }
}
