/** What one episode did: every call the runner made, in order, and what such a history must satisfy. */
module Episodes {
  import opened Results

  /** A call returns, raises an ordinary exception, or is interrupted from the keyboard. */
  datatype Outcome<+T> = Done(value: T) | Raised | Interrupted

  datatype Observation = Observation(stepId: string, instruction: string)

  datatype Prediction = Prediction(id: string, stepId: string, horizon: int)

  datatype Request = Request(stepId: string, prediction: string, index: nat)

  datatype StepResult = StepResult(
    next: Option<Observation>, executed: string, terminated: bool, truncated: bool, success: Option<bool>)

  /** The clock readings of one step, in the order they are taken. */
  datatype Reading = LoopStarted | Requested | ApplyStarted | ApplyFinished | LoopFinished

  datatype Event =
    | ResetPolicy(done: Outcome<()>)
    | ResetBenchmark(first: Outcome<Observation>)
    | Predict(seen: Observation, found: Outcome<Prediction>)
    | Step(request: Request, result: Outcome<StepResult>)
    | Tick(reading: Reading, time: Outcome<int>)
    | EndPolicy(ended: Outcome<()>)
    | BenchmarkState(active: Outcome<bool>)
    | AbortBenchmark(aborted: Outcome<()>)
    | Finalize(status: Status, written: Outcome<()>)

  /** The calls so far, the latest outermost. */
  datatype Log = Start | Then(earlier: Log, event: Event)

  /** Receding horizon, open-loop chunks, or replanning every so many steps. */
  datatype Mode = Receding | OpenLoop | Every(interval: nat)

  datatype Plan = Plan(
    mode: Mode, taskMaximum: Option<int>, defaultMaximum: int, recordObservations: bool, instruction: string)
  {

    /** `ActionExecutionPolicy` refuses an interval below one. */
    predicate Valid() {
      mode.Every? ==> mode.interval >= 1
    }

    /** `task.maximum_steps or plan.default_maximum_episode_steps` */
    function MaximumSteps(): int {
      if taskMaximum.Some? && taskMaximum.value != 0 then taskMaximum.value else defaultMaximum
    }
  }

  /** The policy, the benchmark and the clock: anything may depend on everything that happened before. */
  datatype World = World(
    maximumHorizon: int,
    resetPolicy: Log -> Outcome<()>,
    resetBenchmark: Log -> Outcome<Observation>,
    predict: (Log, Observation) -> Outcome<Prediction>,
    step: (Log, Request) -> Outcome<StepResult>,
    tick: (Log, Reading) -> Outcome<int>,
    endPolicy: Log -> Outcome<()>,
    benchmarkActive: Log -> Outcome<bool>,
    abortBenchmark: Log -> Outcome<()>,
    finalize: (Log, Status) -> Outcome<()>)

  datatype Domain = Runner | Policy | Benchmark

  datatype Status = Success | Failure | TimeLimit | PolicyError | BenchmarkError | Aborted

  /** The trace recorded with its status, or an exception that leaves the runner. */
  datatype Ending = Recorded(status: Status) | Escaped

  // ----- reading a history -----

  /** The latest prediction, and the observation it was asked for. */
  function LastPrediction(log: Log): Option<(Observation, Prediction)> {
    match log
    case Start => None
    case Then(_, Predict(seen, Done(p))) => Some((seen, p))
    case Then(earlier, _) => LastPrediction(earlier)
  }

  /** Action requests since the latest prediction. */
  function Since(log: Log): nat {
    match log
    case Start => 0
    case Then(_, Predict(_, Done(_))) => 0
    case Then(earlier, event) => Since(earlier) + if event.Step? then 1 else 0
  }

  function Steps(log: Log): nat {
    if log.Start? then 0 else Steps(log.earlier) + if log.event.Step? then 1 else 0
  }

  function Predictions(log: Log): nat {
    if log.Start? then 0 else Predictions(log.earlier) + if log.event.Predict? && log.event.found.Done? then 1 else 0
  }

  /** Observations in the order the benchmark gave them. */
  function Observed(log: Log): seq<Observation> {
    match log
    case Start => []
    case Then(earlier, ResetBenchmark(Done(o))) => Observed(earlier) + [o]
    case Then(earlier, Step(_, Done(r))) => Observed(earlier) + if r.next.Some? then [r.next.value] else []
    case Then(earlier, _) => Observed(earlier)
  }

  /** How many actions of a chunk may be executed before replanning. */
  function Limit(mode: Mode, horizon: int): int {
    match mode
    case Receding => 1
    case OpenLoop => horizon
    case Every(interval) => interval
  }

  // ----- what every history must satisfy -----

  /** A request executes the next unused action of the latest prediction, within its limit and its horizon. */
  predicate Disciplined(mode: Mode, maximumHorizon: int, log: Log) {
    log.Start? ||
    (&& Disciplined(mode, maximumHorizon, log.earlier)
     && (log.event.Step? ==>
           && LastPrediction(log.earlier).Some?
           && var p := LastPrediction(log.earlier).value.1;
           && log.event.request.prediction == p.id
           && log.event.request.index == Since(log.earlier)
           && log.event.request.index < Limit(mode, p.horizon) <= p.horizon <= maximumHorizon))
  }

  /** One first observation; the policy is asked about the current one, and actions are requested for its step. */
  predicate Current(log: Log) {
    log.Start? ||
    (&& Current(log.earlier)
     && (log.event.ResetBenchmark? ==> Observed(log.earlier) == [])
     && (log.event.Predict? || log.event.Step? ==> Observed(log.earlier) != [])
     && (log.event.Predict? ==> log.event.seen == Latest(log.earlier))
     && (log.event.Step? ==> log.event.request.stepId == Latest(log.earlier).stepId))
  }

  function Latest(log: Log): Observation
    requires Observed(log) != []
  {
    Observed(log)[|Observed(log)| - 1]
  }

  /** Every call is answered by the policy, the benchmark, the clock or the recorder, given what happened before it. */
  predicate Answers(world: World, log: Log) {
    log.Start? || (Answers(world, log.earlier) && Answered(world, log.earlier, log.event))
  }

  predicate Answered(world: World, log: Log, event: Event) {
    match event
    case ResetPolicy(o) => o == world.resetPolicy(log)
    case ResetBenchmark(o) => o == world.resetBenchmark(log)
    case Predict(seen, o) => o == world.predict(log, seen)
    case Step(request, o) => o == world.step(log, request)
    case Tick(reading, o) => o == world.tick(log, reading)
    case EndPolicy(o) => o == world.endPolicy(log)
    case BenchmarkState(o) => o == world.benchmarkActive(log)
    case AbortBenchmark(o) => o == world.abortBenchmark(log)
    case Finalize(status, o) => o == world.finalize(log, status)
  }

  // ----- when the policy is asked again -----

  /** `pending_step_instruction`: the latest recorded observation of that step, or the initial instruction. */
  function InstructionFor(observations: seq<Observation>, stepId: string, initial: string): string
    decreases |observations|
  {
    if observations == [] then initial
    else
      var last := observations[|observations| - 1];
      if last.stepId == stepId then last.instruction
      else InstructionFor(observations[..|observations| - 1], stepId, initial)
  }

  function Recorded(plan: Plan, log: Log): seq<Observation> {
    if plan.recordObservations then Observed(log) else []
  }

  /** The instruction that the current one is compared with when a prediction is kept or discarded. */
  function Compared(plan: Plan, log: Log): string
    requires LastPrediction(log).Some?
  {
    InstructionFor(Recorded(plan, log), LastPrediction(log).value.1.stepId, plan.instruction)
  }

  /** There is no prediction yet, or the latest has been executed from and is used up or overtaken by an instruction. */
  predicate Needed(plan: Plan, log: Log)
    requires Observed(log) != []
  {
    LastPrediction(log).None?
    || (Since(log) > 0
        && (Since(log) >= Owed(plan.mode, log) || Latest(log).instruction != Compared(plan, log)))
  }

  /** The policy is asked exactly when it is needed; its first action is requested right away, for a step it names. */
  predicate Replans(plan: Plan, log: Log) {
    log.Start? ||
    (&& Replans(plan, log.earlier)
     && (log.event.Predict? || log.event.Step? ==> Observed(log.earlier) != [])
     && (log.event.Predict? ==> Needed(plan, log.earlier))
     && (log.event.Step? ==>
           && !Needed(plan, log.earlier) && Names(Observed(log.earlier), LastPrediction(log.earlier).value.1.stepId)
           && (Since(log.earlier) == 0 ==> LastPrediction(log.earlier).value.0 == Latest(log.earlier))))
  }

  /** Each prediction executed beyond its first action was asked under the instruction it is compared with. */
  predicate Truthful(plan: Plan, log: Log) {
    log.Start? ||
    (&& Truthful(plan, log.earlier)
     && (log.event.Step? && log.event.request.index > 0 ==>
           && LastPrediction(log.earlier).Some?
           && LastPrediction(log.earlier).value.0.instruction == Compared(plan, log.earlier)))
  }

  /** The same with nothing recorded: it was asked under the initial instruction. */
  predicate AskedInitially(initial: string, log: Log) {
    log.Start? ||
    (&& AskedInitially(initial, log.earlier)
     && (log.event.Step? && log.event.request.index > 0 ==>
           && LastPrediction(log.earlier).Some?
           && LastPrediction(log.earlier).value.0.instruction == initial))
  }

  /** Every request is made while the current instruction is the one its prediction was asked under. */
  predicate Fresh(log: Log) {
    log.Start? ||
    (&& Fresh(log.earlier)
     && (log.event.Step? ==>
           && LastPrediction(log.earlier).Some? && Observed(log.earlier) != []
           && var seen := Observed(log.earlier);
           && LastPrediction(log.earlier).value.0.instruction == seen[|seen| - 1].instruction))
  }

  /** Predictions name the step of the observation they were asked for. */
  predicate Echoes(log: Log) {
    log.Start? ||
    (Echoes(log.earlier)
     && (log.event.Predict? && log.event.found.Done? ==> log.event.found.value.stepId == log.event.seen.stepId))
  }

  predicate DistinctSteps(observed: seq<Observation>) {
    forall i, j :: 0 <= i < j < |observed| ==> observed[i].stepId != observed[j].stepId
  }

  /** The instruction never changes. */
  predicate Steady(instruction: string, observed: seq<Observation>) {
    forall i :: 0 <= i < |observed| ==> observed[i].instruction == instruction
  }

  /** The actions the predictions before the latest were good for. */
  function Spent(mode: Mode, log: Log): int {
    match log
    case Start => 0
    case Then(earlier, Predict(_, Done(_))) => Spent(mode, earlier) + Owed(mode, earlier)
    case Then(earlier, _) => Spent(mode, earlier)
  }

  function Owed(mode: Mode, log: Log): int {
    if LastPrediction(log).Some? then Limit(mode, LastPrediction(log).value.1.horizon) else 0
  }

  /** Whose fault a failure right after this history is. */
  function Blame(log: Log): Domain {
    match log
    case Start => Runner
    case Then(_, ResetPolicy(done)) => if done.Done? then Benchmark else Policy
    case Then(_, ResetBenchmark(_)) => Benchmark
    case Then(_, Predict(_, found)) => if found.Done? then Runner else Policy
    case Then(_, Step(_, result)) => if result.Done? then Runner else Benchmark
    case Then(_, Tick(ApplyStarted, _)) => Benchmark
    case Then(_, Tick(ApplyFinished, _)) => Benchmark
    case Then(earlier, Tick(LoopStarted, _)) => Blame(earlier)
    case Then(_, _) => Runner
  }

  predicate IsCleanup(event: Event) {
    event.EndPolicy? || event.BenchmarkState? || event.AbortBenchmark? || event.Finalize?
  }

  /** The history without the calls made on the way out. */
  function Body(log: Log): Log {
    if log.Then? && IsCleanup(log.event) then Body(log.earlier) else log
  }

  predicate WasInterrupted(event: Event) {
    match event
    case ResetPolicy(o) => o.Interrupted?
    case ResetBenchmark(o) => o.Interrupted?
    case Predict(_, o) => o.Interrupted?
    case Step(_, o) => o.Interrupted?
    case Tick(_, o) => o.Interrupted?
    case EndPolicy(o) => o.Interrupted?
    case BenchmarkState(o) => o.Interrupted?
    case AbortBenchmark(o) => o.Interrupted?
    case Finalize(_, o) => o.Interrupted?
  }

  predicate WasRaised(event: Event) {
    match event
    case ResetPolicy(o) => o.Raised?
    case ResetBenchmark(o) => o.Raised?
    case Predict(_, o) => o.Raised?
    case Step(_, o) => o.Raised?
    case Tick(_, o) => o.Raised?
    case EndPolicy(o) => o.Raised?
    case BenchmarkState(o) => o.Raised?
    case AbortBenchmark(o) => o.Raised?
    case Finalize(_, o) => o.Raised?
  }

  predicate HasInterrupt(log: Log) {
    log.Then? && (WasInterrupted(log.event) || HasInterrupt(log.earlier))
  }

  // ----- the policy's and the benchmark's own lifecycles -----

  /** `end_episode` calls. */
  function Ends(log: Log): nat {
    if log.Start? then 0 else Ends(log.earlier) + if log.event.EndPolicy? then 1 else 0
  }

  predicate PolicyStarted(log: Log) {
    !log.Start? && ((log.event.ResetPolicy? && log.event.done.Done?) || PolicyStarted(log.earlier))
  }

  predicate PolicyEnded(log: Log) {
    !log.Start? && ((log.event.EndPolicy? && log.event.ended.Done?) || PolicyEnded(log.earlier))
  }

  /** The policy is ended only while it is in an episode: after its reset, and never again once ending has worked. */
  predicate EndsActive(log: Log) {
    log.Start? ||
    (EndsActive(log.earlier) && (log.event.EndPolicy? ==> PolicyStarted(log.earlier) && !PolicyEnded(log.earlier)))
  }

  /** The benchmark is only ever aborted right after it said it was in an episode. */
  predicate AbortsActive(log: Log) {
    log.Start? ||
    (AbortsActive(log.earlier)
     && (log.event.AbortBenchmark? ==> log.earlier.Then? && log.earlier.event == BenchmarkState(Done(true))))
  }

  /** The latest step's result, if it returned one. */
  function LastResult(log: Log): Option<StepResult> {
    match log
    case Start => None
    case Then(_, Step(_, result)) => if result.Done? then Some(result.value) else None
    case Then(earlier, _) => LastResult(earlier)
  }

  /** The latest step, if any returned, neither terminated nor truncated the episode. */
  predicate GoesOn(log: Log) {
    LastResult(log).Some? ==> !LastResult(log).value.terminated && !LastResult(log).value.truncated
  }

  /** After a step with either flag nothing is predicted or requested any more. */
  predicate StopsAtFlags(log: Log) {
    log.Start? || (StopsAtFlags(log.earlier) && (log.event.Predict? || log.event.Step? ==> GoesOn(log.earlier)))
  }

  /** How a normally ended episode is judged, by the flags of its last step. */
  predicate Judged(status: Status, last: StepResult) {
    && (last.terminated || last.truncated)
    && (status == Success <==> last.success == Some(true))
    && (status == TimeLimit <==> last.success != Some(true) && last.truncated)
    && (status == Failure <==> last.success != Some(true) && last.terminated && !last.truncated)
  }

  predicate Terminal(result: StepResult) {
    result.terminated || result.truncated
  }

  function TerminalStatus(result: StepResult): Status {
    if result.success == Some(true) then Success else if result.truncated then TimeLimit else Failure
  }

  // ----- why an episode may fail -----

  function PredictionIds(log: Log): set<string> {
    if log.Start? then {}
    else PredictionIds(log.earlier)
         + if log.event.Predict? && log.event.found.Done? then {log.event.found.value.id} else {}
  }

  predicate Names(observed: seq<Observation>, stepId: string) {
    exists i :: 0 <= i < |observed| && observed[i].stepId == stepId
  }

  /** When the latest pass of the loop began. */
  function StartedAt(log: Log): Option<int> {
    match log
    case Start => None
    case Then(_, Tick(LoopStarted, Done(t))) => Some(t)
    case Then(earlier, _) => StartedAt(earlier)
  }

  /** Ending the policy's episode or writing the trace raised. */
  predicate Botched(log: Log) {
    log.Then?
    && ((log.event.EndPolicy? && log.event.ended.Raised?) || (log.event.Finalize? && log.event.written.Raised?)
        || Botched(log.earlier))
  }

  /** A prediction the runner refuses: of an unknown step, of a forbidden horizon, or too short for the interval. */
  predicate Refused(mode: Mode, maximumHorizon: int, observed: seq<Observation>, p: Prediction) {
    || !Names(observed, p.stepId) || p.horizon < 1 || p.horizon > maximumHorizon
    || (mode.Every? && mode.interval > p.horizon)
  }

  /** A step whose result the runner refuses, or after which the episode should have ended and did not. */
  predicate Unsettled(most: int, log: Log, finished: int, result: StepResult) {
    || (StartedAt(log).Some? && finished < StartedAt(log).value)
    || result.executed !in PredictionIds(log) || !DistinctSteps(Observed(log))
    || (!Terminal(result) && (result.next.None? || Steps(log) >= most))
  }

  /** What an episode of at most `most` steps has to show for it when it failed. */
  predicate Reason(mode: Mode, most: int, maximumHorizon: int, log: Log) {
    match Body(log)
    case Start => false
    case Then(earlier, event) =>
      || WasRaised(event)
      || (event.ResetBenchmark? && most <= 0)
      || (event.Predict? && event.found.Done? && Refused(mode, maximumHorizon, Observed(earlier), event.found.value))
      || (event.Tick? && event.reading == LoopFinished && event.time.Done? && LastResult(earlier).Some?
          && (Unsettled(most, Body(log), event.time.value, LastResult(earlier).value)
              || (Terminal(LastResult(earlier).value) && Botched(log))))
  }
}
