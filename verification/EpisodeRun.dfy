/** `execute_episode`: the runner's loop over an arbitrary policy, benchmark and clock. */
module EpisodeRun {
  import opened Results
  import opened Episodes
  import opened Replanning

  /** How a part of the try block is left. */
  datatype Exit = Continue | Concluded(status: Status) | Failed | Stopped

  function Left<T>(outcome: Outcome<T>): Exit {
    match outcome
    case Done(_) => Continue
    case Raised => Failed
    case Interrupted => Stopped
  }

  /** Nothing has been observed, predicted or executed. */
  predicate Untouched(mode: Mode, log: Log) {
    && Steps(log) == 0 && Observed(log) == [] && LastPrediction(log).None? && Since(log) == 0 && Spent(mode, log) == 0
    && PredictionIds(log) == {} && LastResult(log).None?
  }

  /** What every history satisfies, however it goes on. */
  predicate Lawful(plan: Plan, world: World, log: Log) {
    && Disciplined(plan.mode, world.maximumHorizon, log) && Current(log) && EndsActive(log) && AbortsActive(log)
    && Replans(plan, log) && Answers(world, log) && StopsAtFlags(log)
  }

  /** Any call but an action request, an end or an abort is always allowed. */
  lemma LawfulGrows(plan: Plan, world: World, log: Log, event: Event)
    requires Lawful(plan, world, log) && Answered(world, log, event)
    requires !event.Step? && !event.EndPolicy? && !event.AbortBenchmark?
    requires event.ResetBenchmark? ==> Observed(log) == []
    requires event.Predict? ==> Observed(log) != [] && event.seen == Latest(log) && Needed(plan, log) && GoesOn(log)
    ensures Lawful(plan, world, Then(log, event))
  {
  }

  /** Two histories that tell the same about predictions, steps and observations. */
  predicate SameView(mode: Mode, a: Log, b: Log) {
    && LastPrediction(a) == LastPrediction(b) && Since(a) == Since(b) && Steps(a) == Steps(b)
    && Observed(a) == Observed(b) && Spent(mode, a) == Spent(mode, b) && LastResult(a) == LastResult(b)
    && PredictionIds(a) == PredictionIds(b)
  }

  function Given(result: StepResult): seq<Observation> {
    if result.next.Some? then [result.next.value] else []
  }

  /** An action request that follows the discipline and is made with a prediction that still stands. */
  lemma LawfulStep(plan: Plan, world: World, log: Log, request: Request, result: Outcome<StepResult>)
    requires Lawful(plan, world, log) && LastPrediction(log).Some? && Observed(log) != [] && GoesOn(log)
    requires var p := LastPrediction(log).value.1;
             && request.stepId == Latest(log).stepId && request.prediction == p.id && request.index == Since(log)
             && request.index < Limit(plan.mode, p.horizon) <= p.horizon <= world.maximumHorizon
             && !Needed(plan, log) && Names(Observed(log), p.stepId)
    requires Since(log) == 0 ==> LastPrediction(log).value.0 == Latest(log)
    requires result == world.step(log, request)
    ensures Lawful(plan, world, Then(log, Step(request, result)))
  {
  }

  lemma LawfulEnd(plan: Plan, world: World, log: Log, event: Event)
    requires Lawful(plan, world, log) && Answered(world, log, event)
    requires event.EndPolicy? && PolicyStarted(log) && !PolicyEnded(log)
    ensures Lawful(plan, world, Then(log, event))
  {
  }

  /** Calls made on the way out change nothing the history says about the episode proper. */
  predicate Cleaned(a: Log, b: Log) {
    && Body(a) == Body(b) && Steps(a) == Steps(b) && LastResult(a) == LastResult(b)
    && PolicyStarted(a) == PolicyStarted(b) && (Botched(a) ==> Botched(b))
  }

  /** A step has returned and its pass of the loop is timed. */
  predicate Finished(log: Log, result: StepResult) {
    && log.Then? && log.event.Tick? && log.event.reading == LoopFinished && log.event.time.Done?
    && LastResult(log.earlier) == Some(result) && LastResult(log) == Some(result)
  }

  predicate Written(log: Log, status: Status) {
    log.Then? && log.event.Finalize? && log.event.status == status && log.event.written.Done?
  }

  function StepIds(observed: seq<Observation>): (ids: seq<string>)
    ensures |ids| == |observed| && forall i :: 0 <= i < |ids| ==> ids[i] == observed[i].stepId
  {
    seq(|observed|, i requires 0 <= i < |observed| => observed[i].stepId)
  }

  lemma NamesIds(observed: seq<Observation>, id: string)
    ensures id in StepIds(observed) <==> Names(observed, id)
  {
    if Names(observed, id) {
      var i :| 0 <= i < |observed| && observed[i].stepId == id;
      assert StepIds(observed)[i] == id;
    }
  }

  /** Steps executed so far are those of observations before the current one. */
  predicate Ran(executed: set<string>, observed: seq<Observation>) {
    forall id :: id in executed ==> exists j :: 0 <= j < |observed| - 1 && observed[j].stepId == id
  }

  class Episode {
    const plan: Plan
    const world: World
    var log: Log

    // EpisodeRecorder
    var contexts: seq<string>
    var observations: seq<Observation>
    var predictions: set<string>
    var executed: set<string>

    // locals of execute_episode
    var policyActive: bool
    var failureDomain: Domain
    var observation: Observation
    var pending: Option<Prediction>
    var chunkIndex: nat
    var executionLimit: int
    var stepIndex: nat

    constructor (plan: Plan, world: World)
      ensures this.plan == plan && this.world == world && log == Start
      ensures contexts == [] && observations == [] && predictions == {} && executed == {} && !policyActive
      ensures pending.None? && stepIndex == 0
    {
      this.plan, this.world, log := plan, world, Start;
      contexts, observations, predictions, executed := [], [], {}, {};
      policyActive, failureDomain, observation := false, Runner, Observation("", "");
      pending, chunkIndex, executionLimit, stepIndex := None, 0, 0, 0;
    }

    /** What holds throughout the try block. */
    predicate Safe()
      reads this`log, this`policyActive
    {
      && Lawful(plan, world, log) && Ends(log) == 0 && !PolicyEnded(log)
      && policyActive == PolicyStarted(log)
    }

    /** How the try block is left by an exception: blamed on a domain, or by the keyboard. */
    predicate LeftBy(exit: Exit)
      reads this`log, this`policyActive, this`failureDomain
    {
      && Lawful(plan, world, log) && Ends(log) <= 1
      && (policyActive <==> PolicyStarted(log) && !PolicyEnded(log)) && (PolicyEnded(log) ==> Ends(log) == 1)
      && (Ends(log) == 1 ==> PolicyStarted(log))
      && (exit.Failed? ==>
            && !HasInterrupt(log) && failureDomain == Blame(Body(log))
            && Reason(plan.mode, plan.MaximumSteps(), world.maximumHorizon, log))
      && (exit.Stopped? ==> HasInterrupt(log))
      && (exit.Failed? || exit.Stopped?)
    }

    /** The recorder and the current observation, against the history. */
    predicate Recording()
      reads this`log, this`policyActive, this`observation, this`observations
      reads this`contexts, this`predictions, this`executed
    {
      && policyActive && Observed(log) != [] && observation == Observed(log)[|Observed(log)| - 1]
      && observations == (if plan.recordObservations then Observed(log) else [])
      && Ledger(Observed(log))
    }

    /** The recorder's step contexts, predictions and executed actions. */
    predicate Ledger(observed: seq<Observation>)
      reads this`log, this`contexts, this`predictions, this`executed
    {
      contexts == StepIds(observed) && predictions == PredictionIds(log) && Ran(executed, observed)
    }

    /** The prediction being executed is the latest, it still stands, and what is left of it is known. */
    predicate Executing()
      reads this`log, this`pending, this`chunkIndex, this`executionLimit, this`failureDomain, this`observation
    {
      && pending.Some? && LastPrediction(log).Some? && LastPrediction(log).value.1 == pending.value
      && chunkIndex == Since(log) && executionLimit == Limit(plan.mode, pending.value.horizon)
      && chunkIndex <= executionLimit && 1 <= executionLimit <= pending.value.horizon <= world.maximumHorizon
      && failureDomain == Runner && Names(Observed(log), pending.value.stepId)
      && (chunkIndex == 0 ==> LastPrediction(log).value.0 == observation)
      && (chunkIndex > 0 ==> observation.instruction == Compared(plan, log))
    }

    /** The loop invariant. */
    predicate Between()
      reads this
    {
      && Safe() && Body(log) == log && !HasInterrupt(log) && failureDomain == Blame(log)
      && Recording() && stepIndex == Steps(log) && (pending.Some? ==> Executing())
      && (pending.None? ==> Needed(plan, log)) && GoesOn(log)
    }

    /** Reset the policy. */
    method Prepare() returns (exit: Exit)
      requires log == Start && !policyActive
      modifies this`log, this`policyActive, this`failureDomain
      ensures Untouched(plan.mode, log)
      ensures exit.Continue? ==> Safe() && policyActive && !HasInterrupt(log) && Body(log) == log
      ensures !exit.Continue? ==> LeftBy(exit)
    {
      assert Untouched(plan.mode, log) && Safe() && !HasInterrupt(log);
      failureDomain := Policy;
      var reset := world.resetPolicy(log);
      LawfulGrows(plan, world, log, ResetPolicy(reset));
      log := Then(log, ResetPolicy(reset));
      policyActive := reset.Done?;
      return Left(reset);
    }

    /** Reset the benchmark, and record the first observation. */
    method Begin() returns (exit: Exit)
      requires Safe() && policyActive && !HasInterrupt(log) && Untouched(plan.mode, log) && Body(log) == log
      requires contexts == [] && observations == [] && predictions == {} && executed == {}
      requires pending.None? && stepIndex == 0
      modifies this`log, this`failureDomain, this`observation, this`contexts, this`observations
      ensures exit.Continue? ==> Between() && log.event.ResetBenchmark?
      ensures !exit.Continue? ==> LeftBy(exit) && Steps(log) == 0
    {
      failureDomain := Benchmark;
      var first := world.resetBenchmark(log);
      LawfulGrows(plan, world, log, ResetBenchmark(first));
      log := Then(log, ResetBenchmark(first));
      if !first.Done? {
        return Left(first);
      }
      observation := first.value;
      Record(first.value);
      return Continue;
    }

    /** Reset the policy, then the benchmark. */
    method Reset() returns (exit: Exit)
      requires log == Start && contexts == [] && observations == [] && predictions == {} && executed == {}
      requires !policyActive && pending.None? && stepIndex == 0
      modifies this
      ensures exit.Continue? ==> Between() && stepIndex == 0 && log.event.ResetBenchmark?
      ensures !exit.Continue? ==> LeftBy(exit) && Steps(log) == 0
    {
      exit := Prepare();
      if exit.Continue? {
        exit := Begin();
      }
    }

    /** `record_observation` */
    method Record(seen: Observation)
      modifies this`contexts, this`observations
      ensures contexts == old(contexts) + [seen.stepId]
      ensures observations == old(observations) + if plan.recordObservations then [seen] else []
    {
      contexts := contexts + [seen.stepId];
      if plan.recordObservations {
        observations := observations + [seen];
      }
    }

    /** Read the clock: nothing is learnt about the episode, but reading may fail. */
    method Read(reading: Reading) returns (time: Outcome<int>)
      requires Safe() && !HasInterrupt(log)
      modifies this`log
      ensures log == Then(old(log), Tick(reading, time)) && SameView(plan.mode, old(log), log) && Safe()
      ensures Body(log) == log && (HasInterrupt(log) <==> time.Interrupted?)
      ensures StartedAt(log) == if reading == LoopStarted && time.Done? then Some(time.value) else old(StartedAt(log))
    {
      time := world.tick(log, reading);
      LawfulGrows(plan, world, log, Tick(reading, time));
      log := Then(log, Tick(reading, time));
    }

    /** Check a prediction against the recorder and the policy's horizon, and decide how much of it to execute. */
    method Accept(found: Prediction, ghost observed: seq<Observation>) returns (ok: bool)
      requires plan.Valid() && contexts == StepIds(observed)
      modifies this`predictions, this`executionLimit, this`chunkIndex
      ensures ok ==> chunkIndex == 0 && executionLimit == Limit(plan.mode, found.horizon)
      ensures ok ==> 1 <= executionLimit <= found.horizon <= world.maximumHorizon
      ensures ok ==> predictions == old(predictions) + {found.id} && Names(observed, found.stepId)
      ensures !ok ==> Refused(plan.mode, world.maximumHorizon, observed, found)
    {
      NamesIds(observed, found.stepId);
      if found.stepId !in contexts {
        return false;
      }
      predictions := predictions + {found.id};
      if found.horizon < 1 || found.horizon > world.maximumHorizon {
        return false;
      }
      match plan.mode {
        case Receding => executionLimit := 1;
        case OpenLoop => executionLimit := found.horizon;
        case Every(interval) =>
          if interval > found.horizon {
            return false;
          }
          executionLimit := interval;
      }
      chunkIndex := 0;
      return true;
    }

    /** The policy has just answered for the current observation, and nothing is decided about its answer. */
    predicate Answering(found: Prediction)
      reads this
    {
      && Safe() && log.Then? && log.event == Predict(observation, Done(found)) && failureDomain == Runner
      && !HasInterrupt(log) && Observed(log) != [] && observation == Observed(log)[|Observed(log)| - 1]
      && policyActive && observations == (if plan.recordObservations then Observed(log) else [])
      && contexts == StepIds(Observed(log)) && Ran(executed, Observed(log))
      && predictions == PredictionIds(log.earlier) && stepIndex == Steps(log) && GoesOn(log)
    }

    /** Ask the policy for the actions of the current observation. */
    method Ask() returns (exit: Exit, found: Prediction)
      requires Between() && Needed(plan, log)
      modifies this`log, this`failureDomain
      ensures exit.Continue? ==> Answering(found) && StartedAt(log) == old(StartedAt(log))
      ensures Steps(log) == old(Steps(log))
      ensures !exit.Continue? ==> LeftBy(exit)
    {
      failureDomain := Policy;
      var predicted := world.predict(log, observation);
      LawfulGrows(plan, world, log, Predict(observation, predicted));
      log := Then(log, Predict(observation, predicted));
      if !predicted.Done? {
        return Left(predicted), Prediction("", "", 0);
      }
      failureDomain := Runner;
      return Continue, predicted.value;
    }

    /** Take the answer on if it is acceptable. */
    method Take(found: Prediction) returns (exit: Exit)
      requires plan.Valid() && Answering(found)
      modifies this`predictions, this`executionLimit, this`chunkIndex, this`pending
      ensures exit.Continue? ==> Between() && pending.Some? && chunkIndex < executionLimit
      ensures !exit.Continue? ==> LeftBy(exit)
    {
      pending := Some(found);
      var accepted := Accept(found, Observed(log));
      if !accepted {
        return Failed;
      }
      return Continue;
    }

    /** Predict, and take the answer on if it is acceptable. */
    method Replan() returns (exit: Exit)
      requires plan.Valid() && Between() && (pending.None? || chunkIndex >= executionLimit)
      modifies this
      ensures exit.Continue? ==> Between() && pending.Some? && chunkIndex < executionLimit
      ensures stepIndex == old(stepIndex)
      ensures !exit.Continue? ==> LeftBy(exit) && Steps(log) == old(Steps(log))
      ensures exit.Continue? ==> StartedAt(log) == old(StartedAt(log))
    {
      var found: Prediction;
      exit, found := Ask();
      if exit.Continue? {
        exit := Take(found);
      }
    }

    /** One more request than before has returned, and nothing else about the episode has changed. */
    twostate predicate Stepped(result: StepResult)
      reads this`log, this`policyActive
    {
      && Safe() && Body(log) == log && !HasInterrupt(log)
      && log.Then? && log.event.Step? && log.event.result == Done(result)
      && Steps(log) == old(Steps(log)) + 1 && Since(log) == old(Since(log)) + 1
      && LastPrediction(log) == old(LastPrediction(log)) && Spent(plan.mode, log) == old(Spent(plan.mode, log))
      && Observed(log) == old(Observed(log)) + Given(result)
      && PredictionIds(log) == old(PredictionIds(log)) && StartedAt(log) == old(StartedAt(log))
    }

    /** Read the clock twice before the benchmark is asked. */
    method Announce() returns (exit: Exit)
      requires Between() && pending.Some?
      modifies this`log, this`failureDomain
      ensures SameView(plan.mode, old(log), log) && StartedAt(log) == old(StartedAt(log))
      ensures exit.Continue? ==> Safe() && !HasInterrupt(log) && failureDomain == Benchmark
      ensures !exit.Continue? ==> LeftBy(exit)
    {
      var requested := Read(Requested);
      if !requested.Done? {
        return Left(requested);
      }
      failureDomain := Benchmark;
      var applying := Read(ApplyStarted);
      return Left(applying);
    }

    /** Request the next action of the chunk. */
    method Apply() returns (exit: Exit, result: StepResult)
      requires Between() && pending.Some? && chunkIndex < executionLimit
      modifies this`log, this`failureDomain
      ensures exit.Continue? ==> Stepped(result) && failureDomain == Benchmark
      ensures !exit.Continue? ==> LeftBy(exit) && Steps(log) <= old(Steps(log)) + 1
    {
      result := StepResult(None, "", false, false, None);
      if chunkIndex >= pending.value.horizon {
        assert false;
      }
      exit := Announce();
      if !exit.Continue? {
        return;
      }
      var request := Request(contexts[|contexts| - 1], pending.value.id, chunkIndex);
      var stepped := world.step(log, request);
      LawfulStep(plan, world, log, request, stepped);
      log := Then(log, Step(request, stepped));
      if !stepped.Done? {
        return Left(stepped), result;
      }
      return Continue, stepped.value;
    }

    /** A step has returned: one more action of the pending prediction is used; `earlier` was observed before it. */
    predicate InFlight(result: StepResult, earlier: seq<Observation>)
      reads this`log, this`policyActive, this`failureDomain, this`pending, this`chunkIndex, this`executionLimit
    {
      && Safe() && Body(log) == log && !HasInterrupt(log) && failureDomain == Runner && Blame(log) == Runner
      && policyActive && Finished(log, result) && earlier != [] && Observed(log) == earlier + Given(result)
      && pending.Some? && LastPrediction(log).Some? && LastPrediction(log).value.1 == pending.value
      && Since(log) == chunkIndex + 1 && executionLimit == Limit(plan.mode, pending.value.horizon)
      && chunkIndex < executionLimit <= pending.value.horizon <= world.maximumHorizon
      && Names(earlier, pending.value.stepId)
    }

    /** A step has returned and is not recorded yet. */
    predicate AfterStep(result: StepResult, earlier: seq<Observation>)
      reads this
    {
      && InFlight(result, earlier) && Steps(log) == stepIndex + 1 && Ledger(earlier)
      && observations == if plan.recordObservations then earlier else []
    }

    /** Time a step that has returned. */
    method Time(started: int, result: StepResult, ghost earlier: seq<Observation>) returns (exit: Exit)
      requires Safe() && Body(log) == log && !HasInterrupt(log) && log.Then? && log.event.Step?
      requires log.event.result == Done(result) && policyActive && failureDomain == Benchmark
      requires StartedAt(log) == Some(started)
      modifies this`log, this`failureDomain
      ensures SameView(plan.mode, old(log), log) && StartedAt(log) == Some(started)
      ensures exit.Continue? ==>
                && Safe() && Body(log) == log && !HasInterrupt(log) && failureDomain == Runner && Blame(log) == Runner
                && Finished(log, result)
      ensures !exit.Continue? ==> LeftBy(exit)
    {
      var applied := Read(ApplyFinished);
      if !applied.Done? {
        return Left(applied);
      }
      failureDomain := Runner;
      var finished := Read(LoopFinished);
      if !finished.Done? {
        return Left(finished);
      }
      assert Finished(log, result);
      return if finished.value < started then Failed else Continue;
    }

    /** Request the next action of the chunk and time its application. */
    method Send(started: int) returns (exit: Exit, result: StepResult, ghost earlier: seq<Observation>)
      requires Between() && pending.Some? && chunkIndex < executionLimit && StartedAt(log) == Some(started)
      modifies this`log, this`failureDomain
      ensures exit.Continue? ==> AfterStep(result, earlier)
      ensures !exit.Continue? ==> LeftBy(exit)
      ensures Steps(log) <= old(Steps(log)) + 1
    {
      earlier := Observed(log);
      exit, result := Apply();
      if exit.Continue? {
        exit := Time(started, result, earlier);
      }
    }

    /** The terminal step has ended the policy's episode and the trace is written. */
    predicate Concludes(status: Status)
      reads this`log
    {
      && Lawful(plan, world, log) && Ends(log) == 1 && PolicyStarted(log) && !HasInterrupt(log)
      && Written(log, status)
      && LastResult(log).Some? && Normal(status) && Judged(status, LastResult(log).value)
      && LastPrediction(log).Some? && 1 <= Since(log) <= Owed(plan.mode, log)
    }

    /** A terminal step: end the policy's episode, then write the trace. */
    method Conclude(result: StepResult) returns (exit: Exit)
      requires Safe() && Body(log) == log && !HasInterrupt(log) && failureDomain == Runner && Blame(log) == Runner
      requires PolicyStarted(log) && Finished(log, result) && Terminal(result)
      requires LastPrediction(log).Some? && 1 <= Since(log) <= Owed(plan.mode, log)
      modifies this`log, this`policyActive
      ensures Steps(log) == old(Steps(log))
      ensures exit.Concluded? ==> Concludes(exit.status)
      ensures !exit.Concluded? ==> LeftBy(exit)
    {
      var ended := world.endPolicy(log);
      LawfulEnd(plan, world, log, EndPolicy(ended));
      log := Then(log, EndPolicy(ended));
      if !ended.Done? {
        return Left(ended);
      }
      policyActive := false;
      assert SameView(plan.mode, old(log), log) && Ends(log) == 1 && PolicyStarted(log) && Body(log) == Body(old(log));
      var status := TerminalStatus(result);
      var written := world.finalize(log, status);
      LawfulGrows(plan, world, log, Finalize(status, written));
      log := Then(log, Finalize(status, written));
      return if written.Done? then Concluded(status) else Left(written);
    }

    /** `record_step` */
    method RecordStep(result: StepResult, ghost earlier: seq<Observation>) returns (ok: bool)
      requires earlier != [] && Ledger(earlier)
      modifies this`executed
      ensures ok ==> executed == old(executed) + {earlier[|earlier| - 1].stepId}
      ensures !ok ==> result.executed !in PredictionIds(log) || !DistinctSteps(earlier)
    {
      var step := contexts[|contexts| - 1];
      if step in executed || result.executed !in predictions {
        return false;
      }
      executed := executed + {step};
      return true;
    }

    /** The next observation is current; whether its instruction is still the prediction's is not yet checked. */
    predicate Moved()
      reads this
    {
      && Safe() && Body(log) == log && !HasInterrupt(log) && failureDomain == Runner && Blame(log) == Runner
      && Recording() && stepIndex == Steps(log)
      && pending.Some? && LastPrediction(log).Some? && LastPrediction(log).value.1 == pending.value
      && chunkIndex == Since(log) && executionLimit == Limit(plan.mode, pending.value.horizon)
      && chunkIndex <= executionLimit && 1 <= executionLimit <= pending.value.horizon <= world.maximumHorizon
      && 1 <= chunkIndex && Names(Observed(log), pending.value.stepId) && GoesOn(log)
    }

    /** Move on to the next observation, already recorded. */
    method Advance(result: StepResult, ghost earlier: seq<Observation>)
      requires !Terminal(result)
      requires InFlight(result, earlier) && result.next.Some? && stepIndex == Steps(log) && Ledger(Observed(log))
      requires observations == if plan.recordObservations then Observed(log) else []
      modifies this`observation, this`chunkIndex
      ensures Moved()
    {
      observation := result.next.value;
      chunkIndex := chunkIndex + 1;
      assert Observed(log)[|Observed(log)| - 1] == observation;
      assert forall i :: 0 <= i < |earlier| ==> Observed(log)[i] == earlier[i];
    }

    /** A changed instruction discards what is left of the prediction. */
    method Reconsider()
      requires Moved()
      modifies this`pending
      ensures Between()
    {
      if observation.instruction != InstructionFor(observations, pending.value.stepId, plan.instruction) {
        pending := None;
      }
    }

    /** `record_step`, and the next observation with it. */
    method Enter(result: StepResult, ghost earlier: seq<Observation>) returns (ok: bool)
      requires AfterStep(result, earlier)
      modifies this`executed, this`contexts, this`observations, this`stepIndex
      ensures InFlight(result, earlier)
      ensures ok ==> stepIndex == Steps(log) && observations == (if plan.recordObservations then Observed(log) else [])
      ensures ok && result.next.Some? ==> Ledger(Observed(log))
      ensures stepIndex == old(stepIndex) + if ok then 1 else 0
      ensures !ok ==> Reason(plan.mode, plan.MaximumSteps(), world.maximumHorizon, log)
    {
      ok := RecordStep(result, earlier);
      if !ok {
        Repeated(earlier, Given(result));
        return;
      }
      stepIndex := stepIndex + 1;
      if result.next.Some? {
        Record(result.next.value);
        assert Observed(log)[|earlier| - 1] == earlier[|earlier| - 1];
        assert forall j :: 0 <= j < |earlier| - 1 ==> Observed(log)[j] == earlier[j];
      } else {
        assert Observed(log) == earlier;
      }
    }

    lemma Repeated(earlier: seq<Observation>, more: seq<Observation>)
      ensures DistinctSteps(earlier + more) ==> DistinctSteps(earlier)
    {
      assert forall i :: 0 <= i < |earlier| ==> (earlier + more)[i] == earlier[i];
    }

    /** Record a step that has returned: conclude the episode, give up, or go on. */
    method Settle(result: StepResult, ghost earlier: seq<Observation>) returns (exit: Exit)
      requires AfterStep(result, earlier) && stepIndex < plan.MaximumSteps()
      modifies this
      ensures Steps(log) == old(Steps(log))
      ensures exit.Continue? ==> Between() && stepIndex == old(stepIndex) + 1 && stepIndex < plan.MaximumSteps()
      ensures exit.Concluded? ==> Concludes(exit.status)
      ensures !exit.Continue? && !exit.Concluded? ==> LeftBy(exit)
    {
      var entered := Enter(result, earlier);
      if !entered {
        return Failed;
      }
      if Terminal(result) {
        assert forall i :: 0 <= i < |earlier| ==> Observed(log)[i] == earlier[i];
        exit := Conclude(result);
        return;
      }
      if stepIndex >= plan.MaximumSteps() || result.next.None? {
        return Failed;
      }
      Advance(result, earlier);
      Reconsider();
      return Continue;
    }

    /** Start a pass of the loop: read the clock, and ask the policy if it is needed. */
    method Open() returns (exit: Exit, started: int)
      requires plan.Valid() && Between()
      modifies this
      ensures exit.Continue? ==> Between() && pending.Some? && chunkIndex < executionLimit
      ensures exit.Continue? ==> StartedAt(log) == Some(started)
      ensures stepIndex == old(stepIndex)
      ensures !exit.Continue? ==> LeftBy(exit) && Steps(log) == old(Steps(log))
    {
      var reading := Read(LoopStarted);
      if !reading.Done? {
        return Left(reading), 0;
      }
      started := reading.value;
      exit := Continue;
      if pending.None? || chunkIndex >= executionLimit {
        exit := Replan();
      }
    }

    /** One pass of the loop. */
    method Iterate() returns (exit: Exit)
      requires plan.Valid() && Between() && stepIndex < plan.MaximumSteps()
      modifies this
      ensures exit.Continue? ==> Between() && stepIndex == old(stepIndex) + 1 && stepIndex < plan.MaximumSteps()
      ensures Steps(log) <= old(stepIndex) + 1
      ensures exit.Concluded? ==> Concludes(exit.status)
      ensures !exit.Continue? && !exit.Concluded? ==> LeftBy(exit)
    {
      var started: int;
      exit, started := Open();
      if !exit.Continue? {
        return;
      }
      var result: StepResult;
      ghost var earlier: seq<Observation>;
      exit, result, earlier := Send(started);
      if exit.Continue? {
        exit := Settle(result, earlier);
      }
    }

    /** The try block. */
    method Attempt() returns (exit: Exit)
      requires plan.Valid()
      requires log == Start && contexts == [] && observations == [] && predictions == {} && executed == {}
      requires !policyActive && pending.None? && stepIndex == 0
      modifies this
      ensures Steps(log) <= if plan.MaximumSteps() > 0 then plan.MaximumSteps() else 0
      ensures exit.Concluded? ==> Concludes(exit.status)
      ensures !exit.Concluded? ==> LeftBy(exit)
    {
      exit := Reset();
      if !exit.Continue? {
        return;
      }
      while stepIndex < plan.MaximumSteps()
        invariant Between()
        invariant if stepIndex > 0 then stepIndex < plan.MaximumSteps() else log.event.ResetBenchmark?
      {
        exit := Iterate();
        if !exit.Continue? {
          return;
        }
      }
      return Failed;
    }

    // ----- leaving -----

    /** A call made on the way out. */
    method Note(event: Event)
      requires IsCleanup(event) && Lawful(plan, world, log) && Answered(world, log, event)
      requires event.EndPolicy? ==> PolicyStarted(log) && !PolicyEnded(log)
      requires event.AbortBenchmark? ==> log.Then? && log.event == BenchmarkState(Done(true))
      modifies this`log
      ensures log == Then(old(log), event) && Lawful(plan, world, log) && Cleaned(old(log), log)
      ensures Ends(log) == old(Ends(log)) + if event.EndPolicy? then 1 else 0
      ensures HasInterrupt(log) <==> WasInterrupted(event) || old(HasInterrupt(log))
    {
      log := Then(log, event);
    }

    /** `_safe_end`, when the policy is still in the episode. */
    method SafeEnd() returns (escaped: bool)
      requires Lawful(plan, world, log) && PolicyStarted(log) && !PolicyEnded(log)
      modifies this`log
      ensures Lawful(plan, world, log) && Cleaned(old(log), log) && Ends(log) == old(Ends(log)) + 1
      ensures !escaped ==> (HasInterrupt(log) <==> old(HasInterrupt(log)))
      ensures escaped ==> log.Then? && WasInterrupted(log.event)
    {
      var ended := world.endPolicy(log);
      Note(EndPolicy(ended));
      return ended.Interrupted?;
    }

    /** `_safe_abort` */
    method SafeAbort() returns (escaped: bool)
      requires Lawful(plan, world, log)
      modifies this`log
      ensures Lawful(plan, world, log) && Cleaned(old(log), log) && Ends(log) == old(Ends(log))
      ensures !escaped ==> (HasInterrupt(log) <==> old(HasInterrupt(log)))
      ensures escaped ==> log.Then? && WasInterrupted(log.event)
    {
      var active := world.benchmarkActive(log);
      Note(BenchmarkState(active));
      if active == Done(true) {
        var aborted := world.abortBenchmark(log);
        Note(AbortBenchmark(aborted));
        return aborted.Interrupted?;
      }
      return active.Interrupted?;
    }

    /** The except clauses: only another interrupt, or a trace that cannot be written, escapes. */
    method Recover(status: Status) returns (ending: Ending)
      requires Lawful(plan, world, log) && (policyActive <==> PolicyStarted(log) && !PolicyEnded(log))
      modifies this`log
      ensures Lawful(plan, world, log) && Cleaned(old(log), log)
      ensures Ends(log) == old(Ends(log)) + if policyActive then 1 else 0
      ensures ending.Recorded? ==> Written(log, status) && ending.status == status
      ensures ending.Recorded? ==> (HasInterrupt(log) <==> old(HasInterrupt(log)))
      ensures ending.Escaped? ==>
                log.Then? && (WasInterrupted(log.event) || (log.event.Finalize? && !log.event.written.Done?))
    {
      if policyActive {
        var escaped := SafeEnd();
        if escaped {
          return Escaped;
        }
      }
      var escaped := SafeAbort();
      if escaped {
        return Escaped;
      }
      var written := world.finalize(log, status);
      Note(Finalize(status, written));
      return if written.Done? then Recorded(status) else Escaped;
    }
  }

  /** What the two ways out of an episode leave behind: a normal end, an abort, or a failure blamed on someone. */
  predicate Explained(mode: Mode, most: int, maximumHorizon: int, log: Log, status: Status) {
    if status == Aborted then HasInterrupt(log)
    else if status == PolicyError || status == BenchmarkError then
      && !HasInterrupt(log) && Reason(mode, most, maximumHorizon, log)
      && (status == BenchmarkError <==> Blame(Body(log)) == Benchmark)
    else
      && !HasInterrupt(log) && LastResult(log).Some? && Judged(status, LastResult(log).value)
      && Ends(log) == 1 && LastPrediction(log).Some?
  }

  /** A normal end: the latest prediction was executed from, within its limit. */
  ghost predicate Thrifty(plan: Plan, log: Log) {
    && 1 <= Since(log) <= Owed(plan.mode, log)
    && forall instruction :: Unchanging(plan, instruction, log) ==> Steps(log) == Spent(plan.mode, log) + Since(log)
  }

  lemma UsedUpAlways(plan: Plan, maximumHorizon: int, log: Log)
    requires Disciplined(plan.mode, maximumHorizon, log) && Replans(plan, log)
    ensures forall instruction ::
              Unchanging(plan, instruction, log) ==> Steps(log) == Spent(plan.mode, log) + Since(log)
  {
    forall instruction | Unchanging(plan, instruction, log)
      ensures Steps(log) == Spent(plan.mode, log) + Since(log)
    {
      UsedUp(plan, maximumHorizon, instruction, log);
    }
  }

  predicate Normal(status: Status) {
    status == Success || status == Failure || status == TimeLimit
  }

  /**
   * One episode, for every policy, benchmark and clock. Whatever they do, actions of each prediction are executed in
   * order and within its limit, steps stay within the maximum, the policy's episode is ended if it was begun and never
   * again once that worked, the benchmark is aborted only while it is in an episode, and the status says what happened.
   */
  method ExecuteEpisode(plan: Plan, world: World) returns (ending: Ending, log: Log)
    requires plan.Valid()
    ensures Disciplined(plan.mode, world.maximumHorizon, log) && Current(log)
    ensures Replans(plan, log) && Answers(world, log)
    ensures StopsAtFlags(log)
    ensures Fresh(log) <==> Truthful(plan, log)
    ensures EndsActive(log) && AbortsActive(log) && Ends(log) <= 2 && (PolicyStarted(log) <==> Ends(log) >= 1)
    ensures var asked := plan.taskMaximum.Some? && plan.taskMaximum.value != 0;
            var most := if asked then plan.taskMaximum.value else plan.defaultMaximum;
            && Steps(log) <= (if most > 0 then most else 0)
            && (ending.Recorded? ==> Explained(plan.mode, most, world.maximumHorizon, log, ending.status))
    ensures ending.Recorded? ==> Written(log, ending.status)
    ensures ending.Escaped? ==>
              log.Then? && (WasInterrupted(log.event) || (log.event.Finalize? && !log.event.written.Done?))
    ensures ending.Recorded? && Normal(ending.status) ==>
              LastResult(log).Some? && Judged(ending.status, LastResult(log).value) && Thrifty(plan, log)
  {
    var episode := new Episode(plan, world);
    var exit := episode.Attempt();
    if exit.Concluded? {
      FreshExactly(plan, world.maximumHorizon, episode.log);
      UsedUpAlways(plan, world.maximumHorizon, episode.log);
      return Recorded(exit.status), episode.log;
    }
    var status := if exit.Stopped? then Aborted
                  else if episode.failureDomain == Benchmark then BenchmarkError else PolicyError;
    ending := episode.Recover(status);
    log := episode.log;
    FreshExactly(plan, world.maximumHorizon, log);
  }
}
