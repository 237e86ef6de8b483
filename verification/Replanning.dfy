/** Freshness and replanning, read off the history of an episode. */
module Replanning {
  // When a request is made under the instruction its prediction was asked under, and how often the policy is asked.

  import opened Results
  import opened Arithmetic
  import opened Episodes

  // ----- looking instructions up -----

  lemma {:induction false} InstructionOf(observations: seq<Observation>, i: nat, initial: string)
    requires DistinctSteps(observations) && i < |observations|
    ensures InstructionFor(observations, observations[i].stepId, initial) == observations[i].instruction
    decreases |observations|
  {
    var n := |observations| - 1;
    if i < n {
      assert observations[..n][i] == observations[i];
      InstructionOf(observations[..n], i, initial);
    }
  }

  lemma {:induction false} InstructionNamed(
      observations: seq<Observation>, stepId: string, initial: string, instruction: string)
    requires Steady(instruction, observations) && Names(observations, stepId)
    ensures InstructionFor(observations, stepId, initial) == instruction
    decreases |observations|
  {
    var n := |observations| - 1;
    var i :| 0 <= i < |observations| && observations[i].stepId == stepId;
    if observations[n].stepId != stepId {
      assert observations[..n][i].stepId == stepId;
      InstructionNamed(observations[..n], stepId, initial, instruction);
    }
  }

  lemma ObservedGrows(log: Log, event: Event)
    ensures |Observed(log)| <= |Observed(Then(log, event))|
    ensures Observed(Then(log, event))[..|Observed(log)|] == Observed(log)
  {
  }

  lemma NamesGrow(log: Log, event: Event, stepId: string)
    requires Names(Observed(log), stepId)
    ensures Names(Observed(Then(log, event)), stepId)
  {
    ObservedGrows(log, event);
    var i :| 0 <= i < |Observed(log)| && Observed(log)[i].stepId == stepId;
    assert Observed(Then(log, event))[i] == Observed(log)[i];
  }

  lemma SteadyEarlier(instruction: string, log: Log, event: Event)
    requires Steady(instruction, Observed(Then(log, event)))
    ensures Steady(instruction, Observed(log))
  {
    ObservedGrows(log, event);
    assert forall i :: 0 <= i < |Observed(log)| ==> Observed(Then(log, event))[i] == Observed(log)[i];
  }

  // ----- freshness -----

  /**
   * In every history of the runner: requests are fresh exactly when each prediction that is executed beyond its first
   * action was asked under the instruction it is compared with. The first action is always fresh.
   */
  lemma {:induction false} FreshExactly(plan: Plan, maximumHorizon: int, log: Log)
    requires Disciplined(plan.mode, maximumHorizon, log) && Replans(plan, log)
    ensures Fresh(log) <==> Truthful(plan, log)
  {
    if log.Then? {
      FreshExactly(plan, maximumHorizon, log.earlier);
    }
  }

  /** Where only one action of a prediction can be executed, requests are fresh whatever the policy names or records. */
  lemma {:induction false} LimitOneIsFresh(plan: Plan, maximumHorizon: int, log: Log)
    requires Disciplined(plan.mode, maximumHorizon, log) && Replans(plan, log)
    requires plan.mode.Receding? || plan.mode == Every(1) || maximumHorizon <= 1
    ensures Fresh(log)
  {
    if log.Then? {
      LimitOneIsFresh(plan, maximumHorizon, log.earlier);
    }
  }

  /** With nothing recorded: fresh exactly when what is executed further was asked under the initial instruction. */
  lemma FreshUnrecorded(plan: Plan, maximumHorizon: int, log: Log)
    requires Disciplined(plan.mode, maximumHorizon, log) && Replans(plan, log) && !plan.recordObservations
    ensures Fresh(log) <==> AskedInitially(plan.instruction, log)
  {
    FreshExactly(plan, maximumHorizon, log);
    TruthfulUnrecorded(plan, log);
  }

  lemma {:induction false} TruthfulUnrecorded(plan: Plan, log: Log)
    requires !plan.recordObservations
    ensures Truthful(plan, log) <==> AskedInitially(plan.instruction, log)
  {
    if log.Then? {
      TruthfulUnrecorded(plan, log.earlier);
    }
  }

  /** Observations are recorded, steps have distinct ids, and predictions name the step they were asked about. */
  predicate Honest(plan: Plan, log: Log) {
    plan.recordObservations && Echoes(log) && DistinctSteps(Observed(log))
  }

  lemma HonestEarlier(plan: Plan, log: Log, event: Event)
    requires Honest(plan, Then(log, event))
    ensures Honest(plan, log)
  {
    ObservedGrows(log, event);
    assert forall i :: 0 <= i < |Observed(log)| ==> Observed(Then(log, event))[i] == Observed(log)[i];
  }

  /** An honest policy's latest prediction names the step it was asked about, which was observed. */
  lemma {:induction false} SeenOnce(log: Log) returns (i: nat)
    requires Echoes(log) && Current(log) && LastPrediction(log).Some?
    ensures i < |Observed(log)| && Observed(log)[i] == LastPrediction(log).value.0
    ensures LastPrediction(log).value.1.stepId == Observed(log)[i].stepId
  {
    if log.event.Predict? && log.event.found.Done? {
      i := |Observed(log)| - 1;
    } else {
      i := SeenOnce(log.earlier);
      ObservedGrows(log.earlier, log.event);
      assert Observed(log)[i] == Observed(log.earlier)[i];
    }
  }

  lemma {:induction false} HonestIsTruthful(plan: Plan, log: Log)
    requires Honest(plan, log) && Current(log) && Disciplines(log)
    ensures Truthful(plan, log)
  {
    if log.Then? {
      HonestEarlier(plan, log.earlier, log.event);
      HonestIsTruthful(plan, log.earlier);
      if log.event.Step? {
        var i := SeenOnce(log.earlier);
        InstructionOf(Observed(log.earlier), i, plan.instruction);
      }
    }
  }

  /** Actions are requested of a prediction only. */
  predicate Disciplines(log: Log) {
    log.Start? || (Disciplines(log.earlier) && (log.event.Step? ==> LastPrediction(log.earlier).Some?))
  }

  lemma {:induction false} DisciplinedHas(mode: Mode, maximumHorizon: int, log: Log)
    requires Disciplined(mode, maximumHorizon, log)
    ensures Disciplines(log)
    ensures LastPrediction(log).None? ==> Steps(log) == 0 && Since(log) == 0 && Spent(mode, log) == 0
    ensures Steps(log) == 0 ==> Since(log) == 0
    ensures Since(log) > 0 ==> Since(log) <= Owed(mode, log)
  {
    if log.Then? {
      DisciplinedHas(mode, maximumHorizon, log.earlier);
    }
  }

  /** So every request of an honest history is fresh. */
  lemma HonestIsFresh(plan: Plan, maximumHorizon: int, log: Log)
    requires Disciplined(plan.mode, maximumHorizon, log) && Current(log) && Replans(plan, log) && Honest(plan, log)
    ensures Fresh(log)
  {
    DisciplinedHas(plan.mode, maximumHorizon, log);
    HonestIsTruthful(plan, log);
    FreshExactly(plan, maximumHorizon, log);
  }

  // ----- how often the policy is asked -----

  /** A prediction under execution was accepted for a step that had been observed. */
  lemma {:induction false} ExecutedNames(plan: Plan, log: Log)
    requires Replans(plan, log) && Since(log) > 0 && LastPrediction(log).Some?
    ensures Names(Observed(log), LastPrediction(log).value.1.stepId)
  {
    var stepId := LastPrediction(log).value.1.stepId;
    if !log.event.Step? {
      ExecutedNames(plan, log.earlier);
    }
    NamesGrow(log.earlier, log.event, stepId);
  }

  /** The instruction never changes, and is what predictions are compared with. */
  predicate Unchanging(plan: Plan, instruction: string, log: Log) {
    Steady(instruction, Observed(log)) && (plan.recordObservations || instruction == plan.instruction)
  }

  /** With no change of instruction each prediction but the latest is used up to its limit. */
  lemma {:induction false} UsedUp(plan: Plan, maximumHorizon: int, instruction: string, log: Log)
    requires Disciplined(plan.mode, maximumHorizon, log) && Replans(plan, log) && Unchanging(plan, instruction, log)
    ensures Steps(log) == Spent(plan.mode, log) + Since(log)
  {
    if log.Then? {
      SteadyEarlier(instruction, log.earlier, log.event);
      UsedUp(plan, maximumHorizon, instruction, log.earlier);
      DisciplinedHas(plan.mode, maximumHorizon, log.earlier);
      if log.event.Predict? && LastPrediction(log.earlier).Some? {
        NotOvertaken(plan, instruction, log.earlier);
      }
    }
  }

  lemma NotOvertaken(plan: Plan, instruction: string, log: Log)
    requires Replans(plan, log) && Unchanging(plan, instruction, log) && Observed(log) != []
    requires Since(log) > 0 && LastPrediction(log).Some?
    ensures Latest(log).instruction == Compared(plan, log)
  {
    ExecutedNames(plan, log);
    if plan.recordObservations {
      InstructionNamed(Observed(log), LastPrediction(log).value.1.stepId, plan.instruction, instruction);
    }
  }

  /** The predictions before the latest were good for one interval each. */
  lemma {:induction false} SpentCounts(mode: Mode, maximumHorizon: int, log: Log)
    requires Disciplined(mode, maximumHorizon, log)
    ensures Predictions(log) == 0 <==> LastPrediction(log).None?
    ensures mode.Receding? && Predictions(log) > 0 ==> Spent(mode, log) == Predictions(log) - 1
    ensures mode.Every? && Predictions(log) > 0 ==> Spent(mode, log) == mode.interval * (Predictions(log) - 1)
    ensures Predictions(log) == 0 ==> Spent(mode, log) == 0
  {
    if log.Then? {
      SpentCounts(mode, maximumHorizon, log.earlier);
    }
  }

  /**
   * With no change of instruction a normally ended episode asks for one prediction per step in receding mode, and one
   * per started interval when replanning every so many steps.
   */
  lemma ReplanCounts(plan: Plan, maximumHorizon: int, instruction: string, log: Log)
    requires plan.Valid() && Disciplined(plan.mode, maximumHorizon, log) && Replans(plan, log)
    requires Unchanging(plan, instruction, log) && Since(log) >= 1
    ensures plan.mode.Receding? ==> Predictions(log) == Steps(log)
    ensures plan.mode.Every? ==> Predictions(log) == (Steps(log) + plan.mode.interval - 1) / plan.mode.interval
  {
    UsedUp(plan, maximumHorizon, instruction, log);
    DisciplinedHas(plan.mode, maximumHorizon, log);
    SpentCounts(plan.mode, maximumHorizon, log);
    if plan.mode.Every? {
      CeilingDivision(Steps(log), plan.mode.interval, Predictions(log), Since(log));
    }
  }

  lemma CeilingDivision(steps: int, interval: int, count: int, rest: int)
    requires 1 <= rest <= interval && steps == interval * (count - 1) + rest
    ensures count == (steps + interval - 1) / interval
  {
    assert steps + interval - 1 == interval * count + (rest - 1);
    Quotient(steps + interval - 1, interval, count, rest - 1);
  }

  /** With nothing recorded and an instruction that stays other than the initial one, every step asks anew. */
  lemma {:induction false} UnrecordedReplansEachStep(plan: Plan, maximumHorizon: int, instruction: string, log: Log)
    requires Disciplined(plan.mode, maximumHorizon, log) && Replans(plan, log) && !plan.recordObservations
    requires Steady(instruction, Observed(log)) && instruction != plan.instruction
    ensures Since(log) <= 1
    ensures Predictions(log) == Steps(log) + if LastPrediction(log).Some? && Since(log) == 0 then 1 else 0
  {
    if log.Then? {
      SteadyEarlier(instruction, log.earlier, log.event);
      UnrecordedReplansEachStep(plan, maximumHorizon, instruction, log.earlier);
    }
  }
}
