/** An episode, run to its normal end, in which an action is requested that was planned under another instruction. */
module StaleEpisode {
  import opened Results
  import opened Episodes
  import opened Replanning
  import opened EpisodeRun

  const PLAN := Plan(OpenLoop, Some(3), 3, false, "pick")

  function Shown(n: nat): Observation {
    if n == 0 then Observation("0", "pick") else if n == 1 then Observation("1", "place") else Observation("2", "pick")
  }

  function Moves(log: Log): StepResult {
    StepResult(if Steps(log) < 2 then Some(Shown(Steps(log) + 1)) else None, "p", Steps(log) >= 2, false, Some(true))
  }

  function Answer(log: Log, seen: Observation): Outcome<Prediction> {
    Done(Prediction("p", seen.stepId, 3))
  }

  /** A policy that answers truthfully, a benchmark of three steps, a clock that stands still: nothing ever fails. */
  const WORLD := World(
    3, log => Done(()), log => Done(Shown(0)), Answer,
    (log, request) => Done(Moves(log)), (log, reading) => Done(0), log => Done(()), log => Done(false),
    log => Done(()), (log, status) => Done(()))

  lemma {:induction false} NothingFails(log: Log)
    requires Answers(WORLD, log)
    ensures !HasInterrupt(log) && !Botched(log) && Echoes(log) && (log.Then? ==> !WasRaised(log.event))
  {
    if log.Then? {
      NothingFails(log.earlier);
    }
  }

  /** What has been observed, and what the latest step gave, as far as the steps go. */
  lemma {:induction false} Told(log: Log)
    requires Answers(WORLD, log) && Current(log) && Steps(log) <= 3
    ensures Observed(log) != [] ==> |Observed(log)| == if Steps(log) < 3 then Steps(log) + 1 else 3
    ensures forall i :: 0 <= i < |Observed(log)| ==> Observed(log)[i] == Shown(i)
    ensures Steps(log) > 0 ==> Observed(log) != []
    ensures LastResult(log).Some? ==>
              Steps(log) > 0 && LastResult(log).value.executed == "p" && LastResult(log).value.success == Some(true)
              && (Terminal(LastResult(log).value) <==> Steps(log) == 3)
              && (LastResult(log).value.next.None? <==> Steps(log) == 3)
    ensures StartedAt(log).Some? ==> StartedAt(log).value == 0
  {
    if log.Then? {
      Told(log.earlier);
    }
  }

  lemma {:induction false} OneName(log: Log)
    requires Answers(WORLD, log)
    ensures PredictionIds(log) == if LastPrediction(log).Some? then {"p"} else {}
    ensures LastPrediction(log).Some? ==>
              LastPrediction(log).value.1 == Prediction("p", LastPrediction(log).value.0.stepId, 3)
  {
    if log.Then? {
      OneName(log.earlier);
    }
  }

  lemma {:induction false} StepsHave(log: Log)
    requires Disciplines(log) && Steps(log) > 0
    ensures LastPrediction(log).Some?
  {
    if !log.event.Step? && Steps(log.earlier) > 0 {
      StepsHave(log.earlier);
    }
  }

  /**
   * The first prediction is overtaken after one step, the second is not: without recorded observations it is compared
   * with the initial instruction, which is back, and not with the one it was asked under.
   */
  lemma {:induction false} Stale(log: Log)
    requires Answers(WORLD, log) && Current(log) && Replans(PLAN, log) && Steps(log) <= 3
    requires Disciplined(OpenLoop, 3, log)
    ensures LastPrediction(log).Some? ==>
              match Steps(log)
              case 0 => LastPrediction(log).value.0 == Shown(0) && Since(log) == 0
              case 1 => Since(log) == 1 || (LastPrediction(log).value.0 == Shown(1) && Since(log) == 0)
              case 2 => LastPrediction(log).value.0 == Shown(1) && Since(log) == 1
              case _ => !Fresh(log)
  {
    if log.Then? {
      Stale(log.earlier);
      Told(log.earlier);
      OneName(log.earlier);
      Words();
      if (log.event.Step? || log.event.Predict?) && Steps(log.earlier) > 0 {
        assert Latest(log.earlier) == Shown(Steps(log.earlier));
        DisciplinedHas(OpenLoop, 3, log.earlier);
        StepsHave(log.earlier);
      }
    }
  }

  lemma Words()
    ensures "place" != "pick"
  {
    assert "place"[1] != "pick"[1];
  }

  /** What every history of this episode has in common. */
  predicate Lived(log: Log) {
    && Answers(WORLD, log) && Current(log) && Replans(PLAN, log) && Disciplined(OpenLoop, 3, log) && Disciplines(log)
    && Steps(log) <= 3
  }

  lemma {:induction false} BodyTold(log: Log)
    requires Lived(log)
    ensures Lived(Body(log))
  {
    if log.Then? && IsCleanup(log.event) {
      BodyTold(log.earlier);
    }
  }

  lemma Distinct(log: Log)
    requires Lived(log)
    ensures DistinctSteps(Observed(log))
  {
    Told(log);
    assert "0"[0] != "1"[0] && "0"[0] != "2"[0] && "1"[0] != "2"[0];
  }

  /** An answer names the step it was asked about. */
  lemma Asked(log: Log, found: Prediction)
    requires Lived(log) && Observed(log) != [] && found == Prediction("p", Latest(log).stepId, 3)
    ensures !Refused(PLAN.mode, 3, Observed(log), found)
  {
    assert Observed(log)[|Observed(log)| - 1].stepId == found.stepId;
  }

  lemma Settled(log: Log, result: StepResult)
    requires Lived(log) && LastResult(log) == Some(result)
    ensures !Unsettled(PLAN.MaximumSteps(), log, 0, result)
  {
    Told(log);
    Distinct(log);
    StepsHave(log);
    OneName(log);
  }

  /** Nothing can have gone wrong. */
  lemma NoReason(log: Log)
    requires Lived(log)
    ensures !Reason(PLAN.mode, PLAN.MaximumSteps(), 3, log)
  {
    NothingFails(log);
    BodyTold(log);
    var body := Body(log);
    NothingFails(body);
    if body.Then? && body.event.Predict? {
      Asked(body.earlier, body.event.found.value);
    } else if body.Then? && body.event.Tick? && LastResult(body.earlier).Some? {
      Settled(body, LastResult(body.earlier).value);
    }
  }

  /** The episode ends with success, every call in it was answered, and it is not fresh. */
  method Run() returns (log: Log)
    ensures Answers(WORLD, log) && Written(log, Success) && Echoes(log) && DistinctSteps(Observed(log))
    ensures !Fresh(log)
  {
    var ending: Ending;
    ending, log := ExecuteEpisode(PLAN, WORLD);
    DisciplinedHas(OpenLoop, 3, log);
    NothingFails(log);
    NoReason(log);
    Told(log);
    Distinct(log);
    Stale(log);
  }
}
