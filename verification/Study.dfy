/** The staged coverage study. */
module Study {
  // No deep training before every profile validates and every smoke run is verified.

  import opened Results
  import opened Lists

  datatype Stage = Smoke | Deep

  datatype Mode = ValidateOnly | PlanOnly | Full

  /** One command of the study, named by what it is for. */
  datatype Slot =
    | Validate(stage: Stage, suite: string)
    | Plan(stage: Stage, suite: string)
    | Train(stage: Stage, suite: string)
    | VerifyRun(stage: Stage, suite: string)
    | VerifyCheckpoint(stage: Stage, suite: string)

  /** What `train run` answers: IDs, the result's own checks, and the coverage evidence on disk. */
  datatype Training = Training(
    runId: Option<string>, checkpointId: Option<string>, completed: bool, identityError: Option<real>,
    reloadError: Option<real>, changedTensors: int, actionTokens: int, lossFinite: bool, coverage: Option<Coverage>)

  datatype Coverage = Coverage(fraction: real, uncovered: int, hasConvolution: bool)

  /** The result object of a successful command. */
  datatype Answer =
    | Validation(valid: bool)
    | Planned
    | Trained(training: Training)
    | Verified(ok: bool, id: Option<string>)

  /** A command is interrupted, fails or answers nonsense, or succeeds. */
  datatype Reply = Interrupted | Refused | Success(answer: Answer)

  /** A command issued, the ID it was given if it takes one, and its reply. */
  datatype Entry = Entry(slot: Slot, id: Option<string>, reply: Reply)

  type Log = seq<Entry>

  /** The CLI: it may answer anything, depending on everything it was asked before. */
  type Runner = (Log, Slot, Option<string>) -> Reply

  datatype Status = Completed | Failed | Stopped

  // ----- the schedule -----

  function Cycle(stage: Stage, suite: string, mode: Mode): seq<Slot> {
    match mode
    case ValidateOnly => []
    case PlanOnly => [Plan(stage, suite)]
    case Full => [Train(stage, suite), VerifyRun(stage, suite), VerifyCheckpoint(stage, suite)]
  }

  function Validations(stage: Stage, suites: seq<string>): seq<Slot> {
    if suites == [] then [] else Validations(stage, suites[..|suites| - 1]) + [Validate(stage, suites[|suites| - 1])]
  }

  function Cycles(stage: Stage, suites: seq<string>, mode: Mode): seq<Slot> {
    if suites == [] then []
    else Cycles(stage, suites[..|suites| - 1], mode) + Cycle(stage, suites[|suites| - 1], mode)
  }

  /** Validate every profile of both stages; then every smoke run with its checks; then every deep one. */
  function Schedule(suites: seq<string>, mode: Mode): seq<Slot> {
    Validations(Smoke, suites) + Validations(Deep, suites) + Cycles(Smoke, suites, mode) + Cycles(Deep, suites, mode)
  }

  // ----- the checks -----

  /** `check_training_result` */
  predicate Sound(t: Training) {
    && t.runId.Some? && t.runId.value != "" && t.checkpointId.Some? && t.checkpointId.value != "" && t.completed
    && t.identityError == Some(0.0) && t.reloadError == Some(0.0) && t.changedTensors > 0
    && t.actionTokens != 0 && t.lossFinite
  }

  /** `check_coverage` */
  predicate Covered(t: Training) {
    t.coverage.Some? && t.coverage.value.fraction == 1.0 && t.coverage.value.uncovered == 0
    && t.coverage.value.hasConvolution
  }

  /** The study goes on after the entry at `i`. The two verifications are judged together, after the second. */
  predicate Passes(log: Log, i: nat)
    requires i < |log|
  {
    && log[i].reply.Success?
    && match log[i].slot
       case Validate(_, _) => log[i].reply.answer.Validation? && log[i].reply.answer.valid
       case Plan(_, _) => true
       case Train(_, _) => log[i].reply.answer.Trained? && Sound(log[i].reply.answer.training)
       case VerifyRun(_, _) => true
       case VerifyCheckpoint(_, _) => i >= 2 && Confirmed(log[i - 2], log[i - 1], log[i])
  }

  /** Run and checkpoint both verified, under the IDs the training returned, with full coverage. */
  predicate Confirmed(trained: Entry, run: Entry, checkpoint: Entry) {
    && trained.reply.Success? && trained.reply.answer.Trained? && Covered(trained.reply.answer.training)
    && IsVerified(run, trained.reply.answer.training.runId)
    && IsVerified(checkpoint, trained.reply.answer.training.checkpointId)
  }

  predicate IsVerified(e: Entry, id: Option<string>) {
    e.id == id && e.reply.Success? && e.reply.answer.Verified? && e.reply.answer.ok && e.reply.answer.id == id
  }

  function Slots(log: Log): seq<Slot> {
    seq(|log|, i requires 0 <= i < |log| => log[i].slot)
  }

  ghost predicate AllPass(log: Log) {
    forall i :: 0 <= i < |log| ==> Passes(log, i)
  }

  /** Everything but the last command passed its check. */
  ghost predicate PassesSoFar(log: Log) {
    forall i :: 0 <= i < |log| - 1 ==> Passes(log, i)
  }

  /** Every reply is the runner's answer to its command, given the log so far. */
  predicate Replied(runner: Runner, log: Log) {
    log == [] ||
    var (earlier, last) := (log[..|log| - 1], log[|log| - 1]);
    Replied(runner, earlier) && last.reply == runner(earlier, last.slot, last.id)
  }

  // ----- the study -----

  class Journal {
    const runner: Runner
    var log: Log

    constructor (runner: Runner)
      ensures this.runner == runner && log == []
    {
      this.runner, log := runner, [];
    }

    /** Issue one command. */
    method Invoke(slot: Slot, id: Option<string>) returns (reply: Reply)
      modifies this`log
      ensures reply == runner(old(log), slot, id) && log == old(log) + [Entry(slot, id, reply)]
      ensures old(Replied(runner, log)) ==> Replied(runner, log)
    {
      reply := runner(log, slot, id);
      ghost var before := log;
      log := log + [Entry(slot, id, reply)];
      assert log[..|before|] == before;
    }

    /** The schedule has been followed so far, and everything passed. */
    ghost predicate OnSchedule(done: seq<Slot>)
      reads this
    {
      Slots(log) == done && AllPass(log) && Replied(runner, log)
    }

    /** Stopped by the last command of a schedule followed so far. */
    ghost predicate StoppedIn(done: seq<Slot>)
      reads this
    {
      && log != [] && Slots(log) <= done && PassesSoFar(log) && !Passes(log, |log| - 1) && Replied(runner, log)
    }

    lemma StoppedFurther(done: seq<Slot>, more: seq<Slot>)
      requires StoppedIn(done) && done <= more
      ensures StoppedIn(more)
    {
      assert Slots(log) <= done <= more;
    }

    method ValidateProfile(stage: Stage, suite: string, ghost done: seq<Slot>) returns (status: Status)
      requires OnSchedule(done)
      modifies this`log
      ensures status.Completed? ==> OnSchedule(done + [Validate(stage, suite)])
      ensures !status.Completed? ==> StoppedIn(done + [Validate(stage, suite)])
      ensures status == Stopped <==> log[|log| - 1].reply.Interrupted?
    {
      var reply := Invoke(Validate(stage, suite), None);
      Grown(old(log), log[|log| - 1]);
      if reply.Interrupted? {
        return Stopped;
      }
      if reply.Refused? || !reply.answer.Validation? || !reply.answer.valid {
        return Failed;
      }
      return Completed;
    }

    /** One plan, or one training run with its two verifications. */
    method RunCycle(stage: Stage, suite: string, mode: Mode, ghost done: seq<Slot>) returns (status: Status)
      requires OnSchedule(done) && mode != ValidateOnly
      modifies this`log
      ensures status.Completed? ==> OnSchedule(done + Cycle(stage, suite, mode))
      ensures !status.Completed? ==> StoppedIn(done + Cycle(stage, suite, mode))
      ensures !status.Completed? ==> (status == Stopped <==> log[|log| - 1].reply.Interrupted?)
    {
      if mode == PlanOnly {
        var plan := Invoke(Plan(stage, suite), None);
        Grown(old(log), log[|log| - 1]);
        return if plan.Interrupted? then Stopped else if plan.Refused? then Failed else Completed;
      }
      var child := Invoke(Train(stage, suite), None);
      Grown(old(log), log[|log| - 1]);
      if child.Interrupted? {
        return Stopped;
      }
      if child.Refused? || !child.answer.Trained? || !Sound(child.answer.training) {
        return Failed;
      }
      var training := child.answer.training;
      status := Confirm(stage, suite, training, done);
    }

    /** The two independent verifications, then the coverage evidence. */
    method Confirm(stage: Stage, suite: string, training: Training, ghost done: seq<Slot>) returns (status: Status)
      requires OnSchedule(done + [Train(stage, suite)])
      requires log[|log| - 1].reply == Success(Trained(training))
      modifies this`log
      ensures status.Completed? ==> OnSchedule(done + Cycle(stage, suite, Full))
      ensures !status.Completed? ==> StoppedIn(done + Cycle(stage, suite, Full))
      ensures !status.Completed? ==> (status == Stopped <==> log[|log| - 1].reply.Interrupted?)
    {
      var run := Invoke(VerifyRun(stage, suite), training.runId);
      Grown(old(log), log[|log| - 1]);
      if run.Interrupted? {
        return Stopped;
      }
      if run.Refused? {
        return Failed;
      }
      ghost var before := log;
      var checkpoint := Invoke(VerifyCheckpoint(stage, suite), training.checkpointId);
      Grown(before, log[|log| - 1]);
      var n := |log|;
      assert log[n - 3] == old(log)[n - 3] && log[n - 2] == before[n - 2];
      if checkpoint.Interrupted? {
        return Stopped;
      }
      if checkpoint.Refused? || !Confirmed(log[n - 3], log[n - 2], log[n - 1]) {
        return Failed;
      }
      return Completed;
    }
  }

  /** A log with one more entry: the earlier entries pass as before. */
  lemma Grown(log: Log, e: Entry)
    ensures Slots(log + [e]) == Slots(log) + [e.slot]
    ensures AllPass(log) ==> PassesSoFar(log + [e])
    ensures AllPass(log) && Passes(log + [e], |log|) ==> AllPass(log + [e])
  {
    forall i | 0 <= i < |log|
      ensures Passes(log + [e], i) == Passes(log, i)
    {
    }
  }

  // ----- the whole run -----

  lemma ValidationsPrefix(stage: Stage, suites: seq<string>, n: nat)
    requires n < |suites|
    ensures Validations(stage, suites[..n + 1]) == Validations(stage, suites[..n]) + [Validate(stage, suites[n])]
  {
    assert suites[..n + 1][..n] == suites[..n];
  }

  lemma CyclesPrefix(stage: Stage, suites: seq<string>, mode: Mode, n: nat)
    requires n < |suites|
    ensures Cycles(stage, suites[..n + 1], mode) == Cycles(stage, suites[..n], mode) + Cycle(stage, suites[n], mode)
  {
    assert suites[..n + 1][..n] == suites[..n];
  }

  lemma {:induction false} ValidationsGrow(stage: Stage, suites: seq<string>, n: nat)
    requires n <= |suites|
    ensures Validations(stage, suites[..n]) <= Validations(stage, suites)
    decreases |suites|
  {
    if n < |suites| {
      ValidationsGrow(stage, suites[..|suites| - 1], n);
      assert suites[..|suites| - 1][..n] == suites[..n];
    } else {
      assert suites[..n] == suites;
    }
  }

  lemma {:induction false} CyclesGrow(stage: Stage, suites: seq<string>, mode: Mode, n: nat)
    requires n <= |suites|
    ensures Cycles(stage, suites[..n], mode) <= Cycles(stage, suites, mode)
    decreases |suites|
  {
    if n < |suites| {
      CyclesGrow(stage, suites[..|suites| - 1], mode, n);
      assert suites[..|suites| - 1][..n] == suites[..n];
    } else {
      assert suites[..n] == suites;
    }
  }

  lemma CyclesStep(done: seq<Slot>, stage: Stage, suites: seq<string>, mode: Mode, n: nat)
    requires n < |suites|
    ensures done + Cycles(stage, suites[..n], mode) + Cycle(stage, suites[n], mode)
            == done + Cycles(stage, suites[..n + 1], mode)
    ensures done + Cycles(stage, suites[..n + 1], mode) <= done + Cycles(stage, suites, mode)
  {
    CyclesPrefix(stage, suites, mode, n);
    CyclesGrow(stage, suites, mode, n + 1);
  }

  lemma ValidationsStep(done: seq<Slot>, stage: Stage, suites: seq<string>, n: nat)
    requires n < |suites|
    ensures done + Validations(stage, suites[..n]) + [Validate(stage, suites[n])]
            == done + Validations(stage, suites[..n + 1])
    ensures done + Validations(stage, suites[..n + 1]) <= done + Validations(stage, suites)
  {
    ValidationsPrefix(stage, suites, n);
    ValidationsGrow(stage, suites, n + 1);
  }

  /** Validate the profiles of one stage. */
  method ValidateStage(journal: Journal, stage: Stage, suites: seq<string>, ghost done: seq<Slot>)
    returns (status: Status)
    requires journal.OnSchedule(done)
    modifies journal`log
    ensures status.Completed? ==> journal.OnSchedule(done + Validations(stage, suites))
    ensures !status.Completed? ==> journal.StoppedIn(done + Validations(stage, suites))
    ensures !status.Completed? ==> (status == Stopped <==> journal.log[|journal.log| - 1].reply.Interrupted?)
  {
    assert done + [] == done;
    for n := 0 to |suites|
      invariant journal.OnSchedule(done + Validations(stage, suites[..n]))
    {
      ValidationsStep(done, stage, suites, n);
      status := journal.ValidateProfile(stage, suites[n], done + Validations(stage, suites[..n]));
      if !status.Completed? {
        journal.StoppedFurther(done + Validations(stage, suites[..n + 1]), done + Validations(stage, suites));
        return;
      }
    }
    assert suites[..|suites|] == suites;
    return Completed;
  }

  /** Run the cycle of one suite of a stage. */
  method RunSuite(journal: Journal, stage: Stage, suites: seq<string>, n: nat, mode: Mode, ghost done: seq<Slot>)
    returns (status: Status)
    requires n < |suites| && journal.OnSchedule(done + Cycles(stage, suites[..n], mode)) && mode != ValidateOnly
    modifies journal`log
    ensures status.Completed? ==> journal.OnSchedule(done + Cycles(stage, suites[..n + 1], mode))
    ensures !status.Completed? ==> journal.StoppedIn(done + Cycles(stage, suites, mode))
    ensures !status.Completed? ==> (status == Stopped <==> journal.log[|journal.log| - 1].reply.Interrupted?)
  {
    CyclesStep(done, stage, suites, mode, n);
    status := journal.RunCycle(stage, suites[n], mode, done + Cycles(stage, suites[..n], mode));
    if !status.Completed? {
      journal.StoppedFurther(done + Cycles(stage, suites[..n + 1], mode), done + Cycles(stage, suites, mode));
    }
  }

  /** Run the cycles of one stage. */
  method RunStage(journal: Journal, stage: Stage, suites: seq<string>, mode: Mode, ghost done: seq<Slot>)
    returns (status: Status)
    requires journal.OnSchedule(done) && mode != ValidateOnly
    modifies journal`log
    ensures status.Completed? ==> journal.OnSchedule(done + Cycles(stage, suites, mode))
    ensures !status.Completed? ==> journal.StoppedIn(done + Cycles(stage, suites, mode))
    ensures !status.Completed? ==> (status == Stopped <==> journal.log[|journal.log| - 1].reply.Interrupted?)
  {
    assert done + [] == done;
    for n := 0 to |suites|
      invariant journal.OnSchedule(done + Cycles(stage, suites[..n], mode))
    {
      status := RunSuite(journal, stage, suites, n, mode, done);
      if !status.Completed? {
        return;
      }
    }
    assert suites[..|suites|] == suites;
    return Completed;
  }

  predicate Supported(suite: string) {
    suite == "libero10" || suite == "libero-object" || suite == "libero-spatial" || suite == "libero-goal"
  }

  lemma {:induction false} ValidateOnlyCycles(stage: Stage, suites: seq<string>)
    ensures Cycles(stage, suites, ValidateOnly) == []
  {
    if suites != [] {
      ValidateOnlyCycles(stage, suites[..|suites| - 1]);
    }
  }

  /**
   * The study, for every runner. What it issues is a prefix of one fixed schedule, and everything before the last
   * command passed its check; it says completed exactly when the whole schedule ran and passed, and otherwise the last
   * command is what stopped it.
   */
  method RunStudy(suites: seq<string>, mode: Mode, runner: Runner) returns (r: Result<Status>, log: Log)
    ensures r.Err? <==>
            || suites == []
            || exists s :: s in suites && s !in {"libero10", "libero-object", "libero-spatial", "libero-goal"}
    ensures r.Err? ==> log == []
    ensures r.Ok? ==> Slots(log) <= Schedule(Deduped(suites), mode) && PassesSoFar(log) && Replied(runner, log)
    ensures r.Ok? ==> (r.value.Completed? <==> Slots(log) == Schedule(Deduped(suites), mode) && AllPass(log))
    ensures r.Ok? && !r.value.Completed? ==>
              log != [] && !Passes(log, |log| - 1) && (r.value.Stopped? <==> log[|log| - 1].reply.Interrupted?)
  {
    if suites == [] {
      return Err, [];
    }
    if i :| 0 <= i < |suites| && !Supported(suites[i]) {
      assert suites[i] in suites;
      return Err, [];
    }
    assert forall suite :: suite in suites ==> Supported(suite);
    var chosen := Deduped(suites);
    var journal := new Journal(runner);
    var status := Stages(journal, chosen, mode);
    return Ok(status), journal.log;
  }

  method Stages(journal: Journal, suites: seq<string>, mode: Mode) returns (status: Status)
    requires journal.log == []
    modifies journal`log
    ensures status.Completed? ==> journal.OnSchedule(Schedule(suites, mode))
    ensures !status.Completed? ==> journal.StoppedIn(Schedule(suites, mode))
    ensures !status.Completed? ==> (status == Stopped <==> journal.log[|journal.log| - 1].reply.Interrupted?)
  {
    ghost var whole := Schedule(suites, mode);
    ghost var one := Validations(Smoke, suites);
    ghost var two := one + Validations(Deep, suites);
    ghost var three := two + Cycles(Smoke, suites, mode);
    assert one <= two <= three <= whole && three + Cycles(Deep, suites, mode) == whole && [] + one == one;
    status := ValidateStage(journal, Smoke, suites, []);
    if !status.Completed? {
      return;
    }
    status := ValidateStage(journal, Deep, suites, one);
    if !status.Completed? {
      return;
    }
    if mode == ValidateOnly {
      ValidateOnlyCycles(Smoke, suites);
      ValidateOnlyCycles(Deep, suites);
      assert two + [] + [] == two;
      return;
    }
    status := RunStage(journal, Smoke, suites, mode, two);
    if !status.Completed? {
      return;
    }
    status := RunStage(journal, Deep, suites, mode, three);
  }

  // ----- the gate -----

  lemma {:induction false} ValidationSlots(stage: Stage, suites: seq<string>)
    ensures |Validations(stage, suites)| == |suites|
    ensures forall k :: 0 <= k < |suites| ==> Validations(stage, suites)[k] == Validate(stage, suites[k])
  {
    if suites != [] {
      ValidationSlots(stage, suites[..|suites| - 1]);
    }
  }

  lemma {:induction false} CycleLength(stage: Stage, suites: seq<string>)
    ensures |Cycles(stage, suites, Full)| == 3 * |suites|
    ensures forall i :: 0 <= i < |Cycles(stage, suites, Full)| ==> Cycles(stage, suites, Full)[i].stage == stage
  {
    if suites != [] {
      CycleLength(stage, suites[..|suites| - 1]);
    }
  }

  lemma {:induction false} CycleSlot(stage: Stage, suites: seq<string>, k: nat)
    requires k < |suites|
    ensures |Cycles(stage, suites, Full)| == 3 * |suites|
    ensures Cycles(stage, suites, Full)[3 * k..3 * k + 3] == Cycle(stage, suites[k], Full)
  {
    var n := |suites| - 1;
    CycleLength(stage, suites[..n]);
    CycleLength(stage, suites);
    var head, last := Cycles(stage, suites[..n], Full), Cycle(stage, suites[n], Full);
    assert Cycles(stage, suites, Full) == head + last;
    if k < n {
      CycleSlot(stage, suites[..n], k);
      assert suites[..n][k] == suites[k];
    } else {
    }
  }

  lemma CycleAt(stage: Stage, suites: seq<string>, k: nat)
    requires k < |suites|
    ensures var cycles := Cycles(stage, suites, Full);
            && |cycles| == 3 * |suites| && cycles[3 * k] == Train(stage, suites[k])
            && cycles[3 * k + 1] == VerifyRun(stage, suites[k])
            && cycles[3 * k + 2] == VerifyCheckpoint(stage, suites[k])
  {
    CycleSlot(stage, suites, k);
    var cycles := Cycles(stage, suites, Full);
    var part := cycles[3 * k..3 * k + 3];
    assert part[0] == cycles[3 * k] && part[1] == cycles[3 * k + 1] && part[2] == cycles[3 * k + 2];
  }

  lemma PartsAt<T>(a: seq<T>, b: seq<T>, c: seq<T>, d: seq<T>, i: nat, j: nat)
    requires i < |a| && i < |b| && j + 2 < |c|
    ensures var (whole, m) := (a + b + c + d, |a| + |b| + j);
            && whole[i] == a[i] && whole[|a| + i] == b[i]
            && whole[m] == c[j] && whole[m + 1] == c[j + 1] && whole[m + 2] == c[j + 2]
  {
  }

  /** Where each part of the schedule lies. */
  lemma ScheduleAt(suites: seq<string>, k: nat)
    requires k < |suites|
    ensures var (n, whole) := (|suites|, Schedule(suites, Full));
            && |whole| == 8 * n && whole[k] == Validate(Smoke, suites[k]) && whole[n + k] == Validate(Deep, suites[k])
            && whole[2 * n + 3 * k] == Train(Smoke, suites[k])
            && whole[2 * n + 3 * k + 1] == VerifyRun(Smoke, suites[k])
            && whole[2 * n + 3 * k + 2] == VerifyCheckpoint(Smoke, suites[k])
  {
    ValidationSlots(Smoke, suites);
    ValidationSlots(Deep, suites);
    CycleAt(Smoke, suites, k);
    CycleLength(Deep, suites);
    PartsAt(
      Validations(Smoke, suites), Validations(Deep, suites), Cycles(Smoke, suites, Full), Cycles(Deep, suites, Full),
      k, 3 * k);
  }

  /** Deep training commands come after all validations and all smoke cycles. */
  lemma DeepIsLate(suites: seq<string>, i: nat)
    requires i < |Schedule(suites, Full)| && Schedule(suites, Full)[i].Train? && Schedule(suites, Full)[i].stage == Deep
    ensures i >= 5 * |suites|
  {
    var n := |suites|;
    ValidationSlots(Smoke, suites);
    ValidationSlots(Deep, suites);
    CycleLength(Smoke, suites);
    var head := Validations(Smoke, suites) + Validations(Deep, suites);
    assert Schedule(suites, Full) == head + (Cycles(Smoke, suites, Full) + Cycles(Deep, suites, Full));
    assert forall j :: 0 <= j < |head| ==> head[j].Validate?;
  }

  /** A completed training run that changed the adapter, with errors of zero and every active target covered. */
  predicate Trustworthy(t: Training) {
    && t.completed && t.runId.Some? && t.runId.value != "" && t.checkpointId.Some? && t.checkpointId.value != ""
    && t.identityError == Some(0.0) && t.reloadError == Some(0.0) && t.changedTensors > 0
    && t.actionTokens != 0 && t.lossFinite
    && t.coverage.Some? && t.coverage.value.fraction == 1.0 && t.coverage.value.uncovered == 0
    && t.coverage.value.hasConvolution
  }

  /** The entry is a command that was answered by validating. */
  predicate Validated(e: Entry, stage: Stage, suite: string) {
    e.slot == Validate(stage, suite) && e.reply == Success(Validation(true))
  }

  /** Three entries: a trustworthy run, and the verifications of that run and of its checkpoint under their own IDs. */
  predicate Proven(train: Entry, run: Entry, checkpoint: Entry, stage: Stage, suite: string) {
    && train.slot == Train(stage, suite) && run.slot == VerifyRun(stage, suite)
    && checkpoint.slot == VerifyCheckpoint(stage, suite)
    && train.reply.Success? && train.reply.answer.Trained? && Trustworthy(train.reply.answer.training)
    && var t := train.reply.answer.training;
    && run.id == t.runId && run.reply == Success(Verified(true, t.runId))
    && checkpoint.id == t.checkpointId && checkpoint.reply == Success(Verified(true, t.checkpointId))
  }

  /**
   * The gate: when a deep training command has been issued, every profile of both stages had validated, and the smoke
   * run of every selected suite had completed with errors of zero, passed both verifications under its own IDs, and
   * covered all its targets, a convolution among them.
   */
  lemma DeepIsGated(suites: seq<string>, log: Log, i: nat, k: nat)
    requires Slots(log) <= Schedule(suites, Full) && PassesSoFar(log)
    requires i < |log| && log[i].slot.Train? && log[i].slot.stage == Deep && k < |suites|
    ensures var (n, smoke) := (|suites|, 2 * |suites| + 3 * k);
            && smoke + 2 < i && Validated(log[k], Smoke, suites[k]) && Validated(log[n + k], Deep, suites[k])
            && Proven(log[smoke], log[smoke + 1], log[smoke + 2], Smoke, suites[k])
  {
    var n, smoke := |suites|, 2 * |suites| + 3 * k;
    DeepIsLate(suites, i);
    ScheduleAt(suites, k);
    assert Passes(log, k) && Passes(log, n + k) && Passes(log, smoke) && Passes(log, smoke + 2);
  }

  /** The same for every suite asked for, however often and in whatever order it was named. */
  lemma AskedIsGated(suites: seq<string>, log: Log, i: nat, suite: string) returns (first: nat, second: nat, smoke: nat)
    requires Slots(log) <= Schedule(Deduped(suites), Full) && PassesSoFar(log) && Contains(suites, suite)
    requires i < |log| && log[i].slot.Train? && log[i].slot.stage == Deep
    ensures first < second < smoke < smoke + 2 < i
    ensures Validated(log[first], Smoke, suite) && Validated(log[second], Deep, suite)
    ensures Proven(log[smoke], log[smoke + 1], log[smoke + 2], Smoke, suite)
  {
    var k := AskedAt(suites, suite);
    DeepIsGated(Deduped(suites), log, i, k);
    var n := |Deduped(suites)|;
    first, second, smoke := k, n + k, 2 * n + 3 * k;
  }

  lemma AskedAt(suites: seq<string>, suite: string) returns (k: nat)
    requires Contains(suites, suite)
    ensures k < |Deduped(suites)| && Deduped(suites)[k] == suite
  {
    DedupedSame(suites);
    assert Contains(Deduped(suites), suite);
    k :| 0 <= k < |Deduped(suites)| && Deduped(suites)[k] == suite;
  }
}
