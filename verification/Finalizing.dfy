/** A finalizer left alone. */
module Finalizing {
  // It ends: done with its ID or failed with the run broken, and which of the two is decided when it begins.

  import opened Finalizer
  import opened Results

  /** How a finalizer ends: with the checkpoint it reports, or failed. */
  datatype Outcome = Ends(id: Id) | Fails

  // ----- what it comes to -----

  /** A run that has a manifest must verify and point to this checkpoint; one without is completed. */
  function CompleteEnd(run: RunDir, id: Id): Outcome {
    if run.manifest.Some? && !(RunVerifies(run) && run.result.checkpoint == Some(id)) then Fails else Ends(id)
  }

  /** A checkpoint that is there must verify; otherwise nothing staged may collide with the two documents. */
  function StoreEnd(rules: Rules, store: map<Id, Tree>, run: RunDir, id: Id): Outcome {
    if id in store then if Verifies(rules, store, id) then CompleteEnd(run, id) else Fails
    else if CHECKPOINT in run.staging || MANIFEST in run.staging then Fails
    else CompleteEnd(run, id)
  }

  /** From the beginning. */
  function WholeEnd(rules: Rules, store: map<Id, Tree>, run: RunDir): Outcome {
    if !rules.valid(run.plan, run.staging) then Fails
    else StoreEnd(rules, store, run, rules.name(SemanticsOf(rules, run, run.result)))
  }

  // ----- from wherever it stands -----

  /** A bundle is published over nothing, or an empty directory. */
  function PublishEnd(store: map<Id, Tree>, run: RunDir, id: Id): Outcome {
    if id in store && store[id] != map[] then Fails else CompleteEnd(run, id)
  }

  /** The manifest is linked where there is none yet. */
  function SealEnd(run: RunDir, id: Id): Outcome {
    if run.manifest.Some? then Fails else Ends(id)
  }

  function Verdict(rules: Rules, store: map<Id, Tree>, run: RunDir, p: Process): Outcome {
    match p.at
    case Validate => WholeEnd(rules, store, run)
    case ReadResult => StoreEnd(rules, store, run, rules.name(SemanticsOf(rules, run, run.result)))
    case LookUp(_, id) => StoreEnd(rules, store, run, id)
    case Reuse(_, id) => if Verifies(rules, store, id) then CompleteEnd(run, id) else Fails
    case Copy(_, id, _) =>
      if CHECKPOINT in run.staging || MANIFEST in run.staging then Fails else PublishEnd(store, run, id)
    case WriteCheckpoint(_, id) =>
      if CHECKPOINT in p.temporary || MANIFEST in p.temporary then Fails else PublishEnd(store, run, id)
    case WriteManifest(_, id) => if MANIFEST in p.temporary then Fails else PublishEnd(store, run, id)
    case Publish(_, id) => PublishEnd(store, run, id)
    case Complete(_, id) => CompleteEnd(run, id)
    case StageResult(_, id) => SealEnd(run, id)
    case ReplaceResult(_, id, _) => SealEnd(run, id)
    case TakeInventory(id) => SealEnd(run, id)
    case StageManifest(sealed) => SealEnd(run, sealed.checkpoint)
    case LinkManifest(sealed, _) => SealEnd(run, sealed.checkpoint)
    case Unlink(id, _) => Ends(id)
    case Done(id) => Ends(id)
    case _ => Fails
  }

  lemma StoreKeeps(rules: Rules, store: map<Id, Tree>, run: RunDir, p: Process, path: string)
    requires Holds(rules, store, run, p)
    requires p.at.Validate? || p.at.ReadResult? || p.at.LookUp? || p.at.Reuse?
    ensures var (after, next) := Advance(rules, store, run, p, path);
            Verdict(rules, store, after, next) == Verdict(rules, store, run, p)
  {
  }

  lemma CopyKeeps(rules: Rules, store: map<Id, Tree>, run: RunDir, p: Process, path: string)
    requires Holds(rules, store, run, p) && (p.at.Copy? || p.at.WriteCheckpoint? || p.at.WriteManifest?)
    ensures var (after, next) := Advance(rules, store, run, p, path);
            Verdict(rules, store, after, next) == Verdict(rules, store, run, p)
  {
    if p.at.Copy? && p.at.todo == {} {
      assert p.temporary == run.staging;
    }
  }

  lemma CompleteKeepsVerdict(rules: Rules, store: map<Id, Tree>, run: RunDir, p: Process)
    requires p.at.Complete? || p.at.StageResult? || p.at.ReplaceResult? || p.at.TakeInventory? || p.at.StageManifest?
             || p.at.LinkManifest? || p.at.Unlink? || p.at.Failing?
    ensures var (after, next) := CompleteStep(run, p);
            Verdict(rules, store, after, next) == Verdict(rules, store, run, p)
  {
  }

  lemma AdvanceKeepsVerdict(rules: Rules, store: map<Id, Tree>, run: RunDir, p: Process, path: string)
    requires Holds(rules, store, run, p) && !p.at.Publish? && !Stopped(p.at)
    ensures var (after, next) := Advance(rules, store, run, p, path);
            Verdict(rules, store, after, next) == Verdict(rules, store, run, p)
  {
    if p.at.Validate? || p.at.ReadResult? || p.at.LookUp? || p.at.Reuse? {
      StoreKeeps(rules, store, run, p, path);
    } else if p.at.Copy? || p.at.WriteCheckpoint? || p.at.WriteManifest? {
      CopyKeeps(rules, store, run, p, path);
    } else {
      CompleteKeepsVerdict(rules, store, run, p);
    }
  }

  // ----- left alone -----

  function Now(rules: Rules, s: State, pid: Pid): Outcome
    requires pid in s.processes && s.processes[pid].run in s.runs
  {
    Verdict(rules, s.store, s.runs[s.processes[pid].run], s.processes[pid])
  }

  lemma PublishKeeps(rules: Rules, s: State, pid: Pid)
    requires pid in s.processes && s.processes[pid].run in s.runs && s.processes[pid].at.Publish?
    ensures var t := PublishStep(s, pid);
            && t.runs == s.runs && pid in t.processes && t.processes[pid].run == s.processes[pid].run
            && !t.processes[pid].at.Crashed? && Now(rules, t, pid) == Now(rules, s, pid)
  {
  }

  lemma StepOneKeeps(rules: Rules, s: State, pid: Pid, path: string)
    requires pid in s.processes && s.processes[pid].run in s.runs
    requires !Stopped(s.processes[pid].at) && !s.processes[pid].at.Publish?
    requires Holds(rules, s.store, s.runs[s.processes[pid].run], s.processes[pid])
    ensures var t := StepOne(rules, s, pid, path);
            && pid in t.processes && t.processes[pid].run == s.processes[pid].run && t.processes[pid].run in t.runs
            && !t.processes[pid].at.Crashed? && Now(rules, t, pid) == Now(rules, s, pid)
  {
    var p := s.processes[pid];
    AdvanceHolds(rules, s.store, s.runs[p.run], p, path);
    AdvanceKeepsVerdict(rules, s.store, s.runs[p.run], p, path);
    NotCrashed(rules, s.store, s.runs[p.run], p, path);
  }

  lemma NotCrashed(rules: Rules, store: map<Id, Tree>, run: RunDir, p: Process, path: string)
    requires !Stopped(p.at)
    ensures !Advance(rules, store, run, p, path).1.at.Crashed?
  {
  }

  /** Each of a finalizer's own steps keeps the verdict. */
  lemma StepKeeps(rules: Rules, s: State, pid: Pid, path: string)
    requires Safe(rules, s) && pid in s.processes
    ensures var t := Apply(rules, s, Step(pid, path));
            && Safe(rules, t) && pid in t.processes && t.processes[pid].run == s.processes[pid].run
            && Now(rules, t, pid) == Now(rules, s, pid)
            && (!s.processes[pid].at.Crashed? ==> !t.processes[pid].at.Crashed?)
  {
    ApplySafe(rules, s, Step(pid, path));
    var p := s.processes[pid];
    assert Holds(rules, s.store, s.runs[p.run], p);
    if p.at.Publish? {
      PublishKeeps(rules, s, pid);
    } else if !Stopped(p.at) {
      StepOneKeeps(rules, s, pid, path);
    }
  }

  /** Steps of one process, and nothing else. */
  function Steps(pid: Pid, paths: seq<string>): seq<Event> {
    if paths == [] then [] else [Step(pid, paths[0])] + Steps(pid, paths[1..])
  }

  lemma {:induction false} StepsKeep(rules: Rules, s: State, pid: Pid, paths: seq<string>)
    requires Safe(rules, s) && pid in s.processes
    ensures var t := Run(rules, s, Steps(pid, paths));
            && Safe(rules, t) && pid in t.processes && t.processes[pid].run == s.processes[pid].run
            && Now(rules, t, pid) == Now(rules, s, pid)
            && (!s.processes[pid].at.Crashed? ==> !t.processes[pid].at.Crashed?)
    decreases |paths|
  {
    if paths != [] {
      StepKeeps(rules, s, pid, paths[0]);
      StepsKeep(rules, Apply(rules, s, Step(pid, paths[0])), pid, paths[1..]);
      assert Steps(pid, paths)[1..] == Steps(pid, paths[1..]);
    }
  }

  // ----- it ends -----

  function Rank(at: Control): nat {
    if Stopped(at) then 0 else if at.Failing? then 1 else Remaining(at)
  }

  predicate Lower(a: Control, b: Control) {
    Rank(a) < Rank(b) || (Rank(a) == Rank(b) && Finalizer.Files(a) < Finalizer.Files(b))
  }

  lemma CopyLower(rules: Rules, store: map<Id, Tree>, run: RunDir, p: Process, path: string)
    requires p.at.Copy? && (p.at.todo != {} ==> path in p.at.todo && path in run.staging)
    ensures Lower(Advance(rules, store, run, p, path).1.at, p.at)
  {
    if p.at.todo != {} {
      assert p.at.todo == (p.at.todo - {path}) + {path};
    }
  }

  lemma OtherLower(rules: Rules, store: map<Id, Tree>, run: RunDir, p: Process, path: string)
    requires !Stopped(p.at) && !p.at.Publish? && !p.at.Copy?
    ensures Lower(Advance(rules, store, run, p, path).1.at, p.at)
  {
  }

  lemma PublishLower(s: State, pid: Pid)
    requires pid in s.processes && s.processes[pid].at.Publish?
    ensures Lower(PublishStep(s, pid).processes[pid].at, s.processes[pid].at)
  {
  }

  /** The step a finalizer takes next brings it nearer to its end. */
  lemma NextLower(rules: Rules, s: State, pid: Pid) returns (path: string)
    requires Safe(rules, s) && pid in s.processes && !Stopped(s.processes[pid].at)
    ensures var t := Apply(rules, s, Step(pid, path));
            pid in t.processes && Lower(t.processes[pid].at, s.processes[pid].at)
  {
    var p := s.processes[pid];
    assert Holds(rules, s.store, s.runs[p.run], p);
    path := "";
    if p.at.Copy? {
      if p.at.todo != {} {
        path :| path in p.at.todo;
      }
      CopyLower(rules, s.store, s.runs[p.run], p, path);
    } else if p.at.Publish? {
      PublishLower(s, pid);
    } else {
      OtherLower(rules, s.store, s.runs[p.run], p, path);
    }
  }

  lemma {:induction false} RunsOut(rules: Rules, s: State, pid: Pid) returns (paths: seq<string>)
    requires Safe(rules, s) && pid in s.processes
    ensures var t := Run(rules, s, Steps(pid, paths)); pid in t.processes && Stopped(t.processes[pid].at)
    decreases Rank(s.processes[pid].at), Finalizer.Files(s.processes[pid].at)
  {
    paths := [];
    if !Stopped(s.processes[pid].at) {
      var path := NextLower(rules, s, pid);
      StepKeeps(rules, s, pid, path);
      var rest := RunsOut(rules, Apply(rules, s, Step(pid, path)), pid);
      paths := [path] + rest;
      assert paths[1..] == rest && Steps(pid, paths)[1..] == Steps(pid, rest);
    }
  }

  /** Stopped where the outcome says. */
  predicate EndsAs(t: State, pid: Pid, outcome: Outcome)
    requires pid in t.processes
  {
    match outcome
    case Ends(id) => t.processes[pid].at == Done(id)
    case Fails => t.processes[pid].at.Failed?
  }

  ghost predicate Finishes(rules: Rules, s: State, pid: Pid, paths: seq<string>) {
    var t := Run(rules, s, Steps(pid, paths));
    pid in t.processes && Stopped(t.processes[pid].at)
  }

  /** Some steps of its own stop the finalizer, and whichever do, it ends with this outcome. */
  ghost predicate ComesTo(rules: Rules, s: State, pid: Pid, outcome: Outcome) {
    && (exists paths :: Finishes(rules, s, pid, paths))
    && (forall paths :: Finishes(rules, s, pid, paths) ==> EndsAs(Run(rules, s, Steps(pid, paths)), pid, outcome))
  }

  lemma StoppedEnds(rules: Rules, t: State, pid: Pid)
    requires pid in t.processes && t.processes[pid].run in t.runs
    requires Stopped(t.processes[pid].at) && !t.processes[pid].at.Crashed?
    ensures EndsAs(t, pid, Now(rules, t, pid))
  {
  }

  lemma EndsOneWay(rules: Rules, s: State, pid: Pid, paths: seq<string>)
    requires Safe(rules, s) && pid in s.processes && !s.processes[pid].at.Crashed? && Finishes(rules, s, pid, paths)
    ensures EndsAs(Run(rules, s, Steps(pid, paths)), pid, Now(rules, s, pid))
  {
    StepsKeep(rules, s, pid, paths);
    StoppedEnds(rules, Run(rules, s, Steps(pid, paths)), pid);
  }

  lemma VerdictHolds(rules: Rules, s: State, pid: Pid)
    requires Safe(rules, s) && pid in s.processes && !s.processes[pid].at.Crashed?
    ensures ComesTo(rules, s, pid, Now(rules, s, pid))
  {
    var outcome := Now(rules, s, pid);
    var some := RunsOut(rules, s, pid);
    assert Finishes(rules, s, pid, some);
    forall paths | Finishes(rules, s, pid, paths)
      ensures EndsAs(Run(rules, s, Steps(pid, paths)), pid, outcome)
    {
      EndsOneWay(rules, s, pid, paths);
    }
  }

  /**
   * A finalizer that begins in any state and is left alone stops, and however it does: it is done exactly when the
   * staged files are valid, and either the checkpoint of their ID is there and verifies, or it is not there and no
   * staged file collides with the two documents; and a run that has a manifest already verifies and points to that ID.
   */
  lemma FinalizerEnds(rules: Rules, s: State, pid: Pid)
    requires Safe(rules, s) && pid in s.processes && s.processes[pid].at.Validate?
    ensures ComesTo(rules, s, pid, WholeEnd(rules, s.store, s.runs[s.processes[pid].run]))
  {
    VerdictHolds(rules, s, pid);
  }

  /** One about to publish is done exactly when nobody has published before it and the run is fit to be completed. */
  lemma PublisherEnds(rules: Rules, s: State, pid: Pid)
    requires Safe(rules, s) && pid in s.processes && s.processes[pid].at.Publish?
    ensures var (id, run) := (s.processes[pid].at.id, s.runs[s.processes[pid].run]);
            ComesTo(rules, s, pid, if id in s.store then Fails else CompleteEnd(run, id))
  {
    VerdictHolds(rules, s, pid);
    if s.processes[pid].at.id in s.store {
      assert Bundle(rules, s.processes[pid].at.id, s.store[s.processes[pid].at.id]);
    }
  }

  // ----- what verifying finds out -----

  /** A complete bundle no longer verifies once a file of it is gone or has another digest. */
  lemma TamperedFails(rules: Rules, store: map<Id, Tree>, id: Id, tree: Tree, path: string)
    requires id in store && Bundle(rules, id, store[id]) && path in store[id] && path != MANIFEST
    requires MANIFEST in tree && tree[MANIFEST] == store[id][MANIFEST]
    requires path !in tree || rules.digest(tree[path]) != rules.digest(store[id][path])
    ensures !Verifies(rules, store[id := tree], id)
  {
    var files := tree[MANIFEST].files;
    assert path in files && files[path] == rules.digest((store[id] - {MANIFEST})[path]);
    assert !EntryHolds(rules, tree, files, path);
  }

  /** A completed run that verifies does so no longer once a finalizer of it has failed. */
  lemma FailureUnseals(run: RunDir, p: Process)
    requires RunVerifies(run) && run.result.status == Completed && p.at.Failing?
    ensures var (after, next) := CompleteStep(run, p);
            next.at.Failed? && after.result.status == Broken && !RunVerifies(after)
  {
    assert run.manifest.value.result == run.result;
  }

  /** An exception removes the temporary bundle and turns to failing the run; a crash leaves everything as it is. */
  lemma EndsWithoutPublishing(rules: Rules, s: State, pid: Pid)
    requires pid in s.processes && s.processes[pid].run in s.runs && !Stopped(s.processes[pid].at)
    ensures !s.processes[pid].at.Failing? ==>
              var raised := Apply(rules, s, Raise(pid));
              && raised.processes[pid].at.Failing? && raised.processes[pid].temporary == map[]
              && raised.store == s.store && raised.runs.Keys == s.runs.Keys
    ensures var crashed := Apply(rules, s, Crash(pid));
            && crashed.processes[pid] == s.processes[pid].(at := Crashed)
            && crashed.store == s.store && crashed.runs == s.runs
  {
  }

  // ----- temporary files -----

  /** Temporary files of a run that nobody is about to move or remove. */
  ghost predicate Stray(s: State, name: RunId, temp: Temp) {
    && name in s.runs && temp in s.runs[name].leftovers
    && forall pid :: pid in s.processes && s.processes[pid].run == name ==> temp !in Own(s.processes[pid].at)
  }

  lemma AdvanceLeaves(rules: Rules, store: map<Id, Tree>, run: RunDir, p: Process, path: string, temp: Temp)
    requires !p.at.Publish?
    ensures var (after, next) := Advance(rules, store, run, p, path);
            temp in after.leftovers && temp !in Own(next.at) ==> temp in run.leftovers && temp !in Own(p.at)
  {
  }

  /** Only a crash leaves a temporary file behind. */
  lemma CrashesStray(rules: Rules, s: State, e: Event, name: RunId, temp: Temp)
    requires !e.Crash? && Stray(Apply(rules, s, e), name, temp)
    ensures Stray(s, name, temp)
  {
    var t := Apply(rules, s, e);
    if (e.Step? || e.Raise?) && e.pid in s.processes && s.processes[e.pid].run in s.runs {
      StepStrays(rules, s, e, name, temp);
    } else if e.Start? && e.pid !in s.processes {
      forall pid | pid in s.processes && s.processes[pid].run == name
        ensures temp !in Own(s.processes[pid].at)
      {
        assert t.processes[pid] == s.processes[pid];
      }
    }
  }

  lemma StepStrays(rules: Rules, s: State, e: Event, name: RunId, temp: Temp)
    requires (e.Step? || e.Raise?) && e.pid in s.processes && s.processes[e.pid].run in s.runs
    requires Stray(Apply(rules, s, e), name, temp)
    ensures Stray(s, name, temp)
  {
    var t, p := Apply(rules, s, e), s.processes[e.pid];
    if e.Step? && !Stopped(p.at) && !p.at.Publish? {
      AdvanceLeaves(rules, s.store, s.runs[p.run], p, e.path, temp);
    }
    assert temp in s.runs[name].leftovers && (p.run == name ==> temp !in Own(p.at)) by {
      assert e.pid in t.processes && t.processes[e.pid].run == p.run;
    }
    forall pid | pid in s.processes && s.processes[pid].run == name
      ensures temp !in Own(s.processes[pid].at)
    {
      if pid != e.pid {
        assert t.processes[pid] == s.processes[pid];
      }
    }
  }

  /** Without crashes, whatever fails or is interrupted meanwhile, every stray temporary file was there before. */
  lemma {:induction false} NothingStrays(rules: Rules, s: State, events: seq<Event>, name: RunId, temp: Temp)
    requires forall i :: 0 <= i < |events| ==> !events[i].Crash?
    requires Stray(Run(rules, s, events), name, temp)
    ensures Stray(s, name, temp)
    decreases |events|
  {
    if events != [] {
      assert forall i :: 0 <= i < |events[1..]| ==> events[1..][i] == events[i + 1];
      NothingStrays(rules, Apply(rules, s, events[0]), events[1..], name, temp);
      CrashesStray(rules, s, events[0], name, temp);
    }
  }
}
