/** Finalizing training runs. */
module Finalizer {
  // Bundles are published by one rename, runs completed by a last manifest; crashes may come anywhere.

  import opened Results

  type Pid = nat
  type RunId = string
  type Id = string

  /** Name of a temporary file of `atomic_json`, drawn anew for each writing. */
  type Temp = nat

  /** A file as its readers see it: plain bytes, or one of the two JSON documents of a bundle. */
  datatype File =
    | Raw(bytes: string)
    | CheckpointFile(semantics: Semantics, id: Id, run: RunId)
    | ManifestFile(id: Id, files: Inventory)

  type Tree = map<string, File>

  /** Size and SHA-256 of each file, by path. */
  type Inventory = map<string, string>

  type Counts = map<string, int>

  datatype Plan = Plan(adapter: bool, scientific: string)

  /** Everything the checkpoint ID is derived from. */
  datatype Semantics = Semantics(plan: Plan, counts: Counts, content: Inventory)

  /**
   * What is not modelled: hashing, the ID of a document, the validation of staged weights, which paths are weight
   * files, and whether `inspect_safetensors` accepts one.
   */
  datatype Rules = Rules(
    digest: File -> string, name: Semantics -> Id, valid: (Plan, Tree) -> bool, weight: string -> bool,
    sound: File -> bool)
  {
    /** Validating a staged adapter inspects each of its weight files. */
    ghost predicate Inspects() {
      forall plan: Plan, tree: Tree :: plan.adapter && valid(plan, tree) ==> SoundWeights(this, tree)
    }
  }

  predicate SoundWeights(rules: Rules, tree: Tree) {
    forall path :: path in tree && rules.weight(path) ==> rules.sound(tree[path])
  }

  const CHECKPOINT := "checkpoint.json"
  const MANIFEST := "manifest.json"

  function InventoryOf(rules: Rules, tree: Tree): Inventory {
    map path | path in tree :: rules.digest(tree[path])
  }

  datatype RunStatus = Running | Completed | Broken

  /** `result.json` of a run. */
  datatype RunResult = RunResult(counts: Counts, status: RunStatus, checkpoint: Option<Id>)

  /** `manifest.json` of a run: the result it sealed, and the temporary files that were lying about. */
  datatype RunManifest = RunManifest(checkpoint: Id, result: RunResult, leftovers: set<Temp>)

  /** A run directory. `leftovers` are the temporary files lying in it, `unused` the first name never drawn. */
  datatype RunDir = RunDir(
    plan: Plan, staging: Tree, result: RunResult, manifest: Option<RunManifest>, leftovers: set<Temp>, unused: Temp)
  {
    predicate Named() {
      forall temp :: temp in leftovers ==> temp < unused
    }
  }

  datatype Control =
    | Validate
    | ReadResult
    | LookUp(staged: RunResult, id: Id)
    | Reuse(staged: RunResult, id: Id)
    | Copy(staged: RunResult, id: Id, todo: set<string>)
    | WriteCheckpoint(staged: RunResult, id: Id)
    | WriteManifest(staged: RunResult, id: Id)
    | Publish(staged: RunResult, id: Id)
    | Complete(staged: RunResult, id: Id)
    | StageResult(staged: RunResult, id: Id)
    | ReplaceResult(staged: RunResult, id: Id, temp: Temp)
    | TakeInventory(id: Id)
    | StageManifest(sealed: RunManifest)
    | LinkManifest(sealed: RunManifest, temp: Temp)
    | Unlink(id: Id, temp: Temp)
    | Done(id: Id)
    | Failing
    | Failed
    | Crashed

  datatype Process = Process(run: RunId, at: Control, temporary: Tree)

  datatype State = State(store: map<Id, Tree>, runs: map<RunId, RunDir>, processes: map<Pid, Process>)

  datatype Event = Start(pid: Pid, run: RunId) | Step(pid: Pid, path: string) | Raise(pid: Pid) | Crash(pid: Pid)

  predicate Stopped(at: Control) {
    at.Done? || at.Failed? || at.Crashed?
  }

  /** The temporary file a process is about to move, or to remove. */
  function Own(at: Control): set<Temp> {
    match at
    case ReplaceResult(_, _, temp) => {temp}
    case LinkManifest(_, temp) => {temp}
    case Unlink(_, temp) => {temp}
    case _ => {}
  }

  // ----- verifying -----

  predicate EntryHolds(rules: Rules, tree: Tree, files: Inventory, path: string)
    requires path in files
  {
    path in tree && rules.digest(tree[path]) == files[path]
  }

  function Weights(rules: Rules, tree: Tree): set<string> {
    set path | path in tree && rules.weight(path)
  }

  /** `CheckpointBundleStore.verify` */
  predicate Verifies(rules: Rules, store: map<Id, Tree>, id: Id) {
    && id in store && MANIFEST in store[id] && store[id][MANIFEST].ManifestFile?
    && (forall path :: path in store[id][MANIFEST].files ==>
           EntryHolds(rules, store[id], store[id][MANIFEST].files, path))
    && CHECKPOINT in store[id] && store[id][CHECKPOINT].CheckpointFile?
    && (store[id][CHECKPOINT].semantics.plan.adapter ==>
          |Weights(rules, store[id])| == 1 && SoundWeights(rules, store[id]))
  }

  /** `TrainingRunStore.verify` of a run with a manifest. */
  predicate RunVerifies(run: RunDir) {
    run.manifest.Some? && run.manifest.value.result == run.result && run.manifest.value.leftovers <= run.leftovers
  }

  // ----- one step -----

  function SemanticsOf(rules: Rules, run: RunDir, staged: RunResult): Semantics {
    Semantics(run.plan, staged.counts, InventoryOf(rules, run.staging))
  }

  function Sealed(staged: RunResult, id: Id): RunResult {
    staged.(status := Completed, checkpoint := Some(id))
  }

  /** A temporary file is written under a name of its own. */
  function Draw(run: RunDir): RunDir {
    run.(leftovers := run.leftovers + {run.unused}, unused := run.unused + 1)
  }

  /** Where a process goes next, and what becomes of its run; publishing is `PublishStep`. */
  function Advance(rules: Rules, store: map<Id, Tree>, run: RunDir, p: Process, path: string)
    : (RunDir, Process)
  {
    match p.at
    case Validate => (run, p.(at := if rules.valid(run.plan, run.staging) then ReadResult else Failing))
    case ReadResult => (run, p.(at := LookUp(run.result, rules.name(SemanticsOf(rules, run, run.result)))))
    case LookUp(staged, id) =>
      (run, if id in store then p.(at := Reuse(staged, id))
            else p.(at := Copy(staged, id, run.staging.Keys), temporary := map[]))
    case Reuse(staged, id) => (run, p.(at := if Verifies(rules, store, id) then Complete(staged, id) else Failing))
    case Copy(staged, id, todo) =>
      (run, if todo == {} then p.(at := WriteCheckpoint(staged, id))
            else if path in todo && path in run.staging
            then p.(at := Copy(staged, id, todo - {path}), temporary := p.temporary[path := run.staging[path]])
            else p)
    case WriteCheckpoint(staged, id) =>
      (run, if CHECKPOINT in p.temporary then p.(at := Failing)
            else p.(at := WriteManifest(staged, id),
                    temporary := p.temporary[CHECKPOINT := CheckpointFile(SemanticsOf(rules, run, staged), id, p.run)]))
    case WriteManifest(staged, id) =>
      (run, if MANIFEST in p.temporary then p.(at := Failing)
            else p.(at := Publish(staged, id),
                    temporary := p.temporary[MANIFEST := ManifestFile(id, InventoryOf(rules, p.temporary))]))
    case _ => CompleteStep(run, p)
  }

  /** `_complete_run`, write by write. */
  function CompleteStep(run: RunDir, p: Process): (RunDir, Process) {
    match p.at
    case Complete(staged, id) =>
      if run.manifest.None? then (run, p.(at := StageResult(staged, id)))
      else (run, p.(at := if RunVerifies(run) && run.result.checkpoint == Some(id) then Done(id) else Failing))
    case StageResult(staged, id) => (Draw(run), p.(at := ReplaceResult(staged, id, run.unused)))
    case ReplaceResult(staged, id, temp) =>
      (run.(result := Sealed(staged, id), leftovers := run.leftovers - {temp}), p.(at := TakeInventory(id)))
    case TakeInventory(id) => (run, p.(at := StageManifest(RunManifest(id, run.result, run.leftovers))))
    case StageManifest(sealed) => (Draw(run), p.(at := LinkManifest(sealed, run.unused)))
    case LinkManifest(sealed, temp) =>
      if run.manifest.Some? then (run.(leftovers := run.leftovers - {temp}), p.(at := Failing))
      else (run.(manifest := Some(sealed)), p.(at := Unlink(sealed.checkpoint, temp)))
    case Unlink(id, temp) => (run.(leftovers := run.leftovers - {temp}), p.(at := Done(id)))
    case Failing => (run.(result := RunResult(map[], Broken, None)), p.(at := Failed))
    case _ => (run, p)
  }

  /** `os.replace` onto the final path: refused when a non-empty directory is there. */
  function PublishStep(s: State, pid: Pid): State
    requires pid in s.processes && s.processes[pid].at.Publish?
  {
    var p := s.processes[pid];
    if p.at.id in s.store && s.store[p.at.id] != map[]
    then s.(processes := s.processes[pid := p.(at := Failing, temporary := map[])])
    else s.(store := s.store[p.at.id := p.temporary],
            processes := s.processes[pid := p.(at := Complete(p.at.staged, p.at.id), temporary := map[])])
  }

  function StepOne(rules: Rules, s: State, pid: Pid, path: string): State
    requires pid in s.processes && s.processes[pid].run in s.runs
  {
    var p := s.processes[pid];
    if Stopped(p.at) then s
    else if p.at.Publish? then PublishStep(s, pid)
    else
      var (run, next) := Advance(rules, s.store, s.runs[p.run], p, path);
      s.(runs := s.runs[p.run := run], processes := s.processes[pid := next])
  }

  /** An exception: the temporary bundle is removed, and so is a temporary file being written. */
  function RaiseOne(s: State, pid: Pid): State
    requires pid in s.processes && s.processes[pid].run in s.runs
  {
    var p := s.processes[pid];
    var run := s.runs[p.run];
    s.(runs := s.runs[p.run := run.(leftovers := run.leftovers - Own(p.at))],
       processes := s.processes[pid := p.(at := Failing, temporary := map[])])
  }

  function Apply(rules: Rules, s: State, e: Event): State {
    match e
    case Start(pid, run) =>
      if pid in s.processes || run !in s.runs then s
      else s.(processes := s.processes[pid := Process(run, Validate, map[])])
    case Step(pid, path) =>
      if pid in s.processes && s.processes[pid].run in s.runs then StepOne(rules, s, pid, path) else s
    case Raise(pid) =>
      if pid in s.processes && s.processes[pid].run in s.runs && !Stopped(s.processes[pid].at)
         && !s.processes[pid].at.Failing?
      then RaiseOne(s, pid)
      else s
    case Crash(pid) =>
      if pid in s.processes && !Stopped(s.processes[pid].at)
      then s.(processes := s.processes[pid := s.processes[pid].(at := Crashed)])
      else s
  }

  function Run(rules: Rules, s: State, events: seq<Event>): State
    decreases |events|
  {
    if events == [] then s else Run(rules, Apply(rules, s, events[0]), events[1..])
  }

  // ----- what is visible is complete -----

  /** The staged files of a bundle, without its two documents. */
  function Content(tree: Tree): Tree {
    tree - {CHECKPOINT, MANIFEST}
  }

  ghost predicate Bundle(rules: Rules, id: Id, tree: Tree) {
    && MANIFEST in tree && tree[MANIFEST].ManifestFile? && tree[MANIFEST].id == id
    && tree[MANIFEST].files == InventoryOf(rules, tree - {MANIFEST})
    && CHECKPOINT in tree && tree[CHECKPOINT].CheckpointFile? && tree[CHECKPOINT].id == id
    && var semantics := tree[CHECKPOINT].semantics;
    && rules.name(semantics) == id && semantics.content == InventoryOf(rules, Content(tree))
    && rules.valid(semantics.plan, Content(tree))
  }

  function WithCheckpoint(rules: Rules, run: RunDir, staged: RunResult, id: Id, name: RunId): Tree {
    run.staging[CHECKPOINT := CheckpointFile(SemanticsOf(rules, run, staged), id, name)]
  }

  function Whole(rules: Rules, run: RunDir, staged: RunResult, id: Id, name: RunId): Tree {
    var tree := WithCheckpoint(rules, run, staged, id, name);
    tree[MANIFEST := ManifestFile(id, InventoryOf(rules, tree))]
  }

  /** What a process has established about the bundle it is working on. */
  ghost predicate Works(rules: Rules, run: RunDir, staged: RunResult, id: Id) {
    rules.valid(run.plan, run.staging) && id == rules.name(SemanticsOf(rules, run, staged))
  }

  ghost predicate Holds(rules: Rules, store: map<Id, Tree>, run: RunDir, p: Process) {
    match p.at
    case ReadResult => rules.valid(run.plan, run.staging)
    case LookUp(staged, id) => Works(rules, run, staged, id)
    case Reuse(staged, id) => Works(rules, run, staged, id) && id in store
    case Copy(staged, id, todo) =>
      && Works(rules, run, staged, id) && todo <= run.staging.Keys
      && p.temporary.Keys == run.staging.Keys - todo
      && forall path :: path in p.temporary ==> p.temporary[path] == run.staging[path]
    case WriteCheckpoint(staged, id) => Works(rules, run, staged, id) && p.temporary == run.staging
    case WriteManifest(staged, id) =>
      && Works(rules, run, staged, id) && CHECKPOINT !in run.staging
      && p.temporary == WithCheckpoint(rules, run, staged, id, p.run)
    case Publish(staged, id) =>
      && Works(rules, run, staged, id) && CHECKPOINT !in run.staging && MANIFEST !in run.staging
      && p.temporary == Whole(rules, run, staged, id, p.run)
    case Complete(staged, id) => id in store
    case StageResult(staged, id) => id in store
    case ReplaceResult(_, id, _) => id in store
    case TakeInventory(id) => id in store
    case StageManifest(sealed) => sealed.checkpoint in store
    case LinkManifest(sealed, _) => sealed.checkpoint in store
    case Unlink(id, _) => id in store
    case Done(id) => id in store
    case _ => true
  }

  ghost predicate Safe(rules: Rules, s: State) {
    && (forall id :: id in s.store ==> Bundle(rules, id, s.store[id]))
    && forall pid :: pid in s.processes ==>
         s.processes[pid].run in s.runs && Holds(rules, s.store, s.runs[s.processes[pid].run], s.processes[pid])
  }

  /** What never changes about a run. */
  predicate SameSource(a: RunDir, b: RunDir) {
    a.plan == b.plan && a.staging == b.staging
  }

  lemma WholeIsBundle(rules: Rules, run: RunDir, staged: RunResult, id: Id, name: RunId)
    requires Works(rules, run, staged, id) && CHECKPOINT !in run.staging && MANIFEST !in run.staging
    ensures Bundle(rules, id, Whole(rules, run, staged, id, name))
  {
    var whole := Whole(rules, run, staged, id, name);
    assert whole - {MANIFEST} == WithCheckpoint(rules, run, staged, id, name);
    assert Content(whole) == run.staging;
  }

  /** Knowledge survives other processes: the store only gains bundles, and sources do not change. */
  lemma HoldsStays(rules: Rules, store: map<Id, Tree>, later: map<Id, Tree>, run: RunDir, after: RunDir, p: Process)
    requires Holds(rules, store, run, p) && SameSource(run, after) && store.Keys <= later.Keys
    ensures Holds(rules, later, after, p)
  {
  }

  lemma AdvanceHolds(
      rules: Rules, store: map<Id, Tree>, run: RunDir, p: Process, path: string)
    requires Holds(rules, store, run, p) && !p.at.Publish?
    ensures var (after, next) := Advance(rules, store, run, p, path);
            SameSource(run, after) && next.run == p.run && Holds(rules, store, after, next)
  {
    match p.at
    case Copy(staged, id, todo) =>
      if todo == {} {
        assert p.temporary == run.staging;
      }
    case _ =>
  }

  lemma PublishSafe(rules: Rules, s: State, pid: Pid)
    requires Safe(rules, s) && pid in s.processes && s.processes[pid].at.Publish?
    ensures Safe(rules, PublishStep(s, pid))
    ensures forall id :: id in s.store ==>
              id in PublishStep(s, pid).store && PublishStep(s, pid).store[id] == s.store[id]
  {
    var p := s.processes[pid];
    var after := PublishStep(s, pid);
    WholeIsBundle(rules, s.runs[p.run], p.at.staged, p.at.id, p.run);
    forall q | q in after.processes
      ensures after.processes[q].run in after.runs
      ensures Holds(rules, after.store, after.runs[after.processes[q].run], after.processes[q])
    {
      if q != pid {
        var run := s.runs[s.processes[q].run];
        HoldsStays(rules, s.store, after.store, run, run, s.processes[q]);
      }
    }
  }

  lemma ApplySafe(rules: Rules, s: State, e: Event)
    requires Safe(rules, s)
    ensures Safe(rules, Apply(rules, s, e))
    ensures forall id :: id in s.store ==> id in Apply(rules, s, e).store && Apply(rules, s, e).store[id] == s.store[id]
  {
    if e.Step? && e.pid in s.processes && !Stopped(s.processes[e.pid].at) {
      var p := s.processes[e.pid];
      if p.at.Publish? {
        PublishSafe(rules, s, e.pid);
      } else {
        StepSafe(rules, s, e.pid, e.path);
      }
    }
    if e.Raise? && e.pid in s.processes && !Stopped(s.processes[e.pid].at) && !s.processes[e.pid].at.Failing? {
      RaiseSafe(rules, s, e.pid);
    }
  }

  lemma RaiseSafe(rules: Rules, s: State, pid: Pid)
    requires Safe(rules, s) && pid in s.processes
    ensures Safe(rules, RaiseOne(s, pid))
  {
    var after := RaiseOne(s, pid);
    forall q | q in after.processes
      ensures after.processes[q].run in after.runs
      ensures Holds(rules, after.store, after.runs[after.processes[q].run], after.processes[q])
    {
      if q != pid {
        HoldsStays(
          rules, s.store, after.store, s.runs[s.processes[q].run], after.runs[s.processes[q].run], s.processes[q]);
      }
    }
  }

  lemma StepSafe(rules: Rules, s: State, pid: Pid, path: string)
    requires Safe(rules, s) && pid in s.processes
    requires !Stopped(s.processes[pid].at) && !s.processes[pid].at.Publish?
    ensures Safe(rules, StepOne(rules, s, pid, path)) && StepOne(rules, s, pid, path).store == s.store
  {
    var p := s.processes[pid];
    var (run, next) := Advance(rules, s.store, s.runs[p.run], p, path);
    AdvanceHolds(rules, s.store, s.runs[p.run], p, path);
    var after := StepOne(rules, s, pid, path);
    forall q | q in after.processes
      ensures after.processes[q].run in after.runs
      ensures Holds(rules, after.store, after.runs[after.processes[q].run], after.processes[q])
    {
      if q != pid {
        HoldsStays(
          rules, s.store, after.store, s.runs[s.processes[q].run], after.runs[s.processes[q].run], s.processes[q]);
      }
    }
  }

  lemma {:induction false} RunSafe(rules: Rules, s: State, events: seq<Event>)
    requires Safe(rules, s)
    ensures Safe(rules, Run(rules, s, events))
    ensures forall id :: id in s.store ==>
              id in Run(rules, s, events).store && Run(rules, s, events).store[id] == s.store[id]
    decreases |events|
  {
    if events != [] {
      ApplySafe(rules, s, events[0]);
      RunSafe(rules, Apply(rules, s, events[0]), events[1..]);
    }
  }

  /** A complete bundle verifies, unless it is an adapter with other than one weight file. */
  lemma BundleVerifies(rules: Rules, store: map<Id, Tree>, id: Id)
    requires rules.Inspects() && !rules.weight(CHECKPOINT) && !rules.weight(MANIFEST)
    requires id in store && Bundle(rules, id, store[id])
    ensures Verifies(rules, store, id) <==>
            (store[id][CHECKPOINT].semantics.plan.adapter ==> |Weights(rules, store[id])| == 1)
  {
    var tree := store[id];
    var semantics := tree[CHECKPOINT].semantics;
    forall path | path in tree[MANIFEST].files
      ensures EntryHolds(rules, tree, tree[MANIFEST].files, path)
    {
    }
    if semantics.plan.adapter {
      assert SoundWeights(rules, Content(tree));
      forall path | path in tree && rules.weight(path)
        ensures rules.sound(tree[path])
      {
        assert path in Content(tree) && Content(tree)[path] == tree[path];
      }
    }
  }

  /**
   * At every moment of every interleaving of finalizers, with failures and crashes, each visible checkpoint is
   * complete: its manifest lists exactly its bytes, its ID is that of its document, it never changes again, and
   * `verify` accepts it exactly when it is not an adapter with other than one weight file.
   */
  lemma VisibleIsComplete(rules: Rules, s: State, before: seq<Event>, after: seq<Event>, id: Id)
    requires rules.Inspects() && !rules.weight(CHECKPOINT) && !rules.weight(MANIFEST)
    requires s.processes == map[] && forall old' :: old' in s.store ==> Bundle(rules, old', s.store[old'])
    requires id in Run(rules, s, before).store
    ensures var store, later := Run(rules, s, before).store, Run(rules, Run(rules, s, before), after).store;
            && Bundle(rules, id, store[id]) && id in later && later[id] == store[id]
            && (Verifies(rules, store, id) <==>
                  (store[id][CHECKPOINT].semantics.plan.adapter ==> |Weights(rules, store[id])| == 1))
  {
    RunSafe(rules, s, before);
    RunSafe(rules, Run(rules, s, before), after);
    BundleVerifies(rules, Run(rules, s, before).store, id);
  }

  // ----- retrying -----

  /** The ID a run gets while its parameter counts are these. */
  function IdFor(rules: Rules, run: RunDir, counts: Counts): Id {
    rules.name(Semantics(run.plan, counts, InventoryOf(rules, run.staging)))
  }

  /** What the one finalizer of a run has established about it, however far it got. */
  predicate Keeps(rules: Rules, run: RunDir, p: Process, counts: Counts) {
    && (run.manifest.Some? ==> Own(p.at) !! run.manifest.value.leftovers)
    && Tracks(rules, run, p, counts)
  }

  predicate Tracks(rules: Rules, run: RunDir, p: Process, counts: Counts) {
    var id0 := IdFor(rules, run, counts);
    match p.at
    case LookUp(staged, id) => id == id0 && staged.counts == counts
    case Reuse(staged, id) => id == id0 && staged.counts == counts
    case Copy(staged, id, _) => id == id0 && staged.counts == counts
    case WriteCheckpoint(staged, id) => id == id0 && staged.counts == counts
    case WriteManifest(staged, id) => id == id0 && staged.counts == counts
    case Publish(staged, id) => id == id0 && staged.counts == counts
    case Complete(staged, id) => id == id0 && staged.counts == counts
    case StageResult(staged, id) => id == id0 && staged.counts == counts && run.manifest.None?
    case ReplaceResult(staged, id, _) => id == id0 && staged.counts == counts && run.manifest.None?
    case TakeInventory(id) => id == id0 && run.manifest.None? && Finished(run, id)
    case StageManifest(sealed) => Matching(run, sealed, id0)
    case LinkManifest(sealed, temp) => Matching(run, sealed, id0) && temp !in sealed.leftovers
    case Unlink(id, _) => id == id0 && run.manifest.Some?
    case Done(id) => id == id0 && run.manifest.Some?
    case _ => true
  }

  predicate Matching(run: RunDir, sealed: RunManifest, id: Id) {
    && sealed.checkpoint == id && run.manifest.None? && sealed.result == run.result
    && Finished(run, id) && sealed.leftovers <= run.leftovers
  }

  /** `result.json` says the run is completed with this checkpoint. */
  predicate Finished(run: RunDir, id: Id) {
    run.result.status == Completed && run.result.checkpoint == Some(id)
  }

  /** A run that is complete verifies, and points to its checkpoint. */
  predicate RunOrderly(rules: Rules, run: RunDir, counts: Counts) {
    && run.result.counts == counts && run.Named()
    && (run.manifest.Some? ==> RunVerifies(run) && Finished(run, IdFor(rules, run, counts)))
  }

  predicate AtWork(s: State, pid: Pid, name: RunId) {
    pid in s.processes && s.processes[pid].run == name && !Stopped(s.processes[pid].at)
  }

  /** At most one finalizer of this run is at work; those that ended stay as they are. */
  ghost predicate Alone(s: State, name: RunId) {
    forall p, q :: AtWork(s, p, name) && AtWork(s, q, name) ==> p == q
  }

  ghost predicate Orderly(rules: Rules, s: State, name: RunId, counts: Counts) {
    && name in s.runs && RunOrderly(rules, s.runs[name], counts)
    && forall pid :: pid in s.processes && s.processes[pid].run == name ==>
         Keeps(rules, s.runs[name], s.processes[pid], counts)
  }

  lemma CompleteKeeps(rules: Rules, run: RunDir, p: Process, counts: Counts)
    requires RunOrderly(rules, run, counts) && Keeps(rules, run, p, counts) && !p.at.Failing?
    ensures var (after, next) := CompleteStep(run, p);
            && RunOrderly(rules, after, counts) && Keeps(rules, after, next, counts)
            && SameSource(run, after)
  {
  }

  lemma AdvanceKeeps(
      rules: Rules, store: map<Id, Tree>, run: RunDir, p: Process, path: string, counts: Counts)
    requires RunOrderly(rules, run, counts) && Keeps(rules, run, p, counts)
    requires !p.at.Publish? && !p.at.Failing?
    ensures var (after, next) := Advance(rules, store, run, p, path);
            RunOrderly(rules, after, counts) && Keeps(rules, after, next, counts) && SameSource(run, after)
  {
    match p.at
    case Validate =>
    case ReadResult =>
    case LookUp(_, _) =>
    case Reuse(_, _) =>
    case Copy(_, _, _) =>
    case WriteCheckpoint(_, _) =>
    case WriteManifest(_, _) =>
    case _ => CompleteKeeps(rules, run, p, counts);
  }

  /** The run's `fail` has not been called in this step. */
  predicate Spared(s: State, e: Event, name: RunId) {
    !(e.Step? && AtWork(s, e.pid, name) && s.processes[e.pid].at.Failing?)
  }

  /** The run after one event: orderly, the same sources, and its leftovers belong to processes. */
  lemma RunStaysOrderly(rules: Rules, s: State, e: Event, name: RunId, counts: Counts)
    requires Orderly(rules, s, name, counts) && Spared(s, e, name)
    ensures var after := Apply(rules, s, e);
            && name in after.runs && SameSource(s.runs[name], after.runs[name])
            && RunOrderly(rules, after.runs[name], counts)
  {
    if e.Step? && AtWork(s, e.pid, name) && !s.processes[e.pid].at.Publish? {
      AdvanceKeeps(rules, s.store, s.runs[name], s.processes[e.pid], e.path, counts);
    }
  }

  lemma MoverKeeps(rules: Rules, s: State, pid: Pid, path: string, name: RunId, counts: Counts)
    requires Orderly(rules, s, name, counts) && Spared(s, Step(pid, path), name)
    requires pid in s.processes && s.processes[pid].run == name
    ensures var after := Apply(rules, s, Step(pid, path));
            name in after.runs && Keeps(rules, after.runs[name], after.processes[pid], counts)
  {
    if AtWork(s, pid, name) && !s.processes[pid].at.Publish? {
      AdvanceKeeps(rules, s.store, s.runs[name], s.processes[pid], path, counts);
    }
  }

  lemma NewcomerKeeps(rules: Rules, s: State, e: Event, name: RunId, counts: Counts)
    requires Orderly(rules, s, name, counts) && e.Start? && e.pid !in s.processes && e.run == name
    ensures Keeps(rules, s.runs[name], Process(name, Validate, map[]), counts)
  {
  }

  lemma ApplyOrderly(rules: Rules, s: State, e: Event, name: RunId, counts: Counts)
    requires Orderly(rules, s, name, counts) && Alone(s, name) && Spared(s, e, name)
    ensures Orderly(rules, Apply(rules, s, e), name, counts)
    ensures SameSource(s.runs[name], Apply(rules, s, e).runs[name])
  {
    var after := Apply(rules, s, e);
    RunStaysOrderly(rules, s, e, name, counts);
    forall pid | pid in after.processes && after.processes[pid].run == name
      ensures Keeps(rules, after.runs[name], after.processes[pid], counts)
    {
      if pid !in s.processes {
        NewcomerKeeps(rules, s, e, name, counts);
      } else if e.Step? && e.pid == pid {
        MoverKeeps(rules, s, pid, e.path, name, counts);
      } else {
        Unaffected(rules, s, e, name, pid, counts);
      }
    }
  }

  /** A process of the run that did not move knows what it knew. */
  lemma Unaffected(rules: Rules, s: State, e: Event, name: RunId, pid: Pid, counts: Counts)
    requires Orderly(rules, s, name, counts) && Alone(s, name) && Spared(s, e, name)
    requires pid in s.processes && s.processes[pid].run == name && !(e.Step? && e.pid == pid)
    requires SameSource(s.runs[name], Apply(rules, s, e).runs[name])
    ensures Keeps(rules, Apply(rules, s, e).runs[name], Apply(rules, s, e).processes[pid], counts)
  {
    if AtWork(s, pid, name) {
      assert !AtWork(s, e.pid, name) || e.pid == pid;
    }
  }

  /** One finalizer of this run at a time, and `fail` not called for it; everything else may happen. */
  ghost predicate Calm(rules: Rules, s: State, events: seq<Event>, name: RunId)
    decreases |events|
  {
    events == []
    || (Alone(s, name) && Spared(s, events[0], name) && Calm(rules, Apply(rules, s, events[0]), events[1..], name))
  }

  lemma {:induction false} CalmRun(rules: Rules, s: State, events: seq<Event>, name: RunId, counts: Counts)
    requires Orderly(rules, s, name, counts) && Calm(rules, s, events, name)
    ensures Orderly(rules, Run(rules, s, events), name, counts)
    ensures SameSource(s.runs[name], Run(rules, s, events).runs[name])
    decreases |events|
  {
    if events != [] {
      ApplyOrderly(rules, s, events[0], name, counts);
      CalmRun(rules, Apply(rules, s, events[0]), events[1..], name, counts);
    }
  }

  /** The run can be finalized: its staged files are valid, collide with no document, and hold one weight file. */
  ghost predicate Finalizable(rules: Rules, run: RunDir) {
    && rules.Inspects() && !rules.weight(CHECKPOINT) && !rules.weight(MANIFEST)
    && rules.valid(run.plan, run.staging) && CHECKPOINT !in run.staging && MANIFEST !in run.staging
    && (run.plan.adapter ==> |Weights(rules, run.staging)| == 1)
  }

  /** A finalizer left to itself: what it is about to publish is not there yet, what it reuses verifies. */
  ghost predicate Clear(rules: Rules, store: map<Id, Tree>, id0: Id, at: Control) {
    match at
    case Reuse(_, _) => true
    case Copy(_, _, _) => id0 !in store
    case WriteCheckpoint(_, _) => id0 !in store
    case WriteManifest(_, _) => id0 !in store
    case Publish(_, _) => id0 !in store
    case Failing => false
    case Failed => false
    case Crashed => false
    case _ => true
  }

  ghost predicate Ready(rules: Rules, s: State, name: RunId, pid: Pid, counts: Counts) {
    && Safe(rules, s) && Orderly(rules, s, name, counts) && Alone(s, name) && Finalizable(rules, s.runs[name])
    && pid in s.processes && s.processes[pid].run == name
    && (IdFor(rules, s.runs[name], counts) in s.store ==> Verifies(rules, s.store, IdFor(rules, s.runs[name], counts)))
    && Clear(rules, s.store, IdFor(rules, s.runs[name], counts), s.processes[pid].at)
  }

  function Remaining(at: Control): nat {
    match at
    case Validate => 15
    case ReadResult => 14
    case LookUp(_, _) => 13
    case Copy(_, _, _) => 12
    case WriteCheckpoint(_, _) => 11
    case WriteManifest(_, _) => 10
    case Publish(_, _) => 9
    case Reuse(_, _) => 9
    case Complete(_, _) => 8
    case StageResult(_, _) => 7
    case ReplaceResult(_, _, _) => 6
    case TakeInventory(_) => 5
    case StageManifest(_) => 4
    case LinkManifest(_, _) => 3
    case Unlink(_, _) => 2
    case _ => 1
  }

  function Files(at: Control): nat {
    if at.Copy? then |at.todo| else 0
  }

  /** What a published bundle of this run adds to the store verifies. */
  lemma OwnBundleVerifies(rules: Rules, s: State, name: RunId, pid: Pid, counts: Counts)
    requires Ready(rules, s, name, pid, counts) && s.processes[pid].at.Publish?
    ensures Verifies(rules, PublishStep(s, pid).store, s.processes[pid].at.id)
  {
    var p := s.processes[pid];
    var after := PublishStep(s, pid);
    PublishSafe(rules, s, pid);
    BundleVerifies(rules, after.store, p.at.id);
    var whole := after.store[p.at.id];
    forall path
      ensures path in Weights(rules, whole) <==> path in Weights(rules, s.runs[name].staging)
    {
    }
    assert Weights(rules, whole) == Weights(rules, s.runs[name].staging);
  }

  /** The step of a finalizer left to itself does not fail. */
  lemma StepClear(
      rules: Rules, store: map<Id, Tree>, run: RunDir, p: Process, path: string, counts: Counts)
    requires Finalizable(rules, run) && RunOrderly(rules, run, counts)
    requires Holds(rules, store, run, p) && Keeps(rules, run, p, counts)
    requires IdFor(rules, run, counts) in store ==> Verifies(rules, store, IdFor(rules, run, counts))
    requires Clear(rules, store, IdFor(rules, run, counts), p.at) && !Stopped(p.at) && !p.at.Publish?
    requires p.at.Copy? && p.at.todo != {} ==> path in p.at.todo
    ensures var next := Advance(rules, store, run, p, path).1;
            && Clear(rules, store, IdFor(rules, run, counts), next.at)
            && (Remaining(next.at) < Remaining(p.at)
                || (Remaining(next.at) == Remaining(p.at) && Files(next.at) < Files(p.at)))
  {
  }

  lemma StepReady(rules: Rules, s: State, name: RunId, pid: Pid, path: string, counts: Counts)
    requires Ready(rules, s, name, pid, counts) && !Stopped(s.processes[pid].at)
    requires s.processes[pid].at.Copy? && s.processes[pid].at.todo != {} ==> path in s.processes[pid].at.todo
    ensures var after := Apply(rules, s, Step(pid, path));
            && Ready(rules, after, name, pid, counts) && SameSource(s.runs[name], after.runs[name])
            && (Remaining(after.processes[pid].at) < Remaining(s.processes[pid].at)
                || (Remaining(after.processes[pid].at) == Remaining(s.processes[pid].at)
                    && Files(after.processes[pid].at) < Files(s.processes[pid].at)))
  {
    var e := Step(pid, path);
    ApplySafe(rules, s, e);
    ApplyOrderly(rules, s, e, name, counts);
    StillAlone(rules, s, pid, path, name);
    if s.processes[pid].at.Publish? {
      assert Keeps(rules, s.runs[name], s.processes[pid], counts);
      OwnBundleVerifies(rules, s, name, pid, counts);
    } else {
      var p := s.processes[pid];
      assert Holds(rules, s.store, s.runs[name], p) && Keeps(rules, s.runs[name], p, counts);
      StepClear(rules, s.store, s.runs[name], p, path, counts);
    }
  }

  lemma StillAlone(rules: Rules, s: State, pid: Pid, path: string, name: RunId)
    requires Alone(s, name)
    ensures Alone(Apply(rules, s, Step(pid, path)), name)
  {
    var after := Apply(rules, s, Step(pid, path));
    forall p, q | AtWork(after, p, name) && AtWork(after, q, name)
      ensures p == q
    {
      assert AtWork(s, p, name) && AtWork(s, q, name);
    }
  }

  /** A finalizer left to itself completes its run. */
  lemma {:induction false} Finish(rules: Rules, s: State, name: RunId, pid: Pid, counts: Counts)
    returns (events: seq<Event>)
    requires Ready(rules, s, name, pid, counts)
    ensures var done := Run(rules, s, events);
            && Ready(rules, done, name, pid, counts) && SameSource(s.runs[name], done.runs[name])
            && done.processes[pid].at == Done(IdFor(rules, s.runs[name], counts))
    decreases Remaining(s.processes[pid].at), Files(s.processes[pid].at)
  {
    if Stopped(s.processes[pid].at) {
      events := [];
      assert Keeps(rules, s.runs[name], s.processes[pid], counts);
    } else {
      var path := "";
      if s.processes[pid].at.Copy? && s.processes[pid].at.todo != {} {
        path :| path in s.processes[pid].at.todo;
      }
      StepReady(rules, s, name, pid, path, counts);
      var rest := Finish(rules, Apply(rules, s, Step(pid, path)), name, pid, counts);
      events := [Step(pid, path)] + rest;
      assert events[1..] == rest;
    }
  }

  /** The finalizer has reached its end: the run is completed with this checkpoint, and both verify. */
  predicate CompletedBy(rules: Rules, s: State, name: RunId, pid: Pid, id: Id) {
    && pid in s.processes && s.processes[pid].at == Done(id) && Verifies(rules, s.store, id)
    && name in s.runs && Finished(s.runs[name], id) && RunVerifies(s.runs[name])
  }

  lemma DoneIsCompleted(rules: Rules, s: State, name: RunId, pid: Pid, counts: Counts)
    requires Ready(rules, s, name, pid, counts) && s.processes[pid].at.Done?
    ensures CompletedBy(rules, s, name, pid, IdFor(rules, s.runs[name], counts))
  {
    assert Keeps(rules, s.runs[name], s.processes[pid], counts);
    assert Holds(rules, s.store, s.runs[name], s.processes[pid]);
  }

  /** Different documents have different IDs. */
  ghost predicate CollisionFree(rules: Rules) {
    forall a: Semantics, b: Semantics :: rules.name(a) == rules.name(b) ==> a == b
  }

  /** A checkpoint already there under the run's own ID verifies: it has the same staged files. */
  lemma TwinVerifies(rules: Rules, s: State, run: RunDir, counts: Counts)
    requires Safe(rules, s) && Finalizable(rules, run) && CollisionFree(rules)
    requires IdFor(rules, run, counts) in s.store
    ensures Verifies(rules, s.store, IdFor(rules, run, counts))
  {
    var id := IdFor(rules, run, counts);
    var tree := s.store[id];
    BundleVerifies(rules, s.store, id);
    assert tree[CHECKPOINT].semantics == Semantics(run.plan, counts, InventoryOf(rules, run.staging));
    forall path
      ensures path in Weights(rules, tree) <==> path in Weights(rules, run.staging)
    {
      assert path in Content(tree) <==> path in InventoryOf(rules, Content(tree));
      assert path in run.staging <==> path in InventoryOf(rules, run.staging);
    }
    assert Weights(rules, tree) == Weights(rules, run.staging);
  }

  /**
   * However often the finalizers of a run crashed or were interrupted, and whatever other runs did meanwhile, the next
   * one left to itself reaches `completed` with the ID the run had from the start, and both the run and its checkpoint
   * verify.
   */
  lemma RetryCompletes(rules: Rules, s: State, events: seq<Event>, name: RunId, pid: Pid) returns (more: seq<Event>)
    requires s.processes == map[] && (forall id :: id in s.store ==> Bundle(rules, id, s.store[id]))
    requires name in s.runs && s.runs[name].manifest.None? && s.runs[name].Named()
    requires Finalizable(rules, s.runs[name]) && CollisionFree(rules) && Calm(rules, s, events, name)
    requires pid !in Run(rules, s, events).processes
    requires forall q :: !AtWork(Run(rules, s, events), q, name)
    ensures var done := Run(rules, Run(rules, s, events), more);
            var id := IdFor(rules, s.runs[name], s.runs[name].result.counts);
            && CompletedBy(rules, done, name, pid, id)
            && done.runs[name].result.counts == s.runs[name].result.counts
  {
    var counts := s.runs[name].result.counts;
    RunSafe(rules, s, events);
    CalmRun(rules, s, events, name, counts);
    var t := Run(rules, s, events);
    var start := Start(pid, name);
    ApplySafe(rules, t, start);
    ApplyOrderly(rules, t, start, name, counts);
    var begun := Apply(rules, t, start);
    assert Alone(begun, name) by {
      forall p, q | AtWork(begun, p, name) && AtWork(begun, q, name)
        ensures p == q
      {
        assert p != pid ==> AtWork(t, p, name);
        assert q != pid ==> AtWork(t, q, name);
      }
    }
    if IdFor(rules, begun.runs[name], counts) in begun.store {
      TwinVerifies(rules, begun, begun.runs[name], counts);
    }
    var rest := Finish(rules, begun, name, pid, counts);
    more := [start] + rest;
    assert more[1..] == rest;
    DoneIsCompleted(rules, Run(rules, begun, rest), name, pid, counts);
  }

}
