/** Finalizing a run twice. */
module Refinalizing {
  // Where retrying goes wrong: after `fail`, and while another finalizer of the same run is still at work.

  import opened Results
  import opened Finalizer

  lemma {:induction false} RunAppends(rules: Rules, s: State, before: seq<Event>, after: seq<Event>)
    ensures Run(rules, s, before + after) == Run(rules, Run(rules, s, before), after)
    decreases |before|
  {
    if before == [] {
      assert before + after == after;
    } else {
      assert (before + after)[1..] == before[1..] + after;
      RunAppends(rules, Apply(rules, s, before[0]), before[1..], after);
    }
  }

  /** A run nobody has begun to finalize, in a store of complete bundles. */
  ghost predicate Fresh(rules: Rules, s: State, name: RunId) {
    && s.processes == map[] && (forall id :: id in s.store ==> Bundle(rules, id, s.store[id]))
    && name in s.runs && s.runs[name].manifest.None? && s.runs[name].Named()
    && Finalizable(rules, s.runs[name]) && CollisionFree(rules)
  }

  predicate Quiet(events: seq<Event>) {
    forall e :: e in events ==> e.Start? || e.Step?
  }

  /** The next finalizer of a run starts while none of them is at work. */
  lemma Begins(rules: Rules, s: State, name: RunId, pid: Pid, counts: Counts)
    requires Safe(rules, s) && Orderly(rules, s, name, counts) && Finalizable(rules, s.runs[name])
    requires CollisionFree(rules) && pid !in s.processes && forall q :: !AtWork(s, q, name)
    ensures var begun := Apply(rules, s, Start(pid, name));
            && Ready(rules, begun, name, pid, counts) && begun.processes[pid].at == Validate
            && begun.runs == s.runs && begun.store == s.store
            && begun.processes.Keys == s.processes.Keys + {pid}
  {
    var begun := Apply(rules, s, Start(pid, name));
    ApplySafe(rules, s, Start(pid, name));
    ApplyOrderly(rules, s, Start(pid, name), name, counts);
    assert Alone(begun, name) by {
      forall p, q | AtWork(begun, p, name) && AtWork(begun, q, name)
        ensures p == q
      {
        assert p != pid ==> AtWork(s, p, name);
        assert q != pid ==> AtWork(s, q, name);
      }
    }
    if IdFor(rules, begun.runs[name], counts) in begun.store {
      TwinVerifies(rules, begun, begun.runs[name], counts);
    }
  }

  /** Before it completes its run, a finalizer does not touch it. */
  lemma AdvanceUntouched(rules: Rules, store: map<Id, Tree>, run: RunDir, p: Process, path: string)
    requires Remaining(p.at) > 8 && !p.at.Publish?
    ensures var (after, next) := Advance(rules, store, run, p, path);
            after == run && (Remaining(next.at) >= 8 || next.at.Failing?)
  {
  }

  lemma Untouched(rules: Rules, s: State, name: RunId, pid: Pid, path: string)
    requires AtWork(s, pid, name) && name in s.runs && Remaining(s.processes[pid].at) > 8
    ensures var after := Apply(rules, s, Step(pid, path));
            && after.runs == s.runs && after.processes.Keys == s.processes.Keys
            && (Remaining(after.processes[pid].at) >= 8 || after.processes[pid].at.Failing?)
  {
    if !s.processes[pid].at.Publish? {
      AdvanceUntouched(rules, s.store, s.runs[name], s.processes[pid], path);
      assert s.runs[name := s.runs[name]] == s.runs;
    }
  }

  /** A finalizer left to itself gets its checkpoint published before it touches the run. */
  lemma {:induction false} Publishes(rules: Rules, s: State, name: RunId, pid: Pid, counts: Counts)
    returns (events: seq<Event>)
    requires Ready(rules, s, name, pid, counts) && Remaining(s.processes[pid].at) >= 8
    ensures var t := Run(rules, s, events);
            && Ready(rules, t, name, pid, counts) && t.processes[pid].at.Complete?
            && t.runs == s.runs && t.processes.Keys == s.processes.Keys && Quiet(events)
    decreases Remaining(s.processes[pid].at), Files(s.processes[pid].at)
  {
    if s.processes[pid].at.Complete? {
      events := [];
    } else {
      var path := "";
      if s.processes[pid].at.Copy? && s.processes[pid].at.todo != {} {
        path :| path in s.processes[pid].at.todo;
      }
      StepReady(rules, s, name, pid, path, counts);
      Untouched(rules, s, name, pid, path);
      var rest := Publishes(rules, Apply(rules, s, Step(pid, path)), name, pid, counts);
      events := [Step(pid, path)] + rest;
      assert events[1..] == rest;
    }
  }

  /** From a run nobody has begun to finalize to one whose checkpoint is there, and which is about to be completed. */
  lemma Reaches(rules: Rules, s: State, name: RunId, pid: Pid) returns (events: seq<Event>)
    requires Fresh(rules, s, name)
    ensures var t, counts := Run(rules, s, events), s.runs[name].result.counts;
            && Ready(rules, t, name, pid, counts) && t.processes[pid].at.Complete? && t.runs == s.runs
            && t.processes.Keys == {pid} && Quiet(events)
  {
    var counts := s.runs[name].result.counts;
    Begins(rules, s, name, pid, counts);
    var rest := Publishes(rules, Apply(rules, s, Start(pid, name)), name, pid, counts);
    events := [Start(pid, name)] + rest;
    assert events[1..] == rest;
  }

  // ----- after `fail` -----

  /** `fail` writes a result without parameter counts; the run is otherwise as it was. */
  lemma FailDropsCounts(rules: Rules, s: State, name: RunId, pid: Pid, counts: Counts)
    requires Safe(rules, s) && Orderly(rules, s, name, counts) && Alone(s, name) && s.runs[name].manifest.None?
    requires AtWork(s, pid, name) && s.processes[pid].at.Failing?
    ensures var after := Apply(rules, s, Step(pid, ""));
            && Safe(rules, after) && after.store == s.store && after.processes.Keys == s.processes.Keys
            && name in after.runs && SameSource(s.runs[name], after.runs[name])
            && (forall q :: !AtWork(after, q, name))
  {
    ApplySafe(rules, s, Step(pid, ""));
    var after := Apply(rules, s, Step(pid, ""));
    forall q
      ensures !AtWork(after, q, name)
    {
      assert AtWork(after, q, name) ==> AtWork(s, q, name);
    }
  }

  /** Nothing a stopped finalizer knew is needed by the next one, whose counts are gone. */
  lemma FailedIsOrderly(rules: Rules, s: State, name: RunId, pid: Pid, counts: Counts)
    requires Safe(rules, s) && Orderly(rules, s, name, counts) && Alone(s, name) && s.runs[name].manifest.None?
    requires AtWork(s, pid, name) && s.processes[pid].at.Failing?
    ensures Orderly(rules, Apply(rules, s, Step(pid, "")), name, map[])
  {
    var after := Apply(rules, s, Step(pid, ""));
    forall q | q in after.processes && after.processes[q].run == name
      ensures Keeps(rules, after.runs[name], after.processes[q], map[])
    {
      if q != pid {
        assert Keeps(rules, s.runs[name], s.processes[q], counts) && !AtWork(s, q, name);
        assert !s.processes[q].at.Done?;
      }
    }
  }

  /** What is in one store is in the other, unchanged. */
  predicate Kept(before: map<Id, Tree>, after: map<Id, Tree>) {
    forall id :: id in before ==> id in after && after[id] == before[id]
  }

  /** A finalizer that starts when none is at work, and is left to itself, completes the run. */
  lemma CompletesAlone(rules: Rules, s: State, name: RunId, pid: Pid, counts: Counts) returns (events: seq<Event>)
    requires Safe(rules, s) && Orderly(rules, s, name, counts) && Finalizable(rules, s.runs[name])
    requires CollisionFree(rules) && pid !in s.processes && forall q :: !AtWork(s, q, name)
    ensures var done := Run(rules, s, events);
            && CompletedBy(rules, done, name, pid, IdFor(rules, s.runs[name], counts))
            && Safe(rules, done) && Kept(s.store, done.store)
  {
    Begins(rules, s, name, pid, counts);
    var begun := Apply(rules, s, Start(pid, name));
    var rest := Finish(rules, begun, name, pid, counts);
    RunSafe(rules, begun, rest);
    events := [Start(pid, name)] + rest;
    assert events[1..] == rest;
    DoneIsCompleted(rules, Run(rules, begun, rest), name, pid, counts);
  }

  /**
   * Wherever `fail` is called for a run that is not sealed, and whatever had been published before, the next finalizer
   * left to itself completes the run under the ID of a run without parameter counts.
   */
  lemma RetryAfterFail(rules: Rules, s: State, name: RunId, pid: Pid, next: Pid, counts: Counts)
    returns (events: seq<Event>)
    requires Safe(rules, s) && Orderly(rules, s, name, counts) && Alone(s, name) && s.runs[name].manifest.None?
    requires Finalizable(rules, s.runs[name]) && CollisionFree(rules)
    requires AtWork(s, pid, name) && s.processes[pid].at.Failing? && next !in s.processes
    ensures var done := Run(rules, s, events);
            && CompletedBy(rules, done, name, next, IdFor(rules, s.runs[name], map[]))
            && Safe(rules, done) && Kept(s.store, done.store)
  {
    FailDropsCounts(rules, s, name, pid, counts);
    FailedIsOrderly(rules, s, name, pid, counts);
    var rest := CompletesAlone(rules, Apply(rules, s, Step(pid, "")), name, next, map[]);
    events := [Step(pid, "")] + rest;
    assert events[1..] == rest;
  }

  /** An error while a run is about to be completed leads to `fail`. */
  lemma RaiseLeadsToFail(rules: Rules, s: State, name: RunId, pid: Pid, counts: Counts)
    requires Ready(rules, s, name, pid, counts) && s.processes[pid].at.Complete? && s.runs[name].manifest.None?
    ensures var raised := Apply(rules, s, Raise(pid));
            && Safe(rules, raised) && Orderly(rules, raised, name, counts) && Alone(raised, name)
            && raised.runs == s.runs && raised.store == s.store && raised.processes.Keys == s.processes.Keys
            && AtWork(raised, pid, name) && raised.processes[pid].at.Failing?
  {
    ApplySafe(rules, s, Raise(pid));
    ApplyOrderly(rules, s, Raise(pid), name, counts);
    RaiseChangesNothing(rules, s, name, pid);
  }

  lemma RaiseChangesNothing(rules: Rules, s: State, name: RunId, pid: Pid)
    requires AtWork(s, pid, name) && name in s.runs && s.processes[pid].at.Complete? && Alone(s, name)
    ensures var raised := Apply(rules, s, Raise(pid));
            && raised.runs == s.runs && raised.store == s.store && raised.processes.Keys == s.processes.Keys
            && AtWork(raised, pid, name) && raised.processes[pid].at.Failing? && Alone(raised, name)
  {
    var run, raised := s.runs[name], Apply(rules, s, Raise(pid));
    assert run.leftovers - {} == run.leftovers;
    assert raised.runs == s.runs;
    forall p, q | AtWork(raised, p, name) && AtWork(raised, q, name)
      ensures p == q
    {
      assert AtWork(s, p, name) && AtWork(s, q, name);
    }
  }

  /**
   * Every run can be finalized into two checkpoints: an error after its first one is published, `fail`, and a retry.
   * The two are one exactly when the run had no parameter counts to lose.
   */
  lemma FailRepublishes(rules: Rules, s: State, name: RunId, one: Pid, two: Pid) returns (events: seq<Event>)
    requires Fresh(rules, s, name) && one != two
    ensures var done := Run(rules, s, events);
            var first := IdFor(rules, s.runs[name], s.runs[name].result.counts);
            var second := IdFor(rules, s.runs[name], map[]);
            && CompletedBy(rules, done, name, two, second) && Verifies(rules, done.store, first)
            && (first == second <==> s.runs[name].result.counts == map[])
  {
    var counts := s.runs[name].result.counts;
    var before := Reaches(rules, s, name, one);
    var t := Run(rules, s, before);
    CheckpointThere(rules, t, name, one, counts);
    RaiseLeadsToFail(rules, t, name, one, counts);
    var rest := RetryAfterFail(rules, Apply(rules, t, Raise(one)), name, one, two, counts);
    events := before + ([Raise(one)] + rest);
    RunAppends(rules, s, before, [Raise(one)] + rest);
    assert ([Raise(one)] + rest)[1..] == rest;
    TwinVerifies(rules, Run(rules, s, events), s.runs[name], counts);
  }

  lemma CheckpointThere(rules: Rules, s: State, name: RunId, pid: Pid, counts: Counts)
    requires Ready(rules, s, name, pid, counts) && s.processes[pid].at.Complete?
    ensures IdFor(rules, s.runs[name], counts) in s.store
  {
    assert Holds(rules, s.store, s.runs[name], s.processes[pid]);
    assert Keeps(rules, s.runs[name], s.processes[pid], counts);
  }

  // ----- two finalizers at a time -----

  /** The manifest lists a temporary file that is gone, under a name that is not drawn again. */
  predicate Lost(run: RunDir, temp: Temp) {
    && run.manifest.Some? && temp in run.manifest.value.leftovers
    && temp !in run.leftovers && temp < run.unused
  }

  lemma LostStays(rules: Rules, s: State, e: Event, name: RunId, temp: Temp)
    requires name in s.runs && Lost(s.runs[name], temp)
    ensures name in Apply(rules, s, e).runs && Lost(Apply(rules, s, e).runs[name], temp)
  {
  }

  /** Whatever happens later, a run that lost a sealed file never verifies again. */
  lemma {:induction false} NeverVerifies(rules: Rules, s: State, events: seq<Event>, name: RunId, temp: Temp)
    requires name in s.runs && Lost(s.runs[name], temp)
    ensures name in Run(rules, s, events).runs && Lost(Run(rules, s, events).runs[name], temp)
    ensures !RunVerifies(Run(rules, s, events).runs[name])
    decreases |events|
  {
    if events != [] {
      LostStays(rules, s, events[0], name, temp);
      NeverVerifies(rules, Apply(rules, s, events[0]), events[1..], name, temp);
    }
  }

  /** Two finalizers of the run, where they are, and the run. */
  predicate Both(s: State, name: RunId, one: Pid, two: Pid, run: RunDir, p: Process, q: Process) {
    && name in s.runs && s.runs[name] == run && one != two && p.run == q.run == name
    && one in s.processes && s.processes[one] == p && two in s.processes && s.processes[two] == q
  }

  /** The first of the two takes a step, behind the events so far. */
  lemma Turn(
      rules: Rules, s: State, events: seq<Event>, name: RunId, one: Pid, two: Pid, run: RunDir, p: Process, q: Process)
    returns (more: seq<Event>)
    requires Both(Run(rules, s, events), name, one, two, run, p, q) && Quiet(events)
    requires !Stopped(p.at) && !p.at.Publish?
    ensures var (after, next) := Advance(rules, Run(rules, s, events).store, run, p, "");
            && Both(Run(rules, s, more), name, one, two, after, next, q)
            && Both(Run(rules, s, more), name, two, one, after, q, next)
    ensures Run(rules, s, more).store == Run(rules, s, events).store && Quiet(more)
  {
    more := events + [Step(one, "")];
    RunAppends(rules, s, events, [Step(one, "")]);
  }

  /** A second finalizer finds the checkpoint published and gets to where the first is. */
  lemma Joins(
      rules: Rules, s: State, events: seq<Event>, name: RunId, one: Pid, two: Pid, run: RunDir, p: Process)
    returns (more: seq<Event>)
    requires var t := Run(rules, s, events);
             && name in t.runs && t.runs[name] == run && one in t.processes && t.processes[one] == p && p.run == name
             && two !in t.processes && rules.valid(run.plan, run.staging)
             && Verifies(rules, t.store, IdFor(rules, run, run.result.counts))
    requires Quiet(events)
    ensures var id := IdFor(rules, run, run.result.counts);
            && Both(Run(rules, s, more), name, two, one, run, Process(name, Complete(run.result, id), map[]), p)
            && Quiet(more)
  {
    more := events + [Start(two, name)];
    RunAppends(rules, s, events, [Start(two, name)]);
    var id := IdFor(rules, run, run.result.counts);
    more := Turn(rules, s, more, name, two, one, run, Process(name, Validate, map[]), p);
    more := Turn(rules, s, more, name, two, one, run, Process(name, ReadResult, map[]), p);
    more := Turn(rules, s, more, name, two, one, run, Process(name, LookUp(run.result, id), map[]), p);
    more := Turn(rules, s, more, name, two, one, run, Process(name, Reuse(run.result, id), map[]), p);
  }

  /** A finalizer about to complete a run without a manifest leaves a temporary file in it. */
  lemma LeavesTemporary(
      rules: Rules, s: State, events: seq<Event>, name: RunId, one: Pid, two: Pid, run: RunDir, p: Process, q: Process)
    returns (more: seq<Event>)
    requires Both(Run(rules, s, events), name, one, two, run, p, q) && Quiet(events)
    requires p.at.Complete? && run.manifest.None?
    ensures var next := p.(at := ReplaceResult(p.at.staged, p.at.id, run.unused));
            && Both(Run(rules, s, more), name, one, two, Draw(run), next, q)
            && Both(Run(rules, s, more), name, two, one, Draw(run), q, next)
    ensures Quiet(more)
  {
    more := Turn(rules, s, events, name, one, two, run, p, q);
    more := Turn(rules, s, more, name, one, two, run, p.(at := StageResult(p.at.staged, p.at.id)), q);
  }

  /** One finalizer takes stock of the run while the other's temporary file is lying in it. */
  lemma ListsTemporary(
      rules: Rules, s: State, events: seq<Event>, name: RunId, one: Pid, two: Pid, run: RunDir, p: Process, q: Process)
    returns (more: seq<Event>, after: RunDir, sealed: RunManifest)
    requires Both(Run(rules, s, events), name, two, one, run, q, p) && Quiet(events)
    requires p.at.Complete? && q.at.Complete? && run.manifest.None? && run.Named()
    ensures Both(
              Run(rules, s, more), name, two, one, after,
              q.(at := ReplaceResult(q.at.staged, q.at.id, run.unused)), p.(at := StageManifest(sealed)))
    ensures sealed.checkpoint == p.at.id && run.unused in sealed.leftovers && run.unused < after.unused
    ensures after.manifest.None? && Quiet(more)
  {
    more := LeavesTemporary(rules, s, events, name, two, one, run, q, p);
    var q1 := q.(at := ReplaceResult(q.at.staged, q.at.id, run.unused));
    var drawn := Draw(run);
    more := LeavesTemporary(rules, s, more, name, one, two, drawn, p, q1);
    var p1 := p.(at := ReplaceResult(p.at.staged, p.at.id, drawn.unused));
    more := Turn(rules, s, more, name, one, two, Draw(drawn), p1, q1);
    var (replaced, p2) := CompleteStep(Draw(drawn), p1);
    more := Turn(rules, s, more, name, one, two, replaced, p2, q1);
    after, sealed := replaced, RunManifest(p.at.id, replaced.result, replaced.leftovers);
  }

  /** A finalizer that has taken stock writes its manifest. */
  lemma SealsIt(
      rules: Rules, s: State, events: seq<Event>, name: RunId, one: Pid, two: Pid, run: RunDir, p: Process, q: Process)
    returns (more: seq<Event>)
    requires Both(Run(rules, s, events), name, one, two, run, p, q) && Quiet(events)
    requires p.at.StageManifest? && run.manifest.None?
    ensures var t := Run(rules, s, more);
            && one in t.processes && t.processes[one].at == Done(p.at.sealed.checkpoint) && name in t.runs
            && t.runs[name].manifest == Some(p.at.sealed) && t.runs[name].result == run.result
            && t.runs[name].leftovers <= run.leftovers + {run.unused} && t.runs[name].unused > run.unused
    ensures Quiet(more)
  {
    more := Turn(rules, s, events, name, one, two, run, p, q);
    var (drawn, p1) := CompleteStep(run, p);
    more := Turn(rules, s, more, name, one, two, drawn, p1, q);
    var (linked, p2) := CompleteStep(drawn, p1);
    more := Turn(rules, s, more, name, one, two, linked, p2, q);
  }

  /**
   * Two finalizers of one run at a time are not safe for it. For every run there is an interleaving without any crash
   * or error after which one of them has reported the run as completed, and whatever happens later, the run never
   * verifies: its manifest lists a temporary file of the other's.
   */
  lemma TwoFinalizersUnseal(rules: Rules, s: State, name: RunId, one: Pid, two: Pid) returns (events: seq<Event>)
    requires Fresh(rules, s, name) && one != two
    ensures Quiet(events)
    ensures var t, id := Run(rules, s, events), IdFor(rules, s.runs[name], s.runs[name].result.counts);
            && one in t.processes && t.processes[one].at == Done(id)
            && name in t.runs && Finished(t.runs[name], id)
            && forall later: seq<Event> ::
                 name in Run(rules, t, later).runs && !RunVerifies(Run(rules, t, later).runs[name])
  {
    var run := s.runs[name];
    events := Reaches(rules, s, name, one);
    var t := Run(rules, s, events);
    var p := t.processes[one];
    CheckpointThere(rules, t, name, one, run.result.counts);
    assert Keeps(rules, run, p, run.result.counts);
    events := Joins(rules, s, events, name, one, two, run, p);
    var id := IdFor(rules, run, run.result.counts);
    var q := Process(name, Complete(run.result, id), map[]);
    var after, sealed;
    events, after, sealed := ListsTemporary(rules, s, events, name, one, two, run, p, q);
    var p1 := p.(at := StageManifest(sealed));
    var q1 := q.(at := ReplaceResult(run.result, id, run.unused));
    events := Turn(rules, s, events, name, two, one, after, q1, p1);
    var (gone, q2) := CompleteStep(after, q1);
    events := SealsIt(rules, s, events, name, one, two, gone, p1, q2);
    forall later: seq<Event> {
      NeverVerifies(rules, Run(rules, s, events), later, name, run.unused);
    }
  }
}
