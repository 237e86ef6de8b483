/** The two lock files of the cache. */
module CacheLocks {
  // Each admits one resolver at a time, and an exception or a crash publishes nothing.

  import opened CheckpointCache
  import opened Results

  /** Between looking at the managed path and publishing a link. */
  predicate Linking(at: Control) {
    at.CheckManaged? || at.Link? || at.RenameLink?
  }

  /** Between looking at the managed path and publishing a download, with a pinned spec or a moving selector. */
  predicate Downloading(at: Control) {
    at.CheckDownload? || at.Fill? || at.RenameFill? || at.CheckLatest? || at.FillLatest? || at.RenameLatest?
  }

  ghost predicate Exclusive(s: State) {
    forall p, q :: p in s.processes && q in s.processes && p != q ==>
      && !(Linking(s.processes[p].at) && Linking(s.processes[q].at))
      && !(Downloading(s.processes[p].at) && Downloading(s.processes[q].at))
  }

  lemma FreeMeans(s: State)
    ensures Free(s, ResolveLock) <==> forall p :: p in s.processes ==> !Linking(s.processes[p].at)
    ensures Free(s, DownloadLock) <==> forall p :: p in s.processes ==> !Downloading(s.processes[p].at)
  {
    forall p | p in s.processes
      ensures Holds(s.processes[p].at) == Some(ResolveLock) <==> Linking(s.processes[p].at)
      ensures Holds(s.processes[p].at) == Some(DownloadLock) <==> Downloading(s.processes[p].at)
    {
      assert s.processes[p].at == s.processes[p].at;
    }
  }

  /** A locked stretch is entered only where its lock is free. */
  predicate Enters(s: State, from: Control, to: Control) {
    && (Linking(to) ==> Linking(from) || Free(s, ResolveLock))
    && (Downloading(to) ==> Downloading(from) || Free(s, DownloadLock))
  }

  lemma LatestEnters(sha: Sha, s: State, p: Process, sameFiles: bool, path: string)
    requires p.at.ChooseLatest? || p.at.AwaitLatest? || p.at.CheckLatest? || p.at.FillLatest? || p.at.ReadLatest?
    ensures Enters(s, p.at, Next(sha, s, p, sameFiles, path).at)
  {
  }

  lemma ChoiceEnters(sha: Sha, s: State, p: Process, sameFiles: bool, path: string)
    requires p.at.Choose? || p.at.Verify?
    ensures Enters(s, p.at, Next(sha, s, p, sameFiles, path).at)
  {
  }

  lemma LinkEnters(sha: Sha, s: State, p: Process, sameFiles: bool, path: string)
    requires p.at.AwaitResolve? || p.at.CheckManaged? || p.at.Link?
    ensures Enters(s, p.at, Next(sha, s, p, sameFiles, path).at)
  {
  }

  lemma FillEnters(sha: Sha, s: State, p: Process, sameFiles: bool, path: string)
    requires p.at.AwaitDownload? || p.at.CheckDownload? || p.at.Fill?
    ensures Enters(s, p.at, Next(sha, s, p, sameFiles, path).at)
  {
  }

  lemma NextEnters(sha: Sha, s: State, p: Process, sameFiles: bool, path: string)
    requires !Renaming(p.at) && !Finished(p.at)
    ensures Enters(s, p.at, Next(sha, s, p, sameFiles, path).at)
  {
    if p.at.ChooseLatest? || p.at.AwaitLatest? || p.at.CheckLatest? || p.at.FillLatest? || p.at.ReadLatest? {
      LatestEnters(sha, s, p, sameFiles, path);
    } else if p.at.Choose? || p.at.Verify? {
      ChoiceEnters(sha, s, p, sameFiles, path);
    } else if p.at.AwaitResolve? || p.at.CheckManaged? || p.at.Link? {
      LinkEnters(sha, s, p, sameFiles, path);
    } else {
      FillEnters(sha, s, p, sameFiles, path);
    }
  }

  lemma ActsEnter(sha: Sha, s: State, pid: Pid, choice: Choice)
    requires pid in s.processes && !Finished(s.processes[pid].at)
    ensures var (t, p) := (Act1(sha, s, pid, choice), s.processes[pid]);
            && t.processes.Keys == s.processes.Keys
            && (forall r :: r in s.processes && r != pid ==> t.processes[r] == s.processes[r])
            && Enters(s, p.at, t.processes[pid].at)
  {
    if choice.Proceed? && !Renaming(s.processes[pid].at) {
      NextEnters(sha, s, s.processes[pid], choice.sameFiles, choice.path);
    }
  }

  lemma ApplyExclusive(sha: Sha, s: State, e: Event)
    requires Exclusive(s)
    ensures Exclusive(Apply(sha, s, e))
  {
    if e.Act? && e.pid in s.processes && !Finished(s.processes[e.pid].at) {
      ActsEnter(sha, s, e.pid, e.choice);
      FreeMeans(s);
    }
  }

  /** Whatever happens, at most one resolver is linking at any time, and at most one is downloading. */
  lemma {:induction false} LocksExclude(sha: Sha, s: State, events: seq<Event>)
    requires Exclusive(s)
    ensures Exclusive(Run(sha, s, events))
    decreases |events|
  {
    if events != [] {
      ApplyExclusive(sha, s, events[0]);
      LocksExclude(sha, Apply(sha, s, events[0]), events[1..]);
    }
  }

  lemma InitialExclusive(s: State)
    requires Initial(s)
    ensures Exclusive(s)
  {
    forall p | p in s.processes
      ensures !Linking(s.processes[p].at) && !Downloading(s.processes[p].at)
    {
      assert s.processes[p].at.ChooseLatest? || s.processes[p].at.Choose?;
    }
  }

  /** An exception ends its resolver without a trace; a crash ends it with its temporary directory left behind. */
  lemma EndsWithoutPublishing(sha: Sha, s: State, pid: Pid)
    requires pid in s.processes && !Finished(s.processes[pid].at)
    ensures var raised := Apply(sha, s, Act(pid, Raise));
            && raised.processes[pid].at.Failed? && raised.processes[pid].temporary == map[]
            && raised.managed == s.managed && raised.global == s.global
    ensures var crashed := Apply(sha, s, Act(pid, Crash));
            && crashed.processes[pid].at.Crashed? && crashed.managed == s.managed && crashed.global == s.global
            && crashed.processes[pid].temporary == s.processes[pid].temporary
  {
  }
}
