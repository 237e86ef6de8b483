/** A resolver left alone. */
module Resolving {
  // It ends: with its checkpoint published and matching, or refused, and which of the two is decided when it begins.

  import opened CheckpointCache
  import opened Results

  /** How a resolver ends: with a snapshot for its spec, or refused with the managed path as it then is. */
  datatype Outcome = Returns(spec: Spec, snapshot: Tree) | Refuses(managed: Option<Tree>)

  // ----- what it comes to -----

  /** The first source there is, in the order they are looked at. */
  function First(global: Option<Tree>, local: Option<Tree>, managed: Option<Tree>): Option<Tree> {
    if global.Some? then global else if local.Some? then local else managed
  }

  /** A source is found: it must match, and so must the managed snapshot if there is one; it is what is returned. */
  function FoundEnd(sha: Sha, managed: Option<Tree>, spec: Spec, tree: Tree): Outcome {
    if !Matches(sha, spec, tree) then Refuses(managed)
    else if managed.None? then Returns(spec, tree)
    else if Matches(sha, spec, managed.value) then Returns(spec, managed.value)
    else Refuses(managed)
  }

  /** None is found: another resolver's snapshot must match, or what the hub delivers must be whole and match. */
  function DownloadEnd(sha: Sha, s: State, spec: Spec, delivery: Tree): Outcome {
    if s.managed.Some? then
      if Matches(sha, spec, s.managed.value) then Returns(spec, s.managed.value) else Refuses(s.managed)
    else if Delivered(s.listing, delivery) && Matches(sha, spec, delivery) then Returns(spec, delivery)
    else Refuses(None)
  }

  /** A resolver with a pinned spec. */
  function PinnedEnd(sha: Sha, s: State, local: Option<Tree>, spec: Spec, offline: bool, delivery: Tree): Outcome {
    var first := First(s.global, local, s.managed);
    if first.Some? then FoundEnd(sha, s.managed, spec, first.value)
    else if offline then Refuses(None)
    else DownloadEnd(sha, s, spec, delivery)
  }

  /** A resolver that takes its spec from the first source there is, or from what the hub delivers. */
  function LatestEnd(sha: Sha, s: State, local: Option<Tree>, download: bool, delivery: Tree): Outcome {
    var first := First(s.global, local, s.managed);
    if first.Some? then
      if first.value == map[] then Refuses(s.managed)
      else FoundEnd(sha, s.managed, SpecOf(sha, first.value), first.value)
    else if download && Delivered(s.listing, delivery) then Returns(SpecOf(sha, delivery), delivery)
    else Refuses(None)
  }

  // ----- from wherever it stands -----

  function FirstFrom(s: State, p: Process, from: Source): Option<Tree> {
    match from
    case Global => First(s.global, p.local, s.managed)
    case Local => First(None, p.local, s.managed)
    case Managed => s.managed
  }

  function LinkEnd(sha: Sha, s: State, spec: Spec, candidate: Tree, same: bool): Outcome {
    if s.managed.None? then Returns(spec, candidate)
    else if same || Matches(sha, spec, s.managed.value) then Returns(spec, s.managed.value)
    else Refuses(s.managed)
  }

  function VerifyEnd(sha: Sha, s: State, spec: Spec, from: Source, candidate: Tree, same: bool): Outcome {
    if !Matches(sha, spec, if same && s.managed.Some? then s.managed.value else candidate) then Refuses(s.managed)
    else if from == Managed then Returns(spec, candidate)
    else LinkEnd(sha, s, spec, candidate, same)
  }

  /** The spec is read off the managed snapshot, and resolved again from all sources. */
  function ReadEnd(sha: Sha, s: State, local: Option<Tree>, managed: Tree): Outcome {
    if managed == map[] then Refuses(Some(managed))
    else FoundEnd(sha, Some(managed), SpecOf(sha, managed), First(s.global, local, Some(managed)).value)
  }

  /** A temporary directory once what is left has arrived. */
  function Filled(tree: Tree, left: set<string>, delivery: Tree): Tree
    requires left <= delivery.Keys
  {
    tree + map path | path in left :: delivery[path]
  }

  predicate AllFit(listing: Listing, left: set<string>, delivery: Tree)
    requires left <= delivery.Keys
  {
    forall path :: path in left ==> Fits(listing, path, delivery[path])
  }

  function PublishEnd(s: State, spec: Spec, tree: Tree): Outcome {
    if s.managed.None? then Returns(spec, tree) else Refuses(s.managed)
  }

  function PublishLatestEnd(sha: Sha, s: State, p: Process, tree: Tree): Outcome {
    if s.managed.None? then ReadEnd(sha, s, p.local, tree) else Refuses(s.managed)
  }

  function AwaitLatestEnd(sha: Sha, s: State, p: Process, delivery: Tree): Outcome {
    if s.managed.Some? then ReadEnd(sha, s, p.local, s.managed.value)
    else if Delivered(s.listing, delivery) then ReadEnd(sha, s, p.local, delivery)
    else Refuses(None)
  }

  /** What is left of a download is listed, so it is delivered. */
  predicate Sized(s: State, p: Process, delivery: Tree) {
    delivery.Keys == s.listing.Keys && (p.at.Fill? || p.at.FillLatest? ==> p.at.left <= delivery.Keys)
  }

  function Verdict(sha: Sha, s: State, p: Process, delivery: Tree): Outcome
    requires Sized(s, p, delivery)
  {
    match p.at
    case ChooseLatest(download) => LatestEnd(sha, s, p.local, download, delivery)
    case AwaitLatest => AwaitLatestEnd(sha, s, p, delivery)
    case CheckLatest => AwaitLatestEnd(sha, s, p, delivery)
    case FillLatest(left) =>
      if AllFit(s.listing, left, delivery) then PublishLatestEnd(sha, s, p, Filled(p.temporary, left, delivery))
      else Refuses(s.managed)
    case RenameLatest => PublishLatestEnd(sha, s, p, p.temporary)
    case ReadLatest => if s.managed.None? then Refuses(None) else ReadEnd(sha, s, p.local, s.managed.value)
    case Choose(spec, offline, from) =>
      var first := FirstFrom(s, p, from);
      if first.Some? then FoundEnd(sha, s.managed, spec, first.value)
      else if offline then Refuses(None)
      else DownloadEnd(sha, s, spec, delivery)
    case Verify(spec, from, candidate, same) => VerifyEnd(sha, s, spec, from, candidate, same)
    case AwaitResolve(spec, candidate, same) => LinkEnd(sha, s, spec, candidate, same)
    case CheckManaged(spec, candidate, same) => LinkEnd(sha, s, spec, candidate, same)
    case Link(spec, candidate, _) => PublishEnd(s, spec, candidate)
    case RenameLink(spec) => PublishEnd(s, spec, p.temporary)
    case AwaitDownload(spec) => DownloadEnd(sha, s, spec, delivery)
    case CheckDownload(spec) => DownloadEnd(sha, s, spec, delivery)
    case Fill(spec, left) =>
      var tree := Filled(p.temporary, left, delivery);
      if AllFit(s.listing, left, delivery) && Matches(sha, spec, tree) then PublishEnd(s, spec, tree)
      else Refuses(s.managed)
    case RenameFill(spec) => PublishEnd(s, spec, p.temporary)
    case Done(spec) => if s.managed.Some? then Returns(spec, s.managed.value) else Refuses(None)
    case Failed => Refuses(s.managed)
    case Crashed => Refuses(s.managed)
  }

  // ----- left alone -----

  /** A step of this resolver, going as it should; what the hub sends is fixed. */
  predicate OwnStep(e: Event, pid: Pid, delivery: Tree) {
    && e.Act? && e.pid == pid
    && (e.choice.Proceed?
        || (e.choice.Arrive? && e.choice.path in delivery && e.choice.bytes == delivery[e.choice.path]))
  }

  ghost predicate Alone(events: seq<Event>, pid: Pid, delivery: Tree) {
    forall i :: 0 <= i < |events| ==> OwnStep(events[i], pid, delivery)
  }

  /** Nobody else holds a lock. */
  ghost predicate LocksFree(s: State, pid: Pid) {
    forall p :: p in s.processes && p != pid ==> Holds(s.processes[p].at).None?
  }

  ghost predicate Standing(sha: Sha, s: State, pid: Pid, delivery: Tree) {
    && Safe(sha, s) && pid in s.processes && LocksFree(s, pid) && delivery.Keys == s.listing.Keys
  }

  lemma StandingSized(sha: Sha, s: State, pid: Pid, delivery: Tree)
    requires Standing(sha, s, pid, delivery)
    ensures Sized(s, s.processes[pid], delivery)
  {
    assert Knows(sha, s, s.processes[pid]);
  }

  lemma SameFilesMatch(sha: Sha, s: State, spec: Spec, candidate: Tree)
    requires MayBeSame(s, spec, candidate)
    ensures Matches(sha, spec, candidate) && Matches(sha, spec, s.managed.value)
         <==> Matches(sha, spec, s.managed.value)
    ensures Matches(sha, spec, candidate) <==> Matches(sha, spec, s.managed.value)
  {
    forall path | path in spec
      ensures MatchesAt(sha, spec, candidate, path) == MatchesAt(sha, spec, s.managed.value, path)
    {
    }
    if Matches(sha, spec, candidate) {
      forall path | path in spec
        ensures MatchesAt(sha, spec, s.managed.value, path)
      {
        assert MatchesAt(sha, spec, candidate, path);
      }
    }
    if Matches(sha, spec, s.managed.value) {
      forall path | path in spec
        ensures MatchesAt(sha, spec, candidate, path)
      {
        assert MatchesAt(sha, spec, s.managed.value, path);
      }
    }
  }

  lemma ChooseKeeps(sha: Sha, s: State, p: Process, delivery: Tree, sameFiles: bool, path: string)
    requires Safe(sha, s) && Knows(sha, s, p) && Sized(s, p, delivery) && p.at.Choose?
    ensures var q := Next(sha, s, p, sameFiles, path);
            Sized(s, q, delivery) && Verdict(sha, s, q, delivery) == Verdict(sha, s, p, delivery)
  {
    var candidate := Candidate(s, p, p.at.from);
    if candidate.Some? && sameFiles && MayBeSame(s, p.at.spec, candidate.value) {
      SameFilesMatch(sha, s, p.at.spec, candidate.value);
    }
  }

  lemma VerifyKeeps(sha: Sha, s: State, p: Process, delivery: Tree, sameFiles: bool, path: string)
    requires Safe(sha, s) && Knows(sha, s, p) && Sized(s, p, delivery) && (p.at.Verify?)
    ensures var q := Next(sha, s, p, sameFiles, path);
            Sized(s, q, delivery) && Verdict(sha, s, q, delivery) == Verdict(sha, s, p, delivery)
  {
  }

  lemma LockKeeps(sha: Sha, s: State, p: Process, delivery: Tree, sameFiles: bool, path: string)
    requires Safe(sha, s) && Knows(sha, s, p) && Sized(s, p, delivery) && (p.at.AwaitResolve? || p.at.CheckManaged?)
    ensures var q := Next(sha, s, p, sameFiles, path);
            Sized(s, q, delivery) && Verdict(sha, s, q, delivery) == Verdict(sha, s, p, delivery)
  {
    if p.at.CheckManaged? && s.managed.None? {
      assert Verdict(sha, s, p, delivery) == Returns(p.at.spec, p.at.candidate);
    }
  }

  lemma LinkKeeps(sha: Sha, s: State, p: Process, delivery: Tree, sameFiles: bool, path: string)
    requires Safe(sha, s) && Knows(sha, s, p) && Sized(s, p, delivery) && (p.at.Link?)
    ensures var q := Next(sha, s, p, sameFiles, path);
            Sized(s, q, delivery) && Verdict(sha, s, q, delivery) == Verdict(sha, s, p, delivery)
  {
    if p.at.todo == {} {
      LinkedAll(p.at.candidate, p.temporary);
    }
  }

  lemma FilledAll(s: State, delivery: Tree)
    requires delivery.Keys == s.listing.Keys
    ensures Filled(map[], s.listing.Keys, delivery) == delivery
    ensures s.listing != map[] ==> (AllFit(s.listing, s.listing.Keys, delivery) <==> Delivered(s.listing, delivery))
  {
  }

  lemma FilledNone(tree: Tree, delivery: Tree)
    ensures Filled(tree, {}, delivery) == tree
  {
  }

  lemma DownloadKeeps(sha: Sha, s: State, p: Process, delivery: Tree, sameFiles: bool, path: string)
    requires Safe(sha, s) && Knows(sha, s, p) && Sized(s, p, delivery) && (p.at.AwaitDownload? || p.at.CheckDownload?)
    ensures var q := Next(sha, s, p, sameFiles, path);
            Sized(s, q, delivery) && Verdict(sha, s, q, delivery) == Verdict(sha, s, p, delivery)
  {
    FilledAll(s, delivery);
  }

  lemma FillKeeps(sha: Sha, s: State, p: Process, delivery: Tree, sameFiles: bool, path: string)
    requires Safe(sha, s) && Knows(sha, s, p) && Sized(s, p, delivery) && (p.at.Fill?)
    ensures var q := Next(sha, s, p, sameFiles, path);
            Sized(s, q, delivery) && Verdict(sha, s, q, delivery) == Verdict(sha, s, p, delivery)
  {
    FilledNone(p.temporary, delivery);
  }

  lemma ChooseLatestKeeps(sha: Sha, s: State, p: Process, delivery: Tree, sameFiles: bool, path: string)
    requires Safe(sha, s) && Knows(sha, s, p) && Sized(s, p, delivery) && (p.at.ChooseLatest?)
    ensures var q := Next(sha, s, p, sameFiles, path);
            Sized(s, q, delivery) && Verdict(sha, s, q, delivery) == Verdict(sha, s, p, delivery)
  {
  }

  lemma AwaitLatestKeeps(sha: Sha, s: State, p: Process, delivery: Tree, sameFiles: bool, path: string)
    requires Safe(sha, s) && Knows(sha, s, p) && Sized(s, p, delivery) && (p.at.AwaitLatest? || p.at.CheckLatest?)
    ensures var q := Next(sha, s, p, sameFiles, path);
            Sized(s, q, delivery) && Verdict(sha, s, q, delivery) == Verdict(sha, s, p, delivery)
  {
    FilledAll(s, delivery);
  }

  lemma FillLatestKeeps(sha: Sha, s: State, p: Process, delivery: Tree, sameFiles: bool, path: string)
    requires Safe(sha, s) && Knows(sha, s, p) && Sized(s, p, delivery) && (p.at.FillLatest? || p.at.ReadLatest?)
    ensures var q := Next(sha, s, p, sameFiles, path);
            Sized(s, q, delivery) && Verdict(sha, s, q, delivery) == Verdict(sha, s, p, delivery)
  {
    FilledNone(p.temporary, delivery);
  }

  lemma NextKeeps(sha: Sha, s: State, p: Process, delivery: Tree, sameFiles: bool, path: string)
    requires Safe(sha, s) && Knows(sha, s, p) && Sized(s, p, delivery) && !Renaming(p.at) && !Finished(p.at)
    ensures var q := Next(sha, s, p, sameFiles, path);
            Sized(s, q, delivery) && Verdict(sha, s, q, delivery) == Verdict(sha, s, p, delivery)
  {
    match p.at
    case ChooseLatest(_) => ChooseLatestKeeps(sha, s, p, delivery, sameFiles, path);
    case AwaitLatest => AwaitLatestKeeps(sha, s, p, delivery, sameFiles, path);
    case CheckLatest => AwaitLatestKeeps(sha, s, p, delivery, sameFiles, path);
    case FillLatest(_) => FillLatestKeeps(sha, s, p, delivery, sameFiles, path);
    case ReadLatest => FillLatestKeeps(sha, s, p, delivery, sameFiles, path);
    case Choose(_, _, _) => ChooseKeeps(sha, s, p, delivery, sameFiles, path);
    case Verify(_, _, _, _) => VerifyKeeps(sha, s, p, delivery, sameFiles, path);
    case AwaitResolve(_, _, _) => LockKeeps(sha, s, p, delivery, sameFiles, path);
    case CheckManaged(_, _, _) => LockKeeps(sha, s, p, delivery, sameFiles, path);
    case Link(_, _, _) => LinkKeeps(sha, s, p, delivery, sameFiles, path);
    case AwaitDownload(_) => DownloadKeeps(sha, s, p, delivery, sameFiles, path);
    case CheckDownload(_) => DownloadKeeps(sha, s, p, delivery, sameFiles, path);
    case Fill(_, _) => FillKeeps(sha, s, p, delivery, sameFiles, path);
    case _ => assert false;
  }

  lemma FilledMore(tree: Tree, left: set<string>, path: string, delivery: Tree)
    requires left <= delivery.Keys && path in left
    ensures Filled(tree[path := delivery[path]], left - {path}, delivery) == Filled(tree, left, delivery)
  {
  }

  lemma FillArrives(sha: Sha, s: State, p: Process, delivery: Tree, path: string)
    requires Sized(s, p, delivery) && p.at.Fill? && path in p.at.left
    ensures var q := Arrived(s, p, path, delivery[path]);
            Sized(s, q, delivery) && Verdict(sha, s, q, delivery) == Verdict(sha, s, p, delivery)
  {
    FilledMore(p.temporary, p.at.left, path, delivery);
  }

  lemma FillLatestArrives(sha: Sha, s: State, p: Process, delivery: Tree, path: string)
    requires Sized(s, p, delivery) && p.at.FillLatest? && path in p.at.left
    ensures var q := Arrived(s, p, path, delivery[path]);
            Sized(s, q, delivery) && Verdict(sha, s, q, delivery) == Verdict(sha, s, p, delivery)
  {
    FilledMore(p.temporary, p.at.left, path, delivery);
  }

  lemma ArrivedKeeps(sha: Sha, s: State, p: Process, delivery: Tree, path: string)
    requires Sized(s, p, delivery) && path in delivery
    ensures var q := Arrived(s, p, path, delivery[path]);
            Sized(s, q, delivery) && Verdict(sha, s, q, delivery) == Verdict(sha, s, p, delivery)
  {
    if p.at.Fill? && path in p.at.left {
      FillArrives(sha, s, p, delivery, path);
    } else if p.at.FillLatest? && path in p.at.left {
      FillLatestArrives(sha, s, p, delivery, path);
    }
  }

  /** The verdict depends on the sources and the listing alone. */
  lemma VerdictElsewhere(sha: Sha, s: State, t: State, q: Process, delivery: Tree)
    requires Sized(s, q, delivery) && t.listing == s.listing && t.global == s.global && t.managed == s.managed
    ensures Sized(t, q, delivery) && Verdict(sha, t, q, delivery) == Verdict(sha, s, q, delivery)
  {
  }

  lemma PublishLatestKeeps(sha: Sha, s: State, pid: Pid, delivery: Tree)
    requires pid in s.processes && s.processes[pid].at.RenameLatest? && Sized(s, s.processes[pid], delivery)
    requires s.managed.None?
    ensures var t := Publish(s, pid);
            && Sized(t, t.processes[pid], delivery)
            && Verdict(sha, t, t.processes[pid], delivery) == Verdict(sha, s, s.processes[pid], delivery)
  {
  }

  lemma PublishPinnedKeeps(sha: Sha, s: State, pid: Pid, delivery: Tree)
    requires pid in s.processes && Renaming(s.processes[pid].at) && Sized(s, s.processes[pid], delivery)
    requires s.managed.None? && !s.processes[pid].at.RenameLatest?
    ensures var t := Publish(s, pid);
            && Sized(t, t.processes[pid], delivery)
            && Verdict(sha, t, t.processes[pid], delivery) == Verdict(sha, s, s.processes[pid], delivery)
  {
  }

  lemma PublishKeeps(sha: Sha, s: State, pid: Pid, delivery: Tree)
    requires Standing(sha, s, pid, delivery) && Renaming(s.processes[pid].at)
    ensures var t := Publish(s, pid);
            && Sized(s, s.processes[pid], delivery) && Sized(t, t.processes[pid], delivery)
            && Verdict(sha, t, t.processes[pid], delivery) == Verdict(sha, s, s.processes[pid], delivery)
  {
    if s.managed.None? {
      if s.processes[pid].at.RenameLatest? {
        PublishLatestKeeps(sha, s, pid, delivery);
      } else {
        PublishPinnedKeeps(sha, s, pid, delivery);
      }
    }
  }

  lemma StepVerdict(sha: Sha, s: State, pid: Pid, choice: Choice, delivery: Tree)
    requires Standing(sha, s, pid, delivery) && OwnStep(Act(pid, choice), pid, delivery)
    requires !Finished(s.processes[pid].at)
    ensures var t := Act1(sha, s, pid, choice);
            && pid in t.processes && Sized(s, s.processes[pid], delivery) && Sized(t, t.processes[pid], delivery)
            && Verdict(sha, t, t.processes[pid], delivery) == Verdict(sha, s, s.processes[pid], delivery)
  {
    var p, t := s.processes[pid], Act1(sha, s, pid, choice);
    assert Knows(sha, s, p);
    StandingSized(sha, s, pid, delivery);
    match choice
    case Arrive(path, _) =>
      ArrivedKeeps(sha, s, p, delivery, path);
      VerdictElsewhere(sha, s, t, t.processes[pid], delivery);
    case Proceed(sameFiles, path) =>
      if Renaming(p.at) {
        PublishKeeps(sha, s, pid, delivery);
      } else {
        NextKeeps(sha, s, p, delivery, sameFiles, path);
        VerdictElsewhere(sha, s, t, t.processes[pid], delivery);
      }
  }

  /** What a resolver's own step changes. */
  lemma StepFrame(sha: Sha, s: State, pid: Pid, e: Event, delivery: Tree)
    requires pid in s.processes && OwnStep(e, pid, delivery)
    ensures var t := Apply(sha, s, e);
            && t.listing == s.listing && t.processes.Keys == s.processes.Keys
            && forall q :: q in t.processes && q != pid ==> t.processes[q] == s.processes[q]
  {
  }

  /** Each of a resolver's own steps keeps the verdict. */
  lemma StepKeeps(sha: Sha, s: State, pid: Pid, e: Event, delivery: Tree)
    requires Standing(sha, s, pid, delivery) && OwnStep(e, pid, delivery)
    ensures var t := Apply(sha, s, e);
            && Standing(sha, t, pid, delivery)
            && Sized(s, s.processes[pid], delivery) && Sized(t, t.processes[pid], delivery)
            && Verdict(sha, t, t.processes[pid], delivery) == Verdict(sha, s, s.processes[pid], delivery)
  {
    ApplySafe(sha, s, e);
    StepFrame(sha, s, pid, e, delivery);
    StandingSized(sha, s, pid, delivery);
    if !Finished(s.processes[pid].at) {
      StepVerdict(sha, s, pid, e.choice, delivery);
    }
  }

  lemma {:induction false} AloneKeeps(sha: Sha, s: State, pid: Pid, events: seq<Event>, delivery: Tree)
    requires Standing(sha, s, pid, delivery) && Alone(events, pid, delivery)
    ensures var t := Run(sha, s, events);
            && Standing(sha, t, pid, delivery)
            && Sized(s, s.processes[pid], delivery) && Sized(t, t.processes[pid], delivery)
            && Verdict(sha, t, t.processes[pid], delivery) == Verdict(sha, s, s.processes[pid], delivery)
    decreases |events|
  {
    StandingSized(sha, s, pid, delivery);
    if events != [] {
      assert OwnStep(events[0], pid, delivery);
      StepKeeps(sha, s, pid, events[0], delivery);
      assert forall i :: 0 <= i < |events[1..]| ==> events[1..][i] == events[i + 1];
      AloneKeeps(sha, Apply(sha, s, events[0]), pid, events[1..], delivery);
    }
  }

  // ----- it ends -----

  function FromRank(from: Source): nat {
    match from case Global => 3 case Local => 2 case Managed => 1
  }

  /** What is still to do, first by stage and then within it. */
  function Rank(at: Control): (nat, nat) {
    match at
    case ChooseLatest(_) => (17, 0)
    case AwaitLatest => (16, 0)
    case CheckLatest => (15, 0)
    case FillLatest(left) => (14, |left|)
    case RenameLatest => (13, 0)
    case ReadLatest => (12, 0)
    case Choose(_, _, from) => (11, FromRank(from))
    case Verify(_, _, _, _) => (10, 0)
    case AwaitResolve(_, _, _) => (9, 0)
    case CheckManaged(_, _, _) => (8, 0)
    case Link(_, _, todo) => (7, |todo|)
    case RenameLink(_) => (6, 0)
    case AwaitDownload(_) => (5, 0)
    case CheckDownload(_) => (4, 0)
    case Fill(_, left) => (3, |left|)
    case RenameFill(_) => (2, 0)
    case Done(_) => (0, 0)
    case Failed => (0, 0)
    case Crashed => (0, 0)
  }

  predicate Lower(a: (nat, nat), b: (nat, nat)) {
    a.0 < b.0 || (a.0 == b.0 && a.1 < b.1)
  }

  predicate Waiting(at: Control) {
    at.AwaitLatest? || at.AwaitResolve? || at.AwaitDownload?
  }

  lemma LatestLower(sha: Sha, s: State, p: Process, sameFiles: bool)
    requires p.at.ChooseLatest? || p.at.AwaitLatest? || p.at.CheckLatest? || p.at.FillLatest? || p.at.ReadLatest?
    requires (Waiting(p.at) ==> Free(s, DownloadLock)) && (p.at.FillLatest? ==> p.at.left == {})
    ensures Lower(Rank(Next(sha, s, p, sameFiles, "").at), Rank(p.at))
  {
  }

  lemma PinnedLower(sha: Sha, s: State, p: Process, sameFiles: bool)
    requires p.at.AwaitResolve? || p.at.CheckManaged? || p.at.Link? || p.at.AwaitDownload? || p.at.CheckDownload?
             || p.at.Fill?
    requires Waiting(p.at) ==> Free(s, ResolveLock) && Free(s, DownloadLock)
    requires (p.at.Fill? ==> p.at.left == {}) && (p.at.Link? ==> p.at.todo == {})
    ensures Lower(Rank(Next(sha, s, p, sameFiles, "").at), Rank(p.at))
  {
  }

  lemma NextLower(sha: Sha, s: State, p: Process, sameFiles: bool)
    requires !Finished(p.at) && !Renaming(p.at)
    requires Waiting(p.at) ==> Free(s, ResolveLock) && Free(s, DownloadLock)
    requires ((p.at.Fill? || p.at.FillLatest?) ==> p.at.left == {}) && (p.at.Link? ==> p.at.todo == {})
    ensures Lower(Rank(Next(sha, s, p, sameFiles, "").at), Rank(p.at))
  {
    if p.at.ChooseLatest? || p.at.AwaitLatest? || p.at.CheckLatest? || p.at.FillLatest? || p.at.ReadLatest? {
      LatestLower(sha, s, p, sameFiles);
    } else if !p.at.Choose? && !p.at.Verify? {
      PinnedLower(sha, s, p, sameFiles);
    }
  }

  lemma LinkLower(sha: Sha, s: State, pid: Pid, sameFiles: bool, path: string)
    requires pid in s.processes && s.processes[pid].at.Link?
    requires path in s.processes[pid].at.todo && path in s.processes[pid].at.candidate
    ensures var t := Apply(sha, s, Act(pid, Proceed(sameFiles, path)));
            pid in t.processes && Lower(Rank(t.processes[pid].at), Rank(s.processes[pid].at))
  {
    Fewer(s.processes[pid].at.todo, path);
  }

  lemma FillLower(sha: Sha, s: State, pid: Pid, path: string, bytes: Bytes)
    requires pid in s.processes && (s.processes[pid].at.Fill? || s.processes[pid].at.FillLatest?)
    requires path in s.processes[pid].at.left
    ensures var t := Apply(sha, s, Act(pid, Arrive(path, bytes)));
            pid in t.processes && Lower(Rank(t.processes[pid].at), Rank(s.processes[pid].at))
  {
    Fewer(s.processes[pid].at.left, path);
  }

  lemma PublishLower(sha: Sha, s: State, pid: Pid, sameFiles: bool)
    requires pid in s.processes && Renaming(s.processes[pid].at)
    ensures var t := Apply(sha, s, Act(pid, Proceed(sameFiles, "")));
            pid in t.processes && Lower(Rank(t.processes[pid].at), Rank(s.processes[pid].at))
  {
  }

  /** The step a resolver takes next. */
  lemma NextStep(sha: Sha, s: State, pid: Pid, sameFiles: bool, delivery: Tree) returns (e: Event)
    requires Standing(sha, s, pid, delivery) && !Finished(s.processes[pid].at)
    ensures OwnStep(e, pid, delivery) && pid in Apply(sha, s, e).processes
    ensures Lower(Rank(Apply(sha, s, e).processes[pid].at), Rank(s.processes[pid].at))
  {
    var p := s.processes[pid];
    assert Knows(sha, s, p);
    StandingSized(sha, s, pid, delivery);
    if (p.at.Fill? || p.at.FillLatest?) && p.at.left != {} {
      var path :| path in p.at.left;
      e := Act(pid, Arrive(path, delivery[path]));
      FillLower(sha, s, pid, path, delivery[path]);
    } else if p.at.Link? && p.at.todo != {} {
      var path :| path in p.at.todo;
      e := Act(pid, Proceed(sameFiles, path));
      LinkLower(sha, s, pid, sameFiles, path);
    } else {
      e := Act(pid, Proceed(sameFiles, ""));
      if Renaming(p.at) {
        PublishLower(sha, s, pid, sameFiles);
      } else {
        if Waiting(p.at) {
          LocksOpen(s, pid);
        }
        NextLower(sha, s, p, sameFiles);
      }
    }
  }

  lemma Fewer(left: set<string>, path: string)
    requires path in left
    ensures |left - {path}| < |left|
  {
    assert left == (left - {path}) + {path};
  }

  lemma LocksOpen(s: State, pid: Pid)
    requires pid in s.processes && LocksFree(s, pid) && Holds(s.processes[pid].at).None?
    ensures Free(s, ResolveLock) && Free(s, DownloadLock)
  {
  }

  /** Some steps of its own finish it. */
  lemma {:induction false} RunsOut(sha: Sha, s: State, pid: Pid, sameFiles: bool, delivery: Tree)
    returns (events: seq<Event>)
    requires Standing(sha, s, pid, delivery)
    ensures Alone(events, pid, delivery) && pid in Run(sha, s, events).processes
    ensures Finished(Run(sha, s, events).processes[pid].at)
    decreases Rank(s.processes[pid].at).0, Rank(s.processes[pid].at).1
  {
    if Finished(s.processes[pid].at) {
      events := [];
    } else {
      var e := NextStep(sha, s, pid, sameFiles, delivery);
      StepKeeps(sha, s, pid, e, delivery);
      var rest := RunsOut(sha, Apply(sha, s, e), pid, sameFiles, delivery);
      events := [e] + rest;
      assert events[0] == e && events[1..] == rest;
    }
  }

  lemma StepRuns(sha: Sha, s: State, pid: Pid, e: Event, delivery: Tree)
    requires pid in s.processes && OwnStep(e, pid, delivery) && !s.processes[pid].at.Crashed?
    ensures pid in Apply(sha, s, e).processes && !Apply(sha, s, e).processes[pid].at.Crashed?
  {
  }

  lemma {:induction false} AloneRuns(sha: Sha, s: State, pid: Pid, events: seq<Event>, delivery: Tree)
    requires pid in s.processes && Alone(events, pid, delivery) && !s.processes[pid].at.Crashed?
    ensures pid in Run(sha, s, events).processes && !Run(sha, s, events).processes[pid].at.Crashed?
    decreases |events|
  {
    if events != [] {
      assert OwnStep(events[0], pid, delivery);
      StepRuns(sha, s, pid, events[0], delivery);
      assert forall i :: 0 <= i < |events[1..]| ==> events[1..][i] == events[i + 1];
      AloneRuns(sha, Apply(sha, s, events[0]), pid, events[1..], delivery);
    }
  }

  /** A finished resolver stands where the outcome says. */
  predicate EndsAs(t: State, pid: Pid, outcome: Outcome)
    requires pid in t.processes
  {
    match outcome
    case Returns(spec, snapshot) => t.processes[pid].at == Done(spec) && t.managed == Some(snapshot)
    case Refuses(managed) => t.processes[pid].at.Failed? && t.managed == managed
  }

  /** Some steps of its own finish the resolver, and whichever do, it ends with this outcome. */
  ghost predicate ComesTo(sha: Sha, s: State, pid: Pid, delivery: Tree, outcome: Outcome)
    requires pid in s.processes
  {
    && (exists events :: Finishes(sha, s, pid, events, delivery))
    && (forall events :: Finishes(sha, s, pid, events, delivery) ==> EndsAs(Run(sha, s, events), pid, outcome))
  }

  ghost predicate Finishes(sha: Sha, s: State, pid: Pid, events: seq<Event>, delivery: Tree) {
    && Alone(events, pid, delivery) && pid in Run(sha, s, events).processes
    && Finished(Run(sha, s, events).processes[pid].at)
  }

  lemma VerdictAtEnd(sha: Sha, t: State, pid: Pid, delivery: Tree)
    requires Standing(sha, t, pid, delivery) && Finished(t.processes[pid].at) && !t.processes[pid].at.Crashed?
    ensures Sized(t, t.processes[pid], delivery) && EndsAs(t, pid, Verdict(sha, t, t.processes[pid], delivery))
  {
    assert Knows(sha, t, t.processes[pid]);
  }

  lemma VerdictHolds(sha: Sha, s: State, pid: Pid, delivery: Tree)
    requires Standing(sha, s, pid, delivery) && !s.processes[pid].at.Crashed?
    ensures Sized(s, s.processes[pid], delivery)
    ensures ComesTo(sha, s, pid, delivery, Verdict(sha, s, s.processes[pid], delivery))
  {
    StandingSized(sha, s, pid, delivery);
    var steps := RunsOut(sha, s, pid, false, delivery);
    assert Finishes(sha, s, pid, steps, delivery);
    forall events | Finishes(sha, s, pid, events, delivery)
      ensures EndsAs(Run(sha, s, events), pid, Verdict(sha, s, s.processes[pid], delivery))
    {
      AloneKeeps(sha, s, pid, events, delivery);
      AloneRuns(sha, s, pid, events, delivery);
      VerdictAtEnd(sha, Run(sha, s, events), pid, delivery);
    }
  }

  /**
   * A resolver with a pinned spec, left alone with the locks free, finishes, and however it does: if a source is there,
   * it returns exactly when the first in the order global, local, managed matches and the managed snapshot is absent or
   * matches too, and then that, or the source linked into its place, is published. If none is there, it is refused
   * offline, and otherwise returns exactly when what the hub delivers is whole and matches.
   */
  lemma PinnedResolves(sha: Sha, s: State, pid: Pid, spec: Spec, offline: bool, delivery: Tree)
    requires Standing(sha, s, pid, delivery) && s.processes[pid].at == Choose(spec, offline, Global)
    ensures ComesTo(sha, s, pid, delivery, PinnedEnd(sha, s, s.processes[pid].local, spec, offline, delivery))
  {
    VerdictHolds(sha, s, pid, delivery);
  }

  /**
   * A resolver that follows a moving selector finishes too: with the spec of the first source that is there, if that is
   * not empty and agrees with a managed snapshot; and with none there, if it may download, with what the hub delivers.
   */
  lemma LatestResolves(sha: Sha, s: State, pid: Pid, download: bool, delivery: Tree)
    requires Standing(sha, s, pid, delivery) && s.processes[pid].at == ChooseLatest(download)
    ensures ComesTo(sha, s, pid, delivery, LatestEnd(sha, s, s.processes[pid].local, download, delivery))
  {
    VerdictHolds(sha, s, pid, delivery);
  }

  /** One that is about to publish returns exactly when nobody has published before it. */
  lemma PublisherReturns(sha: Sha, s: State, pid: Pid, delivery: Tree)
    requires Standing(sha, s, pid, delivery)
    requires s.processes[pid].at.RenameLink? || s.processes[pid].at.RenameFill?
    ensures ComesTo(
              sha, s, pid, delivery,
              if s.managed.None? then Returns(s.processes[pid].at.spec, s.processes[pid].temporary)
              else Refuses(s.managed))
  {
    VerdictHolds(sha, s, pid, delivery);
  }
}
