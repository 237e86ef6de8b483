/** The managed checkpoint cache. */
module CheckpointCache {
  // Resolvers link, download and publish by rename, in any interleaving, with crashes.

  import opened Results

  type Pid = nat
  type Bytes = string

  /** A snapshot directory: file contents by relative path. */
  type Tree = map<string, Bytes>

  /** The digest of a file's bytes, whatever it is. */
  type Sha = Bytes -> string

  datatype Identity = Identity(size: nat, digest: string)

  /** The pinned files of a checkpoint. */
  type Spec = map<string, Identity>

  predicate MatchesAt(sha: Sha, spec: Spec, tree: Tree, path: string)
    requires path in spec
  {
    path in tree && |tree[path]| == spec[path].size && sha(tree[path]) == spec[path].digest
  }

  /** `verify_checkpoint` accepts: every pinned file is there with its size and digest. */
  predicate Matches(sha: Sha, spec: Spec, tree: Tree) {
    forall path :: path in spec ==> MatchesAt(sha, spec, tree, path)
  }

  /** `checkpoint_spec_from_snapshot`: whatever the snapshot holds. */
  function SpecOf(sha: Sha, tree: Tree): (spec: Spec)
    ensures Matches(sha, spec, tree) && spec.Keys == tree.Keys
  {
    map path | path in tree :: Identity(|tree[path]|, sha(tree[path]))
  }

  // ----- verifying a snapshot -----

  /** A pinned checkpoint as the registry lists it; its constructor checks the aggregate digest. */
  datatype Pinned = Pinned(files: seq<(string, Identity)>, expected: string)
  {
    /** The lines `path size digest` that the aggregate is taken of. */
    function Lines(line: (string, Identity) -> string): string {
      ManifestLines(line, files)
    }

    predicate Consistent(sha: Sha, line: (string, Identity) -> string) {
      files != [] && sha(Lines(line)) == expected
    }

    predicate DistinctPaths() {
      forall i, j :: 0 <= i < j < |files| ==> files[i].0 != files[j].0
    }

    function Files(): Spec
      requires DistinctPaths()
    {
      map i | 0 <= i < |files| :: files[i].0 := files[i].1
    }
  }

  function ManifestLines(line: (string, Identity) -> string, files: seq<(string, Identity)>): string {
    if files == [] then ""
    else ManifestLines(line, files[..|files| - 1]) + line(files[|files| - 1].0, files[|files| - 1].1)
  }

  /** One pinned file is in the directory with its size and digest. */
  predicate Found(sha: Sha, tree: Tree, relative: string, identity: Identity) {
    relative in tree && |tree[relative]| == identity.size && sha(tree[relative]) == identity.digest
  }

  predicate AllFound(sha: Sha, pinned: Pinned, tree: Tree) {
    forall k :: 0 <= k < |pinned.files| ==> Found(sha, tree, pinned.files[k].0, pinned.files[k].1)
  }

  /** A list that names a file twice with different identities is met by no directory at all. */
  lemma ConflictNeverFound(sha: Sha, pinned: Pinned, tree: Tree, i: nat, j: nat)
    requires i < |pinned.files| && j < |pinned.files|
    requires pinned.files[i].0 == pinned.files[j].0 && pinned.files[i].1 != pinned.files[j].1
    ensures !AllFound(sha, pinned, tree)
  {
    var (a, b) := (pinned.files[i], pinned.files[j]);
    assert !(Found(sha, tree, a.0, a.1) && Found(sha, tree, b.0, b.1));
  }

  /** Checking the pinned files one by one checks the specification they form, when each is named once. */
  lemma FoundIsMatches(sha: Sha, pinned: Pinned, tree: Tree)
    requires pinned.DistinctPaths()
    ensures Matches(sha, pinned.Files(), tree) <==> AllFound(sha, pinned, tree)
  {
    var spec := pinned.Files();
    forall k | 0 <= k < |pinned.files|
      ensures pinned.files[k].0 in spec
      ensures MatchesAt(sha, spec, tree, pinned.files[k].0) == Found(sha, tree, pinned.files[k].0, pinned.files[k].1)
    {
      assert spec[pinned.files[k].0] == pinned.files[k].1;
    }
  }

  /** `verify_checkpoint`: accepts exactly a directory in which every pinned file has its size and digest. */
  method VerifyCheckpoint(sha: Sha, line: (string, Identity) -> string, pinned: Pinned, snapshot: Option<Tree>)
    returns (r: Result<nat>)
    requires pinned.Consistent(sha, line)
    ensures r.Ok? <==> snapshot.Some? && AllFound(sha, pinned, snapshot.value)
    ensures r.Ok? ==> r.value == |pinned.files|
  {
    if snapshot.None? {
      return Err;
    }
    var manifest := "";
    for i := 0 to |pinned.files|
      invariant forall k :: 0 <= k < i ==> Found(sha, snapshot.value, pinned.files[k].0, pinned.files[k].1)
      invariant manifest == ManifestLines(line, pinned.files[..i])
    {
      var (relative, identity) := pinned.files[i];
      assert pinned.files[..i + 1][..i] == pinned.files[..i];
      if relative !in snapshot.value || |snapshot.value[relative]| != identity.size
        || sha(snapshot.value[relative]) != identity.digest {
        return Err;
      }
      manifest := manifest + line(relative, identity);
    }
    assert pinned.files[..|pinned.files|] == pinned.files;
    if sha(manifest) != pinned.expected {
      assert false;
    }
    return Ok(|pinned.files|);
  }

  // ----- one resolver -----

  datatype Source = Global | Local | Managed

  /** Where a resolver is. Steps that hold a lock say so in `Holds`. */
  datatype Control =
    | ChooseLatest(download: bool)
    | AwaitLatest
    | CheckLatest
    | FillLatest(left: set<string>)
    | RenameLatest
    | ReadLatest
    | Choose(spec: Spec, offline: bool, from: Source)
    | Verify(spec: Spec, from: Source, candidate: Tree, same: bool)
    | AwaitResolve(spec: Spec, candidate: Tree, same: bool)
    | CheckManaged(spec: Spec, candidate: Tree, same: bool)
    | Link(spec: Spec, candidate: Tree, todo: set<string>)
    | RenameLink(spec: Spec)
    | AwaitDownload(spec: Spec)
    | CheckDownload(spec: Spec)
    | Fill(spec: Spec, left: set<string>)
    | RenameFill(spec: Spec)
    | Done(spec: Spec)
    | Failed
    | Crashed

  /** A resolver, its private temporary directory, and the local-profile snapshot it was given. */
  datatype Process = Process(at: Control, temporary: Tree, local: Option<Tree>)

  datatype Lock = ResolveLock | DownloadLock

  function Holds(at: Control): Option<Lock> {
    match at
    case CheckManaged(_, _, _) => Some(ResolveLock)
    case Link(_, _, _) => Some(ResolveLock)
    case RenameLink(_) => Some(ResolveLock)
    case CheckLatest => Some(DownloadLock)
    case FillLatest(_) => Some(DownloadLock)
    case RenameLatest => Some(DownloadLock)
    case CheckDownload(_) => Some(DownloadLock)
    case Fill(_, _) => Some(DownloadLock)
    case RenameFill(_) => Some(DownloadLock)
    case _ => None
  }

  /** The files of the revision as the hub lists them, each with its length where the hub declares one. */
  type Listing = map<string, Option<nat>>

  /** What the hub lists, the global cache's snapshot, the managed one, and everyone resolving this checkpoint. */
  datatype State = State(
    listing: Listing, global: Option<Tree>, managed: Option<Tree>, processes: map<Pid, Process>)

  /** A downloaded file is refused when it does not have the length declared for it. */
  predicate Fits(listing: Listing, path: string, bytes: Bytes) {
    path in listing && (listing[path].Some? ==> |bytes| == listing[path].value)
  }

  /** A whole download: every file the hub lists, and nothing else, each of the length declared for it. */
  predicate Delivered(listing: Listing, tree: Tree) {
    && listing != map[] && tree.Keys == listing.Keys
    && forall path :: path in tree && listing[path].Some? ==> |tree[path]| == listing[path].value
  }

  /** What the world decides: how a step goes, a crash, a file arriving, or a source appearing. */
  datatype Choice =
    | Proceed(sameFiles: bool, path: string)
    | Raise
    | Crash
    | Arrive(path: string, bytes: Bytes)

  datatype Event = Act(pid: Pid, choice: Choice) | GlobalAppears(tree: Tree) | LocalAppears(pid: Pid, tree: Tree)

  predicate Free(s: State, lock: Lock) {
    forall p :: p in s.processes ==> Holds(s.processes[p].at) != Some(lock)
  }

  /** The candidate from one source, if it is a directory. */
  function Candidate(s: State, p: Process, from: Source): Option<Tree> {
    match from
    case Global => s.global
    case Local => p.local
    case Managed => s.managed
  }

  /**
   * Both directories hold the very same files for the spec; links are equal in bytes, equal bytes need not be links.
   */
  predicate MayBeSame(s: State, spec: Spec, candidate: Tree) {
    s.managed.Some? && forall path :: path in spec ==>
      path in candidate && path in s.managed.value && candidate[path] == s.managed.value[path]
  }

  /** `os.rename` onto a directory: refused when that is there and not empty. */
  predicate Renames(s: State) {
    s.managed.None? || s.managed.value == map[]
  }

  function After(from: Source): Option<Source> {
    match from case Global => Some(Local) case Local => Some(Managed) case Managed => None
  }

  /** Where an undisturbed step goes; renames are `Publish`'s business. */
  function Next(sha: Sha, s: State, p: Process, sameFiles: bool, path: string): Process {
    match p.at
    case ChooseLatest(download) =>
      var found := if s.global.Some? then s.global else if p.local.Some? then p.local else s.managed;
      if found.Some?
      then p.(at := if found.value == map[] then Failed else Choose(SpecOf(sha, found.value), true, Global))
      else p.(at := if download then AwaitLatest else Failed)
    case AwaitLatest => if Free(s, DownloadLock) then p.(at := CheckLatest) else p
    case CheckLatest =>
      if s.managed.Some? then p.(at := ReadLatest)
      else if s.listing == map[] then p.(at := Failed)
      else p.(at := FillLatest(s.listing.Keys), temporary := map[])
    case FillLatest(left) => if left == {} then p.(at := RenameLatest) else p
    case ReadLatest =>
      if s.managed.None? || s.managed.value == map[] then p.(at := Failed)
      else p.(at := Choose(SpecOf(sha, s.managed.value), true, Global))
    case Choose(spec, offline, from) => Chosen(s, p, spec, offline, from, sameFiles)
    case Verify(spec, from, candidate, same) => Verified(sha, s, p, spec, from, candidate, same)
    case AwaitResolve(spec, candidate, same) =>
      if Free(s, ResolveLock) then p.(at := CheckManaged(spec, candidate, same)) else p
    case CheckManaged(spec, candidate, same) =>
      if s.managed.None? then p.(at := Link(spec, candidate, candidate.Keys), temporary := map[])
      else p.(at := if same || Matches(sha, spec, s.managed.value) then Done(spec) else Failed)
    case Link(spec, candidate, todo) =>
      if todo == {} then p.(at := RenameLink(spec))
      else if path in todo && path in candidate
      then p.(at := Link(spec, candidate, todo - {path}), temporary := p.temporary[path := candidate[path]])
      else p
    case AwaitDownload(spec) => if Free(s, DownloadLock) then p.(at := CheckDownload(spec)) else p
    case CheckDownload(spec) =>
      if s.managed.Some? then p.(at := if Matches(sha, spec, s.managed.value) then Done(spec) else Failed)
      else if s.listing == map[] then p.(at := Failed)
      else p.(at := Fill(spec, s.listing.Keys), temporary := map[])
    case Fill(spec, left) =>
      if left == {} then p.(at := if Matches(sha, spec, p.temporary) then RenameFill(spec) else Failed) else p
    case _ => p
  }

  function Chosen(s: State, p: Process, spec: Spec, offline: bool, from: Source, sameFiles: bool): Process {
    var candidate := Candidate(s, p, from);
    if candidate.Some? then
      var same := from != Managed && sameFiles && MayBeSame(s, spec, candidate.value);
      p.(at := Verify(spec, from, candidate.value, same))
    else if After(from).Some? then p.(at := Choose(spec, offline, After(from).value))
    else p.(at := if offline then Failed else AwaitDownload(spec))
  }

  function Verified(
      sha: Sha, s: State, p: Process, spec: Spec, from: Source, candidate: Tree, same: bool): Process
  {
    var source := if same && s.managed.Some? then s.managed.value else candidate;
    if !Matches(sha, spec, source) then p.(at := Failed)
    else p.(at := if from == Managed then Done(spec) else AwaitResolve(spec, candidate, same))
  }

  /** One file of a download: refused when it is shorter or longer than declared. */
  function Arrived(s: State, p: Process, path: string, bytes: Bytes): Process {
    if !(p.at.Fill? || p.at.FillLatest?) || path !in p.at.left then p
    else if !Fits(s.listing, path, bytes) then p.(at := Failed, temporary := map[])
    else
      var left := p.at.left - {path};
      p.(at := if p.at.Fill? then Fill(p.at.spec, left) else FillLatest(left),
         temporary := p.temporary[path := bytes])
  }

  predicate Renaming(at: Control) {
    at.RenameLink? || at.RenameFill? || at.RenameLatest?
  }

  /** The rename that publishes a temporary directory, or the exception it raises. */
  function Publish(s: State, pid: Pid): State
    requires pid in s.processes && Renaming(s.processes[pid].at)
  {
    var p := s.processes[pid];
    if !Renames(s) then s.(processes := s.processes[pid := p.(at := Failed, temporary := map[])])
    else
      var next := if p.at.RenameLatest? then ReadLatest else Done(p.at.spec);
      s.(managed := Some(p.temporary), processes := s.processes[pid := p.(at := next, temporary := map[])])
  }

  predicate Finished(at: Control) {
    at.Done? || at.Failed? || at.Crashed?
  }

  function Act1(sha: Sha, s: State, pid: Pid, choice: Choice): State
    requires pid in s.processes && !Finished(s.processes[pid].at)
  {
    var p := s.processes[pid];
    match choice
    case Raise => s.(processes := s.processes[pid := p.(at := Failed, temporary := map[])])
    case Crash => s.(processes := s.processes[pid := p.(at := Crashed)])
    case Arrive(path, bytes) => s.(processes := s.processes[pid := Arrived(s, p, path, bytes)])
    case Proceed(sameFiles, path) =>
      if Renaming(p.at) then Publish(s, pid)
      else s.(processes := s.processes[pid := Next(sha, s, p, sameFiles, path)])
  }

  /** One event. Sources only ever appear: a published snapshot is not changed. */
  function Apply(sha: Sha, s: State, e: Event): State {
    match e
    case Act(pid, choice) =>
      if pid in s.processes && !Finished(s.processes[pid].at) then Act1(sha, s, pid, choice) else s
    case GlobalAppears(tree) => if s.global.None? then s.(global := Some(tree)) else s
    case LocalAppears(pid, tree) =>
      if pid in s.processes && s.processes[pid].local.None?
      then s.(processes := s.processes[pid := s.processes[pid].(local := Some(tree))])
      else s
  }

  function Run(sha: Sha, s: State, events: seq<Event>): State
    decreases |events|
  {
    if events == [] then s else Run(sha, Apply(sha, s, events[0]), events[1..])
  }

  // ----- the invariant -----

  /** A tree that a source holds, which is what a resolver links from. */
  predicate FromSource(s: State, p: Process, tree: Tree) {
    s.global == Some(tree) || p.local == Some(tree)
  }

  /** A download under way: what is left, and what has arrived. */
  predicate Arriving(listing: Listing, left: set<string>, tree: Tree) {
    && listing != map[] && left <= listing.Keys && tree.Keys == listing.Keys - left
    && forall path :: path in tree ==> Fits(listing, path, tree[path])
  }

  /** What each resolver knows, given what is published. */
  predicate Knows(sha: Sha, s: State, p: Process) {
    match p.at
    case FillLatest(left) => Arriving(s.listing, left, p.temporary)
    case RenameLatest => Delivered(s.listing, p.temporary)
    case Choose(spec, _, _) => spec != map[]
    case Verify(spec, from, candidate, same) =>
      && spec != map[] && (same ==> s.managed.Some?)
      && if from == Managed then s.managed == Some(candidate) else FromSource(s, p, candidate)
    case AwaitResolve(spec, candidate, same) =>
      spec != map[] && Vouched(sha, s.managed, spec, candidate, same) && FromSource(s, p, candidate)
    case CheckManaged(spec, candidate, same) =>
      spec != map[] && Vouched(sha, s.managed, spec, candidate, same) && FromSource(s, p, candidate)
    case Link(spec, candidate, todo) =>
      && spec != map[] && Matches(sha, spec, candidate) && FromSource(s, p, candidate) && todo <= candidate.Keys
      && p.temporary.Keys == candidate.Keys - todo
      && forall path :: path in p.temporary ==> p.temporary[path] == candidate[path]
    case RenameLink(spec) => spec != map[] && Matches(sha, spec, p.temporary) && FromSource(s, p, p.temporary)
    case AwaitDownload(spec) => spec != map[]
    case CheckDownload(spec) => spec != map[]
    case Fill(spec, left) => spec != map[] && Arriving(s.listing, left, p.temporary)
    case RenameFill(spec) => spec != map[] && Matches(sha, spec, p.temporary) && Delivered(s.listing, p.temporary)
    case Done(spec) => s.managed.Some? && Matches(sha, spec, s.managed.value)
    case _ => true
  }

  /** The candidate has been verified, or the managed snapshot in its place. */
  predicate Vouched(sha: Sha, managed: Option<Tree>, spec: Spec, candidate: Tree, same: bool) {
    if same then managed.Some? && Matches(sha, spec, managed.value) else Matches(sha, spec, candidate)
  }

  /** A complete snapshot: all of what a source holds, or all of what the hub lists. */
  predicate Complete(s: State, tree: Tree) {
    Delivered(s.listing, tree) || exists pid :: pid in s.processes && FromSource(s, s.processes[pid], tree)
  }

  ghost predicate Safe(sha: Sha, s: State) {
    && (s.managed.Some? ==> s.managed.value != map[] && Complete(s, s.managed.value))
    && forall pid :: pid in s.processes ==> Knows(sha, s, s.processes[pid])
  }

  /** Nothing published yet; everyone about to begin, with a pinned spec or a moving selector. */
  ghost predicate Initial(s: State) {
    && s.managed.None?
    && forall pid :: pid in s.processes ==>
         var p := s.processes[pid];
         p.temporary == map[] && (p.at.ChooseLatest? || (p.at.Choose? && p.at.from == Global && p.at.spec != map[]))
  }

  lemma SomePath(spec: Spec)
    requires spec != map[]
    ensures exists path :: path in spec
  {
    assert spec.Keys != {};
  }

  /** A tree that matches a non-empty spec is not empty. */
  lemma MatchedNotEmpty(sha: Sha, spec: Spec, tree: Tree)
    requires spec != map[] && Matches(sha, spec, tree)
    ensures tree != map[]
  {
    SomePath(spec);
    var path :| path in spec;
    assert MatchesAt(sha, spec, tree, path);
  }

  lemma SpecNotEmpty(sha: Sha, tree: Tree)
    requires tree != map[]
    ensures SpecOf(sha, tree) != map[]
  {
    assert SpecOf(sha, tree).Keys == tree.Keys != {};
  }

  lemma LinkedAll(candidate: Tree, temporary: Tree)
    requires temporary.Keys == candidate.Keys
    requires forall path :: path in temporary ==> temporary[path] == candidate[path]
    ensures temporary == candidate
  {
  }

  lemma LatestKnows(sha: Sha, s: State, p: Process, sameFiles: bool, path: string)
    requires Safe(sha, s) && Knows(sha, s, p)
    requires p.at.ChooseLatest? || p.at.AwaitLatest? || p.at.CheckLatest? || p.at.FillLatest? || p.at.ReadLatest?
    ensures Knows(sha, s, Next(sha, s, p, sameFiles, path)) && Next(sha, s, p, sameFiles, path).local == p.local
  {
    if p.at.ChooseLatest? {
      var found := if s.global.Some? then s.global else if p.local.Some? then p.local else s.managed;
      if found.Some? && found.value != map[] {
        SpecNotEmpty(sha, found.value);
      }
    }
    if p.at.ReadLatest? && s.managed.Some? {
      SpecNotEmpty(sha, s.managed.value);
    }
  }

  lemma ChoiceKnows(sha: Sha, s: State, p: Process, sameFiles: bool, path: string)
    requires Safe(sha, s) && Knows(sha, s, p) && (p.at.Choose? || p.at.Verify?)
    ensures Knows(sha, s, Next(sha, s, p, sameFiles, path)) && Next(sha, s, p, sameFiles, path).local == p.local
  {
  }

  lemma LockedKnows(sha: Sha, s: State, p: Process, sameFiles: bool, path: string)
    requires Safe(sha, s) && Knows(sha, s, p)
    requires p.at.AwaitResolve? || p.at.CheckManaged? || p.at.Link?
    ensures Knows(sha, s, Next(sha, s, p, sameFiles, path)) && Next(sha, s, p, sameFiles, path).local == p.local
  {
    if p.at.Link? && p.at.todo == {} {
      LinkedAll(p.at.candidate, p.temporary);
    }
  }

  lemma NextKnows(sha: Sha, s: State, p: Process, sameFiles: bool, path: string)
    requires Safe(sha, s) && Knows(sha, s, p) && !Renaming(p.at)
    ensures Knows(sha, s, Next(sha, s, p, sameFiles, path)) && Next(sha, s, p, sameFiles, path).local == p.local
  {
    match p.at
    case ChooseLatest(_) => LatestKnows(sha, s, p, sameFiles, path);
    case AwaitLatest => LatestKnows(sha, s, p, sameFiles, path);
    case CheckLatest => LatestKnows(sha, s, p, sameFiles, path);
    case FillLatest(_) => LatestKnows(sha, s, p, sameFiles, path);
    case ReadLatest => LatestKnows(sha, s, p, sameFiles, path);
    case Choose(_, _, _) => ChoiceKnows(sha, s, p, sameFiles, path);
    case Verify(_, _, _, _) => ChoiceKnows(sha, s, p, sameFiles, path);
    case AwaitResolve(_, _, _) => LockedKnows(sha, s, p, sameFiles, path);
    case CheckManaged(_, _, _) => LockedKnows(sha, s, p, sameFiles, path);
    case Link(_, _, _) => LockedKnows(sha, s, p, sameFiles, path);
    case _ =>
  }

  lemma ArrivedKnows(sha: Sha, s: State, p: Process, path: string, bytes: Bytes)
    requires Knows(sha, s, p)
    ensures Knows(sha, s, Arrived(s, p, path, bytes)) && Arrived(s, p, path, bytes).local == p.local
  {
  }

  /** Sources that appear, and a snapshot where there was none, never undo what a resolver knows. */
  predicate Grows(s: State, t: State) {
    && t.listing == s.listing && (s.global.Some? ==> t.global == s.global)
    && (s.managed.Some? ==> t.managed == s.managed)
  }

  lemma KnowsGrows(sha: Sha, s: State, t: State, p: Process, q: Process)
    requires Knows(sha, s, p) && Grows(s, t) && q.at == p.at && q.temporary == p.temporary
    requires p.local.Some? ==> q.local == p.local
    ensures Knows(sha, t, q)
  {
  }

  /** A complete snapshot stays one. */
  lemma CompleteGrows(s: State, t: State, tree: Tree)
    requires Complete(s, tree) && Grows(s, t) && s.processes.Keys <= t.processes.Keys
    requires forall pid :: pid in s.processes && s.processes[pid].local.Some? ==>
               t.processes[pid].local == s.processes[pid].local
    ensures Complete(t, tree)
  {
    if !Delivered(s.listing, tree) {
      var pid :| pid in s.processes && FromSource(s, s.processes[pid], tree);
      assert FromSource(t, t.processes[pid], tree);
    }
  }

  /** One process moves and nothing else changes. */
  lemma MoveSafe(sha: Sha, s: State, pid: Pid, p: Process)
    requires Safe(sha, s) && pid in s.processes && Knows(sha, s, p)
    requires s.processes[pid].local.Some? ==> p.local == s.processes[pid].local
    ensures Safe(sha, s.(processes := s.processes[pid := p]))
  {
    var t := s.(processes := s.processes[pid := p]);
    if s.managed.Some? {
      CompleteGrows(s, t, s.managed.value);
    }
    forall q | q in t.processes
      ensures Knows(sha, t, t.processes[q])
    {
      KnowsGrows(sha, s, t, if q == pid then p else s.processes[q], t.processes[q]);
    }
  }

  /** What is renamed into place is complete, and matches what its resolver was asked for. */
  lemma PublishSafe(sha: Sha, s: State, pid: Pid)
    requires Safe(sha, s) && pid in s.processes && Renaming(s.processes[pid].at)
    ensures Safe(sha, Publish(s, pid))
    ensures s.managed.Some? ==> Publish(s, pid).managed == s.managed
    ensures s.managed.None? ==>
              && Publish(s, pid).managed == Some(s.processes[pid].temporary)
              && Complete(s, s.processes[pid].temporary)
              && (!s.processes[pid].at.RenameLatest? ==>
                    Matches(sha, s.processes[pid].at.spec, s.processes[pid].temporary))
  {
    var p, t := s.processes[pid], Publish(s, pid);
    if s.managed.None? {
      if !p.at.RenameLatest? {
        MatchedNotEmpty(sha, p.at.spec, p.temporary);
      }
      assert Complete(s, p.temporary);
      CompleteGrows(s, t, p.temporary);
      forall q | q in s.processes
        ensures Knows(sha, t, t.processes[q])
      {
        if q != pid {
          KnowsGrows(sha, s, t, s.processes[q], s.processes[q]);
        }
      }
    } else {
      MoveSafe(sha, s, pid, p.(at := Failed, temporary := map[]));
    }
  }

  lemma GlobalSafe(sha: Sha, s: State, tree: Tree)
    requires Safe(sha, s) && s.global.None?
    ensures Safe(sha, s.(global := Some(tree)))
  {
    var t := s.(global := Some(tree));
    if s.managed.Some? {
      CompleteGrows(s, t, s.managed.value);
    }
    forall q | q in t.processes
      ensures Knows(sha, t, t.processes[q])
    {
      KnowsGrows(sha, s, t, s.processes[q], s.processes[q]);
    }
  }

  /** One event keeps the invariant, and never touches a published snapshot. */
  lemma ApplySafe(sha: Sha, s: State, e: Event)
    requires Safe(sha, s)
    ensures Safe(sha, Apply(sha, s, e))
    ensures s.managed.Some? ==> Apply(sha, s, e).managed == s.managed
  {
    match e
    case Act(pid, choice) =>
      if pid in s.processes && !Finished(s.processes[pid].at) {
        ActSafe(sha, s, pid, choice);
      }
    case GlobalAppears(tree) =>
      if s.global.None? {
        GlobalSafe(sha, s, tree);
      }
    case LocalAppears(pid, tree) =>
      if pid in s.processes && s.processes[pid].local.None? {
        var p := s.processes[pid].(local := Some(tree));
        KnowsGrows(sha, s, s, s.processes[pid], p);
        MoveSafe(sha, s, pid, p);
      }
  }

  lemma ActSafe(sha: Sha, s: State, pid: Pid, choice: Choice)
    requires Safe(sha, s) && pid in s.processes && !Finished(s.processes[pid].at)
    ensures Safe(sha, Act1(sha, s, pid, choice))
    ensures s.managed.Some? ==> Act1(sha, s, pid, choice).managed == s.managed
  {
    var p := s.processes[pid];
    match choice
    case Raise => MoveSafe(sha, s, pid, p.(at := Failed, temporary := map[]));
    case Crash => MoveSafe(sha, s, pid, p.(at := Crashed));
    case Arrive(path, bytes) =>
      ArrivedKnows(sha, s, p, path, bytes);
      MoveSafe(sha, s, pid, Arrived(s, p, path, bytes));
    case Proceed(sameFiles, path) =>
      if Renaming(p.at) {
        PublishSafe(sha, s, pid);
      } else {
        NextKnows(sha, s, p, sameFiles, path);
        MoveSafe(sha, s, pid, Next(sha, s, p, sameFiles, path));
      }
  }

  lemma {:induction false} RunSafe(sha: Sha, s: State, events: seq<Event>)
    requires Safe(sha, s)
    ensures Safe(sha, Run(sha, s, events))
    ensures s.managed.Some? ==> Run(sha, s, events).managed == s.managed
    decreases |events|
  {
    if events != [] {
      ApplySafe(sha, s, events[0]);
      RunSafe(sha, Apply(sha, s, events[0]), events[1..]);
    }
  }

  lemma {:induction false} RunConcat(sha: Sha, s: State, before: seq<Event>, after: seq<Event>)
    ensures Run(sha, s, before + after) == Run(sha, Run(sha, s, before), after)
    decreases |before|
  {
    if before == [] {
      assert before + after == after;
    } else {
      assert (before + after)[1..] == before[1..] + after;
      RunConcat(sha, Apply(sha, s, before[0]), before[1..], after);
    }
  }

  /**
   * In every interleaving, with crashes and failures anywhere: the managed path is absent or holds a complete snapshot,
   * all of what a source holds or all of what the hub lists; it never changes once it is there; and whatever a resolver
   * returns matches its spec there, then and ever after.
   */
  lemma CacheIsSafe(sha: Sha, s: State, before: seq<Event>, after: seq<Event>, pid: Pid)
    requires Initial(s)
    ensures var then', later := Run(sha, s, before), Run(sha, s, before + after);
            && (then'.managed.Some? ==>
                  && then'.managed.value != map[] && Complete(then', then'.managed.value)
                  && later.managed == then'.managed)
            && (pid in then'.processes && then'.processes[pid].at.Done? ==>
                  then'.managed.Some? && later.managed == then'.managed
                  && Matches(sha, then'.processes[pid].at.spec, later.managed.value))
  {
    RunConcat(sha, s, before, after);
    RunSafe(sha, s, before);
    RunSafe(sha, Run(sha, s, before), after);
    var then' := Run(sha, s, before);
    assert pid in then'.processes ==> Knows(sha, then', then'.processes[pid]);
  }

  /**
   * The two lock files do not exclude each other: one resolver linking and one downloading can both have seen no
   * managed snapshot and both be about to rename. The second rename is refused, and the first snapshot stands.
   */
  lemma BothPublishersSafe(sha: Sha, s: State, linker: Pid, loader: Pid)
    requires Safe(sha, s) && s.managed.None? && linker in s.processes && loader in s.processes && linker != loader
    requires s.processes[linker].at.RenameLink? && s.processes[loader].at.RenameFill?
    ensures var once := Publish(s, linker);
            && once.managed == Some(s.processes[linker].temporary) && once.processes[loader] == s.processes[loader]
            && Publish(once, loader).managed == once.managed && Publish(once, loader).processes[loader].at.Failed?
  {
    MatchedNotEmpty(sha, s.processes[linker].at.spec, s.processes[linker].temporary);
  }

  predicate BothRenaming(s: State, loader: Pid, linker: Pid) {
    && s.managed.None? && loader in s.processes && linker in s.processes
    && s.processes[loader].at.RenameFill? && s.processes[linker].at.RenameLink?
  }

  lemma RunLast(sha: Sha, s: State, events: seq<Event>, e: Event)
    ensures Run(sha, s, events + [e]) == Apply(sha, Run(sha, s, events), e)
  {
    RunConcat(sha, s, events, [e]);
    assert [e][1..] == [];
  }

  /** A process alone is moved to `at`; the rest of the state stays. */
  function Moved(s: State, pid: Pid, at: Control, temporary: Tree): State
    requires pid in s.processes
  {
    s.(processes := s.processes[pid := s.processes[pid].(at := at, temporary := temporary)])
  }

  /** One more undisturbed step of one process. */
  lemma Goes(sha: Sha, start: State, events: seq<Event>, s: State, pid: Pid, at: Control, temporary: Tree)
    returns (more: seq<Event>)
    requires Run(sha, start, events) == s && pid in s.processes
    requires !Finished(s.processes[pid].at) && !Renaming(s.processes[pid].at)
    requires Next(sha, s, s.processes[pid], false, "w") == s.processes[pid].(at := at, temporary := temporary)
    ensures Run(sha, start, more) == Moved(s, pid, at, temporary)
  {
    var go := Act(pid, Proceed(false, "w"));
    RunLast(sha, start, events, go);
    more := events + [go];
  }

  /** A resolver that finds no source waits to download. */
  lemma LoaderLooks(sha: Sha, s: State, spec: Spec) returns (events: seq<Event>)
    requires s.global.None? && s.managed.None? && 0 in s.processes
    requires s.processes[0] == Process(Choose(spec, false, Global), map[], None)
    ensures Run(sha, s, events) == Moved(s, 0, AwaitDownload(spec), map[])
  {
    events := Goes(sha, s, [], s, 0, Choose(spec, false, Local), map[]);
    var fromLocal := Moved(s, 0, Choose(spec, false, Local), map[]);
    events := Goes(sha, s, events, fromLocal, 0, Choose(spec, false, Managed), map[]);
    events := Goes(sha, s, events, Moved(s, 0, Choose(spec, false, Managed), map[]), 0, AwaitDownload(spec), map[]);
  }

  lemma StillFree(s: State, pid: Pid, at: Control, lock: Lock)
    requires pid in s.processes && Free(s, lock) && Holds(at) != Some(lock)
    ensures Free(Moved(s, pid, at, map[]), lock)
  {
  }

  /** It takes its lock. */
  lemma LoaderTakes(sha: Sha, s: State, spec: Spec) returns (events: seq<Event>)
    requires s.global.None? && s.managed.None? && 0 in s.processes && Free(s, DownloadLock)
    requires s.processes[0] == Process(Choose(spec, false, Global), map[], None)
    ensures Run(sha, s, events) == Moved(s, 0, CheckDownload(spec), map[])
  {
    events := LoaderLooks(sha, s, spec);
    StillFree(s, 0, AwaitDownload(spec), DownloadLock);
    events := Goes(sha, s, events, Moved(s, 0, AwaitDownload(spec), map[]), 0, CheckDownload(spec), map[]);
  }

  /** It begins to download. */
  lemma LoaderBegins(sha: Sha, s: State, spec: Spec) returns (events: seq<Event>)
    requires s.global.None? && s.managed.None? && 0 in s.processes && Free(s, DownloadLock)
    requires s.processes[0] == Process(Choose(spec, false, Global), map[], None)
    requires s.listing != map[]
    ensures Run(sha, s, events) == Moved(s, 0, Fill(spec, s.listing.Keys), map[])
  {
    events := LoaderTakes(sha, s, spec);
    events := Goes(sha, s, events, Moved(s, 0, CheckDownload(spec), map[]), 0, Fill(spec, s.listing.Keys), map[]);
  }

  /** Its file arrives, and it is about to rename. */
  lemma LoaderGets(sha: Sha, s: State, spec: Spec, bytes: Bytes) returns (events: seq<Event>)
    requires s.global.None? && s.managed.None? && 0 in s.processes && Free(s, DownloadLock)
    requires s.processes[0] == Process(Choose(spec, false, Global), map[], None)
    requires Matches(sha, spec, map["w" := bytes]) && s.listing == map["w" := None]
    ensures Run(sha, s, events) == Moved(s, 0, RenameFill(spec), map["w" := bytes])
  {
    assert "w" in s.listing;
    events := LoaderBegins(sha, s, spec);
    RunLast(sha, s, events, Act(0, Arrive("w", bytes)));
    events := events + [Act(0, Arrive("w", bytes))];
    var filled := Moved(s, 0, Fill(spec, {}), map["w" := bytes]);
    assert map[]["w" := bytes] == map["w" := bytes] && s.listing.Keys - {"w"} == {};
    assert Run(sha, s, events) == filled;
    events := Goes(sha, s, events, filled, 0, RenameFill(spec), map["w" := bytes]);
  }

  /** A resolver that finds a source verifies it. */
  lemma LinkerLooks(sha: Sha, s: State, spec: Spec, tree: Tree) returns (events: seq<Event>)
    requires s.global == Some(tree) && s.managed.None? && 1 in s.processes
    requires s.processes[1] == Process(Choose(spec, false, Global), map[], None) && Matches(sha, spec, tree)
    ensures Run(sha, s, events) == Moved(s, 1, AwaitResolve(spec, tree, false), map[])
  {
    events := Goes(sha, s, [], s, 1, Verify(spec, Global, tree, false), map[]);
    var verifying := Moved(s, 1, Verify(spec, Global, tree, false), map[]);
    events := Goes(sha, s, events, verifying, 1, AwaitResolve(spec, tree, false), map[]);
  }

  /** It takes its lock and begins to link. */
  lemma LinkerBegins(sha: Sha, s: State, spec: Spec, tree: Tree) returns (events: seq<Event>)
    requires s.global == Some(tree) && s.managed.None? && 1 in s.processes && Free(s, ResolveLock)
    requires s.processes[1] == Process(Choose(spec, false, Global), map[], None) && Matches(sha, spec, tree)
    ensures Run(sha, s, events) == Moved(s, 1, Link(spec, tree, tree.Keys), map[])
  {
    events := LinkerLooks(sha, s, spec, tree);
    var waiting := Moved(s, 1, AwaitResolve(spec, tree, false), map[]);
    var checking := Moved(s, 1, CheckManaged(spec, tree, false), map[]);
    assert Free(waiting, ResolveLock);
    events := Goes(sha, s, events, waiting, 1, CheckManaged(spec, tree, false), map[]);
    events := Goes(sha, s, events, checking, 1, Link(spec, tree, tree.Keys), map[]);
  }

  /** It links its one file, and is about to rename. */
  lemma LinkerGets(sha: Sha, s: State, spec: Spec, tree: Tree) returns (events: seq<Event>)
    requires s.global == Some(tree) && s.managed.None? && 1 in s.processes && Free(s, ResolveLock)
    requires s.processes[1] == Process(Choose(spec, false, Global), map[], None) && Matches(sha, spec, tree)
    requires tree.Keys == {"w"}
    ensures Run(sha, s, events) == Moved(s, 1, RenameLink(spec), tree)
  {
    events := LinkerBegins(sha, s, spec, tree);
    assert map[]["w" := tree["w"]] == tree && tree.Keys - {"w"} == {};
    events := Goes(sha, s, events, Moved(s, 1, Link(spec, tree, tree.Keys), map[]), 1, Link(spec, tree, {}), tree);
    events := Goes(sha, s, events, Moved(s, 1, Link(spec, tree, {}), tree), 1, RenameLink(spec), tree);
  }

  /** Such a state is reached: the downloader looks before a source appears, the linker after. */
  lemma BothPublishersReached(sha: Sha, bytes: Bytes)
    ensures exists s: State, events: seq<Event> :: Initial(s) && BothRenaming(Run(sha, s, events), 0, 1)
  {
    var tree: Tree := map["w" := bytes];
    var spec := SpecOf(sha, tree);
    assert "w" in tree;
    var starting := Process(Choose(spec, false, Global), map[], None);
    var s := State(map["w" := None], None, None, map[0 := starting, 1 := starting]);
    SpecNotEmpty(sha, tree);
    var down := LoaderGets(sha, s, spec, bytes);
    var loaded := Run(sha, s, down);
    var appear := GlobalAppears(tree);
    RunLast(sha, s, down, appear);
    var seen := Run(sha, s, down + [appear]);
    assert seen.processes[1] == starting && seen.global == Some(tree);
    var link := LinkerGets(sha, seen, spec, tree);
    RunConcat(sha, s, down + [appear], link);
    assert BothRenaming(Run(sha, s, down + [appear] + link), 0, 1);
  }
}
