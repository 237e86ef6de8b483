/** Moving what is selected into the archive. */
module Archiving {
  // One rename or one copy-verify-delete at a time, stopping anywhere.

  import opened Results
  import opened RunReferences
  import opened DataLayout
  import opened DataSelection

  // ----- directory trees -----

  /** The regular files, by path. A directory is there when a file is below it. */
  type Disk = map<Path, string>

  /** What a directory holds, by the path from there. */
  type Tree = map<Path, string>

  function TreeAt(disk: Disk, root: Path): Tree {
    map rest | rest in RestsAt(disk, root) && root + rest in disk :: disk[root + rest]
  }

  function RestsAt(disk: Disk, root: Path): set<Path> {
    set p | p in disk && root <= p :: p[|root|..]
  }

  function WithoutTree(disk: Disk, root: Path): Disk {
    map p | p in disk && !(root <= p) :: disk[p]
  }

  function WithTree(disk: Disk, root: Path, tree: Tree): Disk {
    disk + map p | p in PathsOf(root, tree) && root <= p && p[|root|..] in tree :: tree[p[|root|..]]
  }

  function PathsOf(root: Path, tree: Tree): set<Path> {
    set rest | rest in tree :: root + rest
  }

  predicate Present(disk: Disk, root: Path) {
    TreeAt(disk, root) != map[]
  }

  // ----- the steps -----

  type Move = (Path, Path)

  datatype Control =
    | Ready
    | Copying(todo: set<Path>)
    | Comparing
    | Renaming
    | Removing(todo: set<Path>)
    | Done
    | Halted

  /** The files, the copy in progress, and how many moves are behind. */
  datatype State = State(fs: Disk, stage: Tree, next: nat, at: Control)

  /** What the world decides: whether a rename crosses filesystems, what a copied file reads as, and where it stops. */
  datatype Choice = Go(crosses: bool, path: Path, bytes: string) | Stop

  /** `os.replace`: the whole tree, as it is. */
  function Renamed(fs: Disk, m: Move): Disk {
    WithTree(WithoutTree(fs, m.0), m.1, TreeAt(fs, m.0))
  }

  function Begin(moves: seq<Move>, s: State, crosses: bool): State
    requires s.next < |moves|
  {
    var (source, destination) := moves[s.next];
    if Present(s.fs, destination) || !Present(s.fs, source) then s.(at := Halted)
    else if crosses then s.(at := Copying(TreeAt(s.fs, source).Keys), stage := map[])
    else s.(fs := Renamed(s.fs, moves[s.next]), next := s.next + 1)
  }

  /** `_archive_one` for the current move; `archive` for the list. */
  function Step(moves: seq<Move>, s: State, c: Choice): State {
    if s.at.Done? || s.at.Halted? then s
    else if c.Stop? then s.(at := Halted)
    else if s.next >= |moves| then s.(at := Done)
    else
      var (source, destination) := moves[s.next];
      match s.at
      case Ready => Begin(moves, s, c.crosses)
      case Copying(todo) =>
        if todo == {} then s.(at := Comparing)
        else if c.path in todo then s.(at := Copying(todo - {c.path}), stage := s.stage[c.path := c.bytes])
        else s
      case Comparing => s.(at := if s.stage == TreeAt(s.fs, source) then Renaming else Halted)
      case Renaming =>
        if Present(s.fs, destination) then s.(at := Halted)
        else s.(fs := WithTree(s.fs, destination, s.stage), at := Removing(TreeAt(s.fs, source).Keys))
      case Removing(todo) =>
        if todo == {} then s.(fs := WithoutTree(s.fs, source), next := s.next + 1, at := Ready)
        else if c.path in todo then s.(fs := s.fs - {source + c.path}, at := Removing(todo - {c.path}))
        else s
      case _ => s
  }

  function Run(moves: seq<Move>, s: State, choices: seq<Choice>): State
    decreases |choices|
  {
    if choices == [] then s else Run(moves, Step(moves, s, choices[0]), choices[1..])
  }

  // ----- what is conserved -----

  predicate Same(before: Disk, after: Disk, path: Path) {
    FileAt(before, path) == FileAt(after, path)
  }

  /** The tree that was at the source is complete at the source or at the destination. */
  predicate Kept(before: Disk, after: Disk, m: Move) {
    TreeAt(after, m.0) == TreeAt(before, m.0) || TreeAt(after, m.1) == TreeAt(before, m.0)
  }

  /** The path is in one of the directories moved, or where one of them goes. */
  predicate Touched(moves: seq<Move>, path: Path) {
    exists i :: 0 <= i < |moves| && (moves[i].0 <= path || moves[i].1 <= path)
  }

  /** A move not yet begun: its source is as it was. */
  predicate Waiting(before: Disk, s: State, m: Move) {
    TreeAt(s.fs, m.0) == TreeAt(before, m.0)
  }

  /** The tree is where it was to go, as it was, and gone from where it came from. */
  predicate Arrived(before: Disk, after: Disk, m: Move) {
    Present(before, m.0) && !Present(after, m.0) && TreeAt(after, m.1) == TreeAt(before, m.0)
  }

  predicate Moved(before: Disk, s: State, m: Move) {
    Arrived(before, s.fs, m)
  }

  /** The move under way. */
  predicate UnderWay(before: Disk, s: State, m: Move) {
    match s.at
    case Renaming => Waiting(before, s, m) && Present(before, m.0) && s.stage == TreeAt(before, m.0)
    case Removing(_) => Present(before, m.0) && TreeAt(s.fs, m.1) == TreeAt(before, m.0)
    case Copying(_) => Waiting(before, s, m) && Present(before, m.0)
    case Comparing => Waiting(before, s, m) && Present(before, m.0)
    case Ready => Waiting(before, s, m)
    case _ => Kept(before, s.fs, m)
  }

  ghost predicate Orderly(moves: seq<Move>, before: Disk, s: State) {
    && s.next <= |moves| && (s.at.Done? ==> s.next == |moves|)
    && (forall i :: 0 <= i < s.next ==> Moved(before, s, moves[i]))
    && (s.next < |moves| ==> UnderWay(before, s, moves[s.next]))
    && (forall i :: s.next < i < |moves| ==> Waiting(before, s, moves[i]))
    && forall path :: !Touched(moves, path) ==> Same(before, s.fs, path)
  }

  // ----- changes in one place -----

  function FileAt(files: map<Path, string>, path: Path): Option<string> {
    if path in files then Some(files[path]) else None
  }

  lemma TreeFile(disk: Disk, root: Path, rest: Path)
    ensures FileAt(TreeAt(disk, root), rest) == FileAt(disk, root + rest)
  {
    assert root <= root + rest && (root + rest)[|root|..] == rest;
    if root + rest in disk {
      assert rest in RestsAt(disk, root);
    }
  }

  lemma WithoutFile(disk: Disk, root: Path, path: Path)
    ensures FileAt(WithoutTree(disk, root), path) == if root <= path then None else FileAt(disk, path)
  {
  }

  lemma WithFile(disk: Disk, root: Path, tree: Tree, path: Path)
    ensures FileAt(WithTree(disk, root, tree), path)
         == if root <= path && path[|root|..] in tree then Some(tree[path[|root|..]]) else FileAt(disk, path)
  {
    if root <= path && path[|root|..] in tree {
      assert path == root + path[|root|..];
      assert path in PathsOf(root, tree);
    }
  }

  lemma SameFiles(a: map<Path, string>, b: map<Path, string>)
    requires forall path :: FileAt(a, path) == FileAt(b, path)
    ensures a == b
  {
    forall path
      ensures path in a <==> path in b
      ensures path in a ==> a[path] == b[path]
    {
      assert FileAt(a, path) == FileAt(b, path);
    }
  }

  /** Nothing has changed but in these two directories. */
  ghost predicate OnlyIn(fs: Disk, after: Disk, m: Move) {
    forall path :: !(m.0 <= path) && !(m.1 <= path) ==> FileAt(after, path) == FileAt(fs, path)
  }

  /** Two directories on the way to one file are one inside the other. */
  lemma OnOneWay(a: Path, b: Path, path: Path)
    requires a <= path && b <= path
    ensures a <= b || b <= a
  {
    if |a| <= |b| {
      assert a == path[..|a|] == b[..|a|];
    } else {
      assert b == path[..|b|] == a[..|b|];
    }
  }

  /** A directory apart from both holds what it held. */
  lemma ElsewhereSame(fs: Disk, after: Disk, m: Move, root: Path)
    requires OnlyIn(fs, after, m) && Apart(m.0, root) && Apart(m.1, root)
    ensures TreeAt(after, root) == TreeAt(fs, root)
  {
    forall rest: Path
      ensures FileAt(TreeAt(after, root), rest) == FileAt(TreeAt(fs, root), rest)
    {
      TreeFile(after, root, rest);
      TreeFile(fs, root, rest);
      if m.0 <= root + rest {
        OnOneWay(m.0, root, root + rest);
      } else if m.1 <= root + rest {
        OnOneWay(m.1, root, root + rest);
      }
    }
    SameFiles(TreeAt(after, root), TreeAt(fs, root));
  }

  lemma Gone(fs: Disk, root: Path)
    ensures TreeAt(WithoutTree(fs, root), root) == map[] && OnlyIn(fs, WithoutTree(fs, root), (root, root))
  {
    forall rest: Path
      ensures FileAt(TreeAt(WithoutTree(fs, root), root), rest) == FileAt(map[], rest)
    {
      TreeFile(WithoutTree(fs, root), root, rest);
      WithoutFile(fs, root, root + rest);
    }
    SameFiles(TreeAt(WithoutTree(fs, root), root), map[]);
    forall path | !(root <= path)
      ensures FileAt(WithoutTree(fs, root), path) == FileAt(fs, path)
    {
      WithoutFile(fs, root, path);
    }
  }

  lemma Placed(fs: Disk, root: Path, tree: Tree)
    requires !Present(fs, root)
    ensures TreeAt(WithTree(fs, root, tree), root) == tree && OnlyIn(fs, WithTree(fs, root, tree), (root, root))
  {
    forall rest: Path
      ensures FileAt(TreeAt(WithTree(fs, root, tree), root), rest) == FileAt(tree, rest)
    {
      TreeFile(WithTree(fs, root, tree), root, rest);
      TreeFile(fs, root, rest);
      WithFile(fs, root, tree, root + rest);
      assert (root + rest)[|root|..] == rest;
    }
    SameFiles(TreeAt(WithTree(fs, root, tree), root), tree);
    forall path | !(root <= path)
      ensures FileAt(WithTree(fs, root, tree), path) == FileAt(fs, path)
    {
      WithFile(fs, root, tree, path);
    }
  }

  lemma OnlyInTurn(a: Disk, b: Disk, c: Disk, m: Move)
    requires OnlyIn(a, b, (m.0, m.0)) && OnlyIn(b, c, (m.1, m.1))
    ensures OnlyIn(a, c, m)
  {
    forall path | !(m.0 <= path) && !(m.1 <= path)
      ensures FileAt(c, path) == FileAt(a, path)
    {
      assert FileAt(b, path) == FileAt(a, path);
    }
  }

  lemma RenamedMoves(fs: Disk, m: Move)
    requires Apart(m.0, m.1) && !Present(fs, m.1)
    ensures OnlyIn(fs, Renamed(fs, m), m)
    ensures TreeAt(Renamed(fs, m), m.0) == map[] && TreeAt(Renamed(fs, m), m.1) == TreeAt(fs, m.0)
  {
    var less, after := WithoutTree(fs, m.0), Renamed(fs, m);
    Gone(fs, m.0);
    ElsewhereSame(fs, less, (m.0, m.0), m.1);
    Placed(less, m.1, TreeAt(fs, m.0));
    ElsewhereSame(less, after, (m.1, m.1), m.0);
    OnlyInTurn(fs, less, after, m);
  }

  // ----- every step keeps it -----

  lemma ApartBothWays(moves: seq<Move>, i: nat, j: nat)
    requires Separate(moves) && i < |moves| && j < |moves| && i != j
    ensures Apart(moves[i].0, moves[j].0) && Apart(moves[i].1, moves[j].0)
    ensures Apart(moves[i].0, moves[j].1) && Apart(moves[i].1, moves[j].1)
  {
    if i < j {
      assert Unrelated(moves[i], moves[j]);
    } else {
      assert Unrelated(moves[j], moves[i]);
    }
  }

  /** A change in the two directories of the current move leaves every other move as it was. */
  lemma OthersStay(moves: seq<Move>, before: Disk, s: State, t: State)
    requires Separate(moves) && Orderly(moves, before, s) && s.next < |moves|
    requires OnlyIn(s.fs, t.fs, moves[s.next])
    ensures forall i :: 0 <= i < s.next ==> Moved(before, t, moves[i])
    ensures forall i :: s.next < i < |moves| ==> Waiting(before, t, moves[i])
    ensures forall path :: !Touched(moves, path) ==> Same(before, t.fs, path)
  {
    forall i | 0 <= i < |moves| && i != s.next
      ensures TreeAt(t.fs, moves[i].0) == TreeAt(s.fs, moves[i].0)
      ensures TreeAt(t.fs, moves[i].1) == TreeAt(s.fs, moves[i].1)
    {
      ApartBothWays(moves, s.next, i);
      ElsewhereSame(s.fs, t.fs, moves[s.next], moves[i].0);
      ElsewhereSame(s.fs, t.fs, moves[s.next], moves[i].1);
    }
    forall i | 0 <= i < s.next
      ensures Moved(before, t, moves[i])
    {
      assert Moved(before, s, moves[i]);
    }
    forall i | s.next < i < |moves|
      ensures Waiting(before, t, moves[i])
    {
      assert Waiting(before, s, moves[i]);
    }
    forall path | !Touched(moves, path)
      ensures Same(before, t.fs, path)
    {
      assert Same(before, s.fs, path);
      assert Same(s.fs, t.fs, path);
    }
  }

  /** The current move goes on as it should, and changes nothing elsewhere. */
  ghost predicate GoesOn(before: Disk, s: State, t: State, m: Move) {
    && OnlyIn(s.fs, t.fs, m) && s.next <= t.next <= s.next + 1 && !t.at.Done?
    && (t.next == s.next ==> UnderWay(before, t, m)) && (t.next == s.next + 1 ==> Moved(before, t, m) && t.at.Ready?)
  }

  lemma CurrentGoesOn(moves: seq<Move>, before: Disk, s: State, c: Choice)
    requires s.next < |moves| && Apart(moves[s.next].0, moves[s.next].1) && !s.at.Done?
    requires UnderWay(before, s, moves[s.next])
    ensures GoesOn(before, s, Step(moves, s, c), moves[s.next])
  {
    match s.at
    case Ready => BegunGoesOn(moves, before, s, c);
    case Renaming => PlacedGoesOn(moves, before, s, c);
    case Removing(_) => RemovedGoesOn(moves, before, s, c);
    case _ => CopiedGoesOn(moves, before, s, c);
  }

  lemma CopiedGoesOn(moves: seq<Move>, before: Disk, s: State, c: Choice)
    requires s.next < |moves| && (s.at.Copying? || s.at.Comparing? || s.at.Halted?)
    requires UnderWay(before, s, moves[s.next])
    ensures GoesOn(before, s, Step(moves, s, c), moves[s.next])
  {
    assert Step(moves, s, c).fs == s.fs;
  }

  lemma BegunGoesOn(moves: seq<Move>, before: Disk, s: State, c: Choice)
    requires s.next < |moves| && Apart(moves[s.next].0, moves[s.next].1) && s.at.Ready?
    requires UnderWay(before, s, moves[s.next])
    ensures GoesOn(before, s, Step(moves, s, c), moves[s.next])
  {
    if !Present(s.fs, moves[s.next].1) {
      RenamedMoves(s.fs, moves[s.next]);
    }
  }

  lemma PlacedGoesOn(moves: seq<Move>, before: Disk, s: State, c: Choice)
    requires s.next < |moves| && Apart(moves[s.next].0, moves[s.next].1) && s.at.Renaming?
    requires UnderWay(before, s, moves[s.next])
    ensures GoesOn(before, s, Step(moves, s, c), moves[s.next])
  {
    var m := moves[s.next];
    if !Present(s.fs, m.1) {
      Placed(s.fs, m.1, s.stage);
      ElsewhereSame(s.fs, WithTree(s.fs, m.1, s.stage), (m.1, m.1), m.0);
    }
  }

  lemma RemovedGoesOn(moves: seq<Move>, before: Disk, s: State, c: Choice)
    requires s.next < |moves| && Apart(moves[s.next].0, moves[s.next].1) && s.at.Removing?
    requires UnderWay(before, s, moves[s.next])
    ensures GoesOn(before, s, Step(moves, s, c), moves[s.next])
  {
    var m := moves[s.next];
    if s.at.todo == {} {
      Gone(s.fs, m.0);
      ElsewhereSame(s.fs, WithoutTree(s.fs, m.0), (m.0, m.0), m.1);
    } else if c.Go? && c.path in s.at.todo {
      OneRemoved(s.fs, m, c.path);
    }
  }

  lemma OneRemoved(fs: Disk, m: Move, path: Path)
    requires Apart(m.0, m.1)
    ensures OnlyIn(fs, fs - {m.0 + path}, m)
    ensures TreeAt(fs - {m.0 + path}, m.1) == TreeAt(fs, m.1)
  {
    assert m.0 <= m.0 + path;
    ElsewhereSame(fs, fs - {m.0 + path}, (m.0, m.0), m.1);
  }

  lemma StepOrderly(moves: seq<Move>, before: Disk, s: State, c: Choice)
    requires Separate(moves) && Orderly(moves, before, s)
    ensures Orderly(moves, before, Step(moves, s, c))
  {
    var t := Step(moves, s, c);
    if s.next < |moves| {
      CurrentGoesOn(moves, before, s, c);
      OthersStay(moves, before, s, t);
    }
  }

  lemma {:induction false} RunOrderly(moves: seq<Move>, before: Disk, s: State, choices: seq<Choice>)
    requires Separate(moves) && Orderly(moves, before, s)
    ensures Orderly(moves, before, Run(moves, s, choices))
    decreases |choices|
  {
    if choices != [] {
      StepOrderly(moves, before, s, choices[0]);
      RunOrderly(moves, before, Step(moves, s, choices[0]), choices[1..]);
    }
  }

  /**
   * Wherever archiving stops, every selected tree is complete at its source or at its destination, and nothing else has
   * changed; when it finishes, every tree is at its destination and no longer at its source.
   */
  lemma ArchiveConserves(moves: seq<Move>, before: Disk, choices: seq<Choice>)
    requires Separate(moves)
    ensures var after := Run(moves, State(before, map[], 0, Ready), choices);
            && (forall i :: 0 <= i < |moves| ==> Kept(before, after.fs, moves[i]))
            && (forall path :: !Touched(moves, path) ==> Same(before, after.fs, path))
            && (after.at.Done? ==> forall i :: 0 <= i < |moves| ==> Moved(before, after, moves[i]))
  {
    var start := State(before, map[], 0, Ready);
    StartOrderly(moves, before);
    RunOrderly(moves, before, start, choices);
    var after := Run(moves, start, choices);
    forall i | 0 <= i < |moves|
      ensures Kept(before, after.fs, moves[i])
    {
      KeptAt(moves, before, after, i);
    }
  }

  lemma StartOrderly(moves: seq<Move>, before: Disk)
    ensures Orderly(moves, before, State(before, map[], 0, Ready))
  {
  }

  lemma KeptAt(moves: seq<Move>, before: Disk, s: State, i: nat)
    requires Orderly(moves, before, s) && i < |moves|
    ensures Kept(before, s.fs, moves[i])
  {
    if i < s.next {
      MovedKept(before, s, moves[i]);
    } else if i == s.next {
      UnderWayKept(before, s, moves[i]);
    } else {
      WaitingKept(before, s, moves[i]);
    }
  }

  lemma MovedKept(before: Disk, s: State, m: Move)
    requires Moved(before, s, m)
    ensures Kept(before, s.fs, m)
  {
  }

  lemma WaitingKept(before: Disk, s: State, m: Move)
    requires Waiting(before, s, m)
    ensures Kept(before, s.fs, m)
  {
  }

  lemma UnderWayKept(before: Disk, s: State, m: Move)
    requires UnderWay(before, s, m)
    ensures Kept(before, s.fs, m)
  {
  }

  /** The same for everything the data manager selects. */
  lemma SelectionConserved(
      files: Files, layout: Layout, settled: Path -> bool, before: Disk, choices: seq<Choice>)
    requires layout.Accepted() && LegacyClear(layout) && Selects(files, layout, settled)
    ensures var moves := SelectedMoves(files, layout, settled);
            var after := Run(moves, State(before, map[], 0, Ready), choices);
            && (forall i :: 0 <= i < |moves| ==> Kept(before, after.fs, moves[i]))
            && (forall path :: !Touched(moves, path) ==> Same(before, after.fs, path))
  {
    SelectionSeparate(files, layout, settled);
    ArchiveConserves(SelectedMoves(files, layout, settled), before, choices);
  }
}
