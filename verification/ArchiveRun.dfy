/** `archive` and `_archive_one` as they run, with every rename, copy and removal able to fail. */
module ArchiveRun {
  import opened Archiving
  import opened ArchiveProgress
  import opened DataSelection
  import opened DataLayout
  import opened RunReferences

  /** The operating system, asked once per operation: may it stop here, does a rename cross, what does a copy read. */
  datatype World = World(stops: nat -> bool, crosses: nat -> bool, copied: (nat, string) -> string)
  {
    /** Nothing stops, and every copy reads as what was copied. */
    ghost predicate Healthy() {
      (forall t :: !stops(t)) && forall t, bytes :: copied(t, bytes) == bytes
    }
  }

  /** A run goes on from where it stopped. */
  lemma {:induction false} RunLast(moves: seq<Move>, s: State, choices: seq<Choice>, c: Choice)
    ensures Run(moves, s, choices + [c]) == Step(moves, Run(moves, s, choices), c)
    decreases |choices|
  {
    if choices == [] {
      assert Run(moves, s, [c]) == Run(moves, Step(moves, s, c), [c][1..]);
    } else {
      assert (choices + [c])[1..] == choices[1..] + [c];
      RunLast(moves, Step(moves, s, choices[0]), choices[1..], c);
    }
  }

  lemma StepCopies(moves: seq<Move>, s: State, todo: set<Path>, path: Path, bytes: string)
    requires s.next < |moves| && s.at == Copying(todo) && path in todo
    ensures Step(moves, s, Go(true, path, bytes))
         == s.(at := Copying(todo - {path}), stage := s.stage[path := bytes])
  {
  }

  lemma StepPlaces(moves: seq<Move>, s: State)
    requires s.next < |moves| && s.at.Renaming? && !Present(s.fs, moves[s.next].1)
    ensures Step(moves, s, Go(true, [], ""))
         == s.(fs := WithTree(s.fs, moves[s.next].1, s.stage), at := Removing(TreeAt(s.fs, moves[s.next].0).Keys))
  {
  }

  lemma StepRemoves(moves: seq<Move>, s: State, todo: set<Path>, path: Path)
    requires s.next < |moves| && s.at == Removing(todo) && path in todo
    ensures Step(moves, s, Go(true, path, ""))
         == s.(fs := s.fs - {moves[s.next].0 + path}, at := Removing(todo - {path}))
  {
  }

  class Archiver {
    const moves: seq<Move>
    const world: World
    var fs: Disk
    var stage: Tree
    var clock: nat
    ghost const before: Disk
    ghost var choices: seq<Choice>

    constructor (moves: seq<Move>, fs: Disk, world: World)
      ensures this.moves == moves && this.world == world && this.fs == fs && before == fs
      ensures At(0, Ready) && choices == []
    {
      this.moves, this.world, this.fs, this.before := moves, world, fs, fs;
      this.stage, this.clock, this.choices := map[], 0, [];
    }

    /** The steps taken so far lead to what is on disk. */
    ghost predicate At(next: nat, at: Control)
      reads this
    {
      Run(moves, State(before, map[], 0, Ready), choices) == State(fs, stage, next, at)
    }

    /** Stopped somewhere. */
    ghost predicate Broken()
      reads this
    {
      exists next :: At(next, Halted)
    }

    /** The steps so far lead to this state, whatever is on disk yet. */
    ghost predicate Led(s: State)
      reads this`choices
    {
      Run(moves, State(before, map[], 0, Ready), choices) == s
    }

    /** Add a step to the record. */
    ghost method Note(next: nat, at: Control, c: Choice, after: State)
      requires At(next, at) && Step(moves, State(fs, stage, next, at), c) == after
      modifies this`choices
      ensures Led(after) && choices == old(choices) + [c]
    {
      RunLast(moves, State(before, map[], 0, Ready), choices, c);
      choices := choices + [c];
    }

    /** Every operation may raise instead. */
    method Survives(ghost next: nat, ghost at: Control) returns (ok: bool)
      requires At(next, at) && !at.Done? && !at.Halted?
      modifies this`clock, this`choices
      ensures if ok then At(next, at) else Broken()
      ensures (world.Healthy() ==> ok) && (old(Direct(choices)) ==> Direct(choices))
    {
      ok := !world.stops(clock);
      clock := clock + 1;
      if !ok {
        Note(next, at, Stop, State(fs, stage, next, Halted));
        assert At(next, Halted);
      }
    }

    ghost method NoteCompared(next: nat)
      requires next < |moves| && At(next, Comparing)
      modifies this`choices
      ensures At(next, if stage == TreeAt(fs, moves[next].0) then Renaming else Halted)
    {
      var at := if stage == TreeAt(fs, moves[next].0) then Renaming else Halted;
      Note(next, Comparing, Go(true, [], ""), State(fs, stage, next, at));
    }

    ghost method NoteBegun(next: nat, crosses: bool)
      requires next < |moves| && At(next, Ready)
      modifies this`choices
      ensures Led(Begin(moves, State(fs, stage, next, Ready), crosses))
      ensures !crosses && old(Direct(choices)) ==> Direct(choices)
    {
      var s := State(fs, stage, next, Ready);
      Note(next, Ready, Go(crosses, [], ""), Begin(moves, s, crosses));
    }

    lemma OneCopied(tree: Tree, todo: set<Path>, path: Path)
      requires path in todo && todo <= tree.Keys
      ensures (tree - todo)[path := tree[path]] == tree - (todo - {path})
    {
    }

    /** Copy one file; what arrives may differ from what is there. */
    method CopyFile(next: nat, ghost todo: set<Path>, path: Path, content: string)
      requires next < |moves| && At(next, Copying(todo)) && path in todo
      modifies this`stage, this`choices
      ensures At(next, Copying(todo - {path})) && stage == old(stage)[path := world.copied(clock, content)]
    {
      var bytes := world.copied(clock, content);
      StepCopies(moves, State(fs, stage, next, Copying(todo)), todo, path, bytes);
      Note(
        next, Copying(todo), Go(true, path, bytes),
        State(fs, stage[path := bytes], next, Copying(todo - {path})));
      stage := stage[path := bytes];
    }

    /** `shutil.copytree`, file by file, into the partial directory. */
    method CopyTree(next: nat) returns (ok: bool)
      requires next < |moves| && At(next, Copying(TreeAt(fs, moves[next].0).Keys)) && stage == map[]
      modifies this`stage, this`clock, this`choices
      ensures if ok then At(next, Comparing) else Broken()
      ensures world.Healthy() ==> ok && stage == TreeAt(fs, moves[next].0)
    {
      var tree := TreeAt(fs, moves[next].0);
      var todo := tree.Keys;
      while todo != {}
        invariant At(next, Copying(todo)) && todo <= tree.Keys
        invariant world.Healthy() ==> stage == tree - todo
        decreases |todo|
      {
        ok := Survives(next, Copying(todo));
        if !ok {
          return;
        }
        var path :| path in todo;
        OneCopied(tree, todo, path);
        CopyFile(next, todo, path, tree[path]);
        todo := todo - {path};
      }
      Note(next, Copying({}), Go(true, [], ""), State(fs, stage, next, Comparing));
      ok := true;
    }

    /** `shutil.rmtree` of the source, file by file. */
    method RemoveTree(next: nat) returns (ok: bool)
      requires next < |moves| && At(next, Removing(TreeAt(fs, moves[next].0).Keys))
      modifies this`fs, this`clock, this`choices
      ensures if ok then At(next + 1, Ready) else Broken()
      ensures world.Healthy() ==> ok
    {
      var source := moves[next].0;
      var todo := TreeAt(fs, source).Keys;
      while todo != {}
        invariant At(next, Removing(todo))
        decreases |todo|
      {
        ok := Survives(next, Removing(todo));
        if !ok {
          return;
        }
        var path :| path in todo;
        var after := State(fs - {source + path}, stage, next, Removing(todo - {path}));
        StepRemoves(moves, State(fs, stage, next, Removing(todo)), todo, path);
        Note(next, Removing(todo), Go(true, path, ""), after);
        fs, todo := fs - {source + path}, todo - {path};
      }
      Note(next, Removing({}), Go(true, [], ""), State(WithoutTree(fs, source), stage, next + 1, Ready));
      fs := WithoutTree(fs, source);
      ok := true;
    }

    /** Putting the copy in place leaves the source as it is. */
    lemma SourceStays(source: Path, destination: Path)
      requires Apart(source, destination) && !Present(fs, destination)
      ensures TreeAt(WithTree(fs, destination, stage), source) == TreeAt(fs, source)
    {
      Placed(fs, destination, stage);
      ElsewhereSame(fs, WithTree(fs, destination, stage), (destination, destination), source);
    }

    /** The way across filesystems: copy, compare, rename into place, and only then remove the source. */
    method CopyAcross(next: nat) returns (ok: bool)
      requires next < |moves| && Apart(moves[next].0, moves[next].1) && !Present(fs, moves[next].1)
      requires At(next, Copying(TreeAt(fs, moves[next].0).Keys)) && stage == map[]
      modifies this
      ensures if ok then At(next + 1, Ready) else Broken()
      ensures world.Healthy() ==> ok
    {
      var (source, destination) := moves[next];
      ok := CopyTree(next);
      if !ok {
        return;
      }
      NoteCompared(next);
      if stage != TreeAt(fs, source) {
        assert At(next, Halted);
        return false;
      }
      ok := Survives(next, Renaming);
      if !ok {
        return;
      }
      var placed := State(WithTree(fs, destination, stage), stage, next, Removing(TreeAt(fs, source).Keys));
      StepPlaces(moves, State(fs, stage, next, Renaming));
      Note(next, Renaming, Go(true, [], ""), placed);
      SourceStays(source, destination);
      fs := WithTree(fs, destination, stage);
      ok := RemoveTree(next);
    }

    /** `_archive_one`: one rename, or a verified copy when the rename would cross filesystems. */
    method ArchiveOne(next: nat) returns (ok: bool)
      requires next < |moves| && At(next, Ready) && Apart(moves[next].0, moves[next].1)
      modifies this
      ensures if ok then At(next + 1, Ready) else Broken()
      ensures world.Healthy() && old(Present(fs, moves[next].0)) && !old(Present(fs, moves[next].1)) ==> ok
      ensures (forall t :: !world.crosses(t)) && old(Direct(choices)) ==> Direct(choices)
    {
      var (source, destination) := moves[next];
      ok := Survives(next, Ready);
      if !ok {
        return;
      }
      var crosses := world.crosses(clock);
      NoteBegun(next, crosses);
      if Present(fs, destination) || !Present(fs, source) {
        assert At(next, Halted);
        return false;
      }
      if !crosses {
        fs := Renamed(fs, moves[next]);
        return true;
      }
      stage := map[];
      ok := CopyAcross(next);
    }

    /** Each move in turn, until one fails. */
    method ArchiveEach() returns (ok: bool)
      requires At(0, Ready) && choices == [] && Separate(moves)
      modifies this
      ensures if ok then At(|moves|, Done) else Broken()
      ensures world.Healthy() && Possible(moves, before) ==> ok
      ensures (forall t :: !world.crosses(t)) ==> Direct(choices)
    {
      for next := 0 to |moves|
        invariant At(next, Ready)
        invariant (forall t :: !world.crosses(t)) ==> Direct(choices)
      {
        NextIsOpen(moves, before, choices, State(fs, stage, next, Ready));
        ok := ArchiveOne(next);
        if !ok {
          return;
        }
      }
      Note(|moves|, Ready, Go(false, [], ""), State(fs, stage, |moves|, Done));
      ok := true;
    }
  }

  /** Every source is there, and no destination is taken. */
  ghost predicate Possible(moves: seq<Move>, fs: Disk) {
    forall i :: 0 <= i < |moves| ==> Present(fs, moves[i].0) && !Present(fs, moves[i].1)
  }

  /**
   * `archive`, for every operating system. It refuses before touching anything when a destination is taken. Otherwise,
   * wherever it stops, every tree it was to move is complete at its source or its destination and nothing else has
   * changed; when it succeeds every tree is at its destination, the same as before, and no longer at its source. It
   * succeeds where nothing fails and everything to be moved is there; and where no rename crosses filesystems, every
   * tree has moved as a whole or not at all.
   */
  method Archive(moves: seq<Move>, fs: Disk, world: World) returns (ok: bool, after: Disk)
    requires Separate(moves)
    ensures (exists i :: 0 <= i < |moves| && Present(fs, moves[i].1)) ==> !ok && after == fs
    ensures forall i :: 0 <= i < |moves| ==> Kept(fs, after, moves[i])
    ensures forall path :: !Touched(moves, path) ==> Same(fs, after, path)
    ensures ok ==> forall i :: 0 <= i < |moves| ==> Arrived(fs, after, moves[i])
    ensures world.Healthy() && Possible(moves, fs) ==> ok
    ensures (forall t :: !world.crosses(t)) ==> forall i :: 0 <= i < |moves| ==> Undivided(fs, after, moves[i])
  {
    for i := 0 to |moves|
      invariant forall k :: 0 <= k < i ==> !Present(fs, moves[k].1)
    {
      if Present(fs, moves[i].1) {
        return false, fs;
      }
    }
    var archiver := new Archiver(moves, fs, world);
    ok := archiver.ArchiveEach();
    after := archiver.fs;
    ArchiveConserves(moves, fs, archiver.choices);
    forall i | 0 <= i < |moves| && Direct(archiver.choices)
      ensures Undivided(fs, after, moves[i])
    {
      RenamesAreWhole(moves, fs, archiver.choices, i);
    }
  }
}
