/** What archiving has not come to yet. */
module ArchiveProgress {
  // Sources and destinations still to come are as they were, and where nothing crosses, each move is all or nothing.

  import opened Archiving
  import opened DataLayout
  import opened DataSelection
  import opened RunReferences

  /** No destination still to come is touched before its move publishes something there. */
  ghost predicate Open(moves: seq<Move>, before: Disk, s: State) {
    forall i :: s.next <= i < |moves| && (i == s.next ==> !s.at.Removing? && !s.at.Halted?) ==>
      TreeAt(s.fs, moves[i].1) == TreeAt(before, moves[i].1)
  }

  lemma LaterSame(moves: seq<Move>, before: Disk, s: State, c: Choice, i: nat)
    requires Separate(moves) && Orderly(moves, before, s) && s.next < |moves| && i < |moves| && i != s.next
    ensures TreeAt(Step(moves, s, c).fs, moves[i].1) == TreeAt(s.fs, moves[i].1)
  {
    CurrentGoesOn(moves, before, s, c);
    ApartBothWays(moves, s.next, i);
    ElsewhereSame(s.fs, Step(moves, s, c).fs, moves[s.next], moves[i].1);
  }

  lemma StepOpen(moves: seq<Move>, before: Disk, s: State, c: Choice)
    requires Separate(moves) && Orderly(moves, before, s) && Open(moves, before, s)
    ensures Open(moves, before, Step(moves, s, c))
  {
    var t := Step(moves, s, c);
    forall i | t.next <= i < |moves| && (i == t.next ==> !t.at.Removing? && !t.at.Halted?)
      ensures TreeAt(t.fs, moves[i].1) == TreeAt(before, moves[i].1)
    {
      CurrentGoesOn(moves, before, s, c);
      if i != s.next {
        LaterSame(moves, before, s, c, i);
      } else {
        assert t.fs == s.fs;
      }
    }
  }

  lemma {:induction false} RunOpen(moves: seq<Move>, before: Disk, s: State, choices: seq<Choice>)
    requires Separate(moves) && Orderly(moves, before, s) && Open(moves, before, s)
    ensures Orderly(moves, before, Run(moves, s, choices)) && Open(moves, before, Run(moves, s, choices))
    decreases |choices|
  {
    if choices != [] {
      StepOrderly(moves, before, s, choices[0]);
      StepOpen(moves, before, s, choices[0]);
      RunOpen(moves, before, Step(moves, s, choices[0]), choices[1..]);
    }
  }

  /** Nothing crosses filesystems. */
  predicate Direct(choices: seq<Choice>) {
    forall i :: 0 <= i < |choices| && choices[i].Go? ==> !choices[i].crosses
  }

  /** Between renames: what is to come is as it was at both its ends. */
  ghost predicate Between(moves: seq<Move>, before: Disk, s: State) {
    && (s.at.Ready? || s.at.Done? || s.at.Halted?)
    && forall i :: s.next <= i < |moves| ==>
         && TreeAt(s.fs, moves[i].0) == TreeAt(before, moves[i].0)
         && TreeAt(s.fs, moves[i].1) == TreeAt(before, moves[i].1)
  }

  lemma StepBetween(moves: seq<Move>, before: Disk, s: State, c: Choice)
    requires Separate(moves) && Orderly(moves, before, s) && Between(moves, before, s) && (c.Go? ==> !c.crosses)
    ensures Between(moves, before, Step(moves, s, c))
  {
    var t := Step(moves, s, c);
    forall i | t.next <= i < |moves|
      ensures TreeAt(t.fs, moves[i].0) == TreeAt(before, moves[i].0)
      ensures TreeAt(t.fs, moves[i].1) == TreeAt(before, moves[i].1)
    {
      if i != s.next {
        CurrentGoesOn(moves, before, s, c);
        OthersStay(moves, before, s, t);
        assert Waiting(before, t, moves[i]);
        LaterSame(moves, before, s, c, i);
      } else {
        assert t.fs == s.fs;
      }
    }
  }

  lemma {:induction false} RunBetween(moves: seq<Move>, before: Disk, s: State, choices: seq<Choice>)
    requires Separate(moves) && Orderly(moves, before, s) && Between(moves, before, s) && Direct(choices)
    ensures Orderly(moves, before, Run(moves, s, choices)) && Between(moves, before, Run(moves, s, choices))
    decreases |choices|
  {
    if choices != [] {
      StepOrderly(moves, before, s, choices[0]);
      StepBetween(moves, before, s, choices[0]);
      assert forall i :: 0 <= i < |choices[1..]| ==> choices[1..][i] == choices[i + 1];
      RunBetween(moves, before, Step(moves, s, choices[0]), choices[1..]);
    }
  }

  /** Moved as a whole, or not at all. */
  predicate Undivided(before: Disk, after: Disk, m: Move) {
    || Arrived(before, after, m)
    || (TreeAt(after, m.0) == TreeAt(before, m.0) && TreeAt(after, m.1) == TreeAt(before, m.1))
  }

  /** Where nothing crosses filesystems, every tree has moved as a whole or not at all, wherever archiving stops. */
  lemma RenamesAreWhole(moves: seq<Move>, before: Disk, choices: seq<Choice>, i: nat)
    requires Separate(moves) && Direct(choices) && i < |moves|
    ensures Undivided(before, Run(moves, State(before, map[], 0, Ready), choices).fs, moves[i])
  {
    var start := State(before, map[], 0, Ready);
    StartOrderly(moves, before);
    RunBetween(moves, before, start, choices);
    var after := Run(moves, start, choices);
    if i < after.next {
      assert Moved(before, after, moves[i]);
    }
  }

  /** What the next move needs is as it was in the beginning. */
  lemma NextIsOpen(moves: seq<Move>, before: Disk, choices: seq<Choice>, s: State)
    requires Separate(moves) && Run(moves, State(before, map[], 0, Ready), choices) == s
    requires s.next < |moves| && s.at.Ready?
    ensures TreeAt(s.fs, moves[s.next].0) == TreeAt(before, moves[s.next].0)
    ensures TreeAt(s.fs, moves[s.next].1) == TreeAt(before, moves[s.next].1)
  {
    StartOrderly(moves, before);
    RunOpen(moves, before, State(before, map[], 0, Ready), choices);
    assert UnderWay(before, s, moves[s.next]);
  }
}
