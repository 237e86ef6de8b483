/** Exactly which layouts keep selections separate. */
module RootOverlap {
  // For every other one, a directory listing under which everything is selected and two moves meet.

  import opened Results
  import opened Lists
  import opened RunReferences
  import opened DataLayout
  import opened DataSelection

  // ----- what a listing is enough for -----

  lemma PortableIsOnePart(name: string)
    requires Portable(name)
    ensures OnePart(name)
  {
  }

  /** An entry with a portable name is selected, if it is a run only when no other root it is looked up in has it. */
  lemma EntrySelected(files: Files, layout: Layout, place: Place, name: string)
    requires Entry(files, layout, place, name) && Portable(name)
    requires IsRun(place) ==> forall other :: Contains(RunRoots(layout, place), other) && files.Has(other, name)
                                              ==> other == Root(layout, place)
    ensures TargetAt(files, layout, place, name).Ok?
  {
    if IsRun(place) {
      var root := Root(layout, place);
      RootListed(layout, place);
      ResolveListed(files, RunRoots(layout, place), name, root);
    } else if IsReport(place) {
      ReportFound(files, layout, place, name);
    } else {
      ExportSelected(files, layout, place, name);
    }
  }

  lemma RootListed(layout: Layout, place: Place)
    requires IsRun(place)
    ensures Contains(RunRoots(layout, place), Root(layout, place))
  {
    var i := if place.LegacyRuns? then 1 else if place.PlainRuns? then 3 else 0;
    assert RunRoots(layout, place)[i] == Root(layout, place);
  }

  lemma ExportSelected(files: Files, layout: Layout, place: Place, name: string)
    requires Entry(files, layout, place, name) && Portable(name) && !IsRun(place) && !IsReport(place)
    ensures TargetAt(files, layout, place, name).Ok?
  {
    var family := if place.Isolated? || place.LegacyIsolated? then "isolated" else "grouped";
    var roots := ExportRoots(layout.exports, family);
    assert |roots[0]| != |roots[1]|;
    if Shadowed(files, layout, place, name) {
      assert roots[1..] == [Root(layout, place)];
      ArtifactAlone(files, Root(layout, place), name);
    } else {
      ArtifactAt(files, roots[0], roots[1], name, place.LegacyIsolated? || place.LegacyGrouped?);
      assert roots == [roots[0], roots[1]];
    }
  }

  ghost predicate AllSelected(files: Files, layout: Layout) {
    forall place, name ::
      files.Has(Root(layout, place), name) && !Skipped(layout, place, name) ==> TargetAt(files, layout, place, name).Ok?
  }

  lemma {:induction false} PlaceSelected(files: Files, layout: Layout, place: Place, names: seq<string>)
    requires AllSelected(files, layout)
    requires forall i :: 0 <= i < |names| ==> files.Has(Root(layout, place), names[i])
    ensures ListPlace(files, layout, place, names).Ok?
  {
    if names != [] {
      PlaceSelected(files, layout, place, names[..|names| - 1]);
    }
  }

  lemma {:induction false} PlacesSelected(files: Files, layout: Layout, places: seq<Place>)
    requires AllSelected(files, layout)
    ensures ListAll(files, layout, places).Ok?
  {
    if places != [] {
      var n := |places| - 1;
      PlacesSelected(files, layout, places[..n]);
      PlaceSelected(files, layout, places[n], files.children(Root(layout, places[n])));
    }
  }

  lemma {:induction false} EntryOf(layout: Layout, place: Place, names: seq<string>, name: string)
    requires Contains(names, name) && !Skipped(layout, place, name)
    ensures Contains(EntriesOf(layout, place, names), (place, name))
  {
    var n := |names| - 1;
    var before := EntriesOf(layout, place, names[..n]);
    assert names == names[..n] + [names[n]];
    ContainsMore(names[..n], names[n], name);
    if names[n] == name {
      assert EntriesOf(layout, place, names)[|before|] == (place, name);
    } else {
      EntryOf(layout, place, names[..n], name);
      ContainsBefore(before, EntriesOf(layout, place, names), (place, name));
    }
  }

  lemma ContainsBefore<T>(part: seq<T>, whole: seq<T>, x: T)
    requires part <= whole && Contains(part, x)
    ensures Contains(whole, x)
  {
    var k :| 0 <= k < |part| && part[k] == x;
    assert whole[k] == x;
  }

  lemma {:induction false} EntryThere(files: Files, layout: Layout, places: seq<Place>, place: Place, name: string)
    requires Contains(places, place) && files.Has(Root(layout, place), name) && !Skipped(layout, place, name)
    ensures Contains(AllEntries(files, layout, places), (place, name))
  {
    var n := |places| - 1;
    var before := AllEntries(files, layout, places[..n]);
    var here := EntriesOf(layout, places[n], files.children(Root(layout, places[n])));
    assert places == places[..n] + [places[n]];
    ContainsMore(places[..n], places[n], place);
    if places[n] == place {
      EntryOf(layout, place, files.children(Root(layout, place)), name);
      var k :| 0 <= k < |here| && here[k] == (place, name);
      assert (before + here)[|before| + k] == (place, name);
    } else {
      EntryThere(files, layout, places[..n], place, name);
      ContainsBefore(before, before + here, (place, name));
    }
  }

  lemma EveryPlace(place: Place)
    ensures Contains(Places(), place)
  {
    var places := Places();
    assert places[0].TrainRuns? && places[1].EvaluateRuns? && places[2].LegacyRuns? && places[3].PlainRuns?;
    assert places[4].TrainReports? && places[5].EvaluateReports? && places[6].LegacyTrainReports?;
    assert places[7].LegacyReports? && places[8].Isolated? && places[9].Grouped? && places[10].LegacyIsolated?;
    assert places[11].LegacyGrouped?;
  }

  /** An entry, or its companion, is among the moves. */
  lemma MoveThere(files: Files, layout: Layout, settled: Path -> bool, pick: Pick) returns (i: nat)
    requires Selects(files, layout, settled) && Picked(files, layout, pick)
    requires pick.companion ==> TargetAt(files, layout, pick.place, pick.name).value.companion.Some?
    ensures var picks := SelectedPicks(files, layout, settled);
            i < |picks| == |SelectedMoves(files, layout, settled)| && picks[i] == pick
    ensures SelectedMoves(files, layout, settled)[i]
            == (Source(layout, pick), layout.archive + Destination(layout, pick))
  {
    var entries, targets := AllEntries(files, layout, Places()), SelectAll(files, layout, settled).value;
    AllFrom(files, layout, Places());
    EveryPlace(pick.place);
    EntryThere(files, layout, Places(), pick.place, pick.name);
    var k :| 0 <= k < |entries| && entries[k] == (pick.place, pick.name);
    PicksCover(entries, targets, k, pick);
    var picks := SelectedPicks(files, layout, settled);
    i :| 0 <= i < |picks| && picks[i] == pick;
    SelectionStands(files, layout, settled);
    assert Stands(files, layout, SelectedMoves(files, layout, settled)[i], picks[i]);
  }

  // ----- one legacy run and one other thing -----

  /** One entry below the legacy root, one elsewhere, and the companion of that if it has one. */
  function Crossing(layout: Layout, place: Place, companion: bool, n: string, m: string): Files {
    Files(
      path =>
        if path == layout.Legacy() then [n]
        else if path == Root(layout, place) || (companion && path == Room(layout, place, true)) then [m]
        else [],
      _ => "")
  }

  /** The two have different names, unless the two directories are one. */
  predicate Crosses(layout: Layout, place: Place, companion: bool, n: string, m: string) {
    && layout.runsExist && layout.Accepted() && Portable(n) && Portable(m) && m !in Passed(place)
    && (companion ==> IsReport(place)) && (n == m <==> Root(layout, place) == layout.Legacy())
    && (layout.Legacy() == layout.runs ==> place.PlainRuns?)
  }

  lemma CrossingHas(layout: Layout, place: Place, companion: bool, n: string, m: string, path: Path, name: string)
    ensures Crossing(layout, place, companion, n, m).Has(path, name) <==>
            if path == layout.Legacy() then name == n
            else name == m
                 && (path == Root(layout, place) || (companion && path == Room(layout, place, true)))
  {
    var files := Crossing(layout, place, companion, n, m);
    if files.children(path) != [] {
      assert files.children(path)[0] == if path == layout.Legacy() then n else m;
    }
  }

  lemma Ends(layout: Layout, place: Place)
    ensures LastPart(layout.Legacy()) == "training-runs"
    ensures !place.LegacyRuns? && !place.PlainRuns? ==> Root(layout, place) != layout.Legacy()
    ensures IsReport(place) ==> Room(layout, place, true) != layout.Legacy()
  {
    if !place.LegacyRuns? && !place.PlainRuns? {
      assert LastPart(Root(layout, place)) != "training-runs";
    }
    if IsReport(place) {
      assert LastPart(Room(layout, place, true)) != "training-runs";
    }
  }

  /** No directory below the exports root is one that runs are looked up in. */
  lemma ExportsNotRuns(layout: Layout, run: Place, root: Path, inside: Path)
    requires layout.Accepted() && IsRun(run) && Contains(RunRoots(layout, run), root) && root != layout.Legacy()
    ensures root != layout.exports + inside
  {
    var rest := if root == layout.runs then [] else [LastPart(root)];
    assert root == layout.runs + rest;
    ApartBelow(layout.runs, layout.exports, rest, inside);
  }

  /** Where a run of the crossing is found, no other root has it. */
  lemma CrossingAlone(
      layout: Layout, place: Place, companion: bool, n: string, m: string, run: Place, name: string, other: Path)
    requires Crosses(layout, place, companion, n, m) && IsRun(run) && Contains(RunRoots(layout, run), other)
    requires Crossing(layout, place, companion, n, m).Has(Root(layout, run), name)
    requires Crossing(layout, place, companion, n, m).Has(other, name)
    ensures other == Root(layout, run)
  {
    CrossingHas(layout, place, companion, n, m, Root(layout, run), name);
    CrossingHas(layout, place, companion, n, m, other, name);
    Ends(layout, place);
    if companion && other != layout.Legacy() {
      ExportsNotRuns(layout, run, other, Suffix(place));
      ExportsNotRuns(layout, run, other, CompanionSuffix(place));
    }
    RootListed(layout, run);
    if companion && Root(layout, run) != layout.Legacy() {
      ExportsNotRuns(layout, run, Root(layout, run), Suffix(place));
      ExportsNotRuns(layout, run, Root(layout, run), CompanionSuffix(place));
    }
  }

  lemma CrossingEntries(layout: Layout, place: Place, companion: bool, n: string, m: string)
    requires Crosses(layout, place, companion, n, m)
    ensures var files := Crossing(layout, place, companion, n, m);
            files.Valid() && Names(files, layout) && AllSelected(files, layout)
  {
    var files := Crossing(layout, place, companion, n, m);
    PortableIsOnePart(n);
    PortableIsOnePart(m);
    forall where, name | files.Has(Root(layout, where), name)
      ensures OnePart(name) && Portable(name)
    {
      CrossingHas(layout, place, companion, n, m, Root(layout, where), name);
    }
    forall where, name | files.Has(Root(layout, where), name) && !Skipped(layout, where, name)
      ensures TargetAt(files, layout, where, name).Ok?
    {
      if IsRun(where) {
        forall other | Contains(RunRoots(layout, where), other) && files.Has(other, name)
          ensures other == Root(layout, where)
        {
          CrossingAlone(layout, place, companion, n, m, where, name, other);
        }
      }
      EntrySelected(files, layout, where, name);
    }
  }

  /** Everything there is selected: the legacy run, and the other thing. */
  lemma CrossingSelects(layout: Layout, place: Place, companion: bool, n: string, m: string)
    requires Crosses(layout, place, companion, n, m)
    ensures var files := Crossing(layout, place, companion, n, m);
            && Selects(files, layout, _ => true)
            && Picked(files, layout, Pick(LegacyRuns, n, false)) && Picked(files, layout, Pick(place, m, companion))
            && (companion ==> TargetAt(files, layout, place, m).value.companion.Some?)
  {
    var files := Crossing(layout, place, companion, n, m);
    CrossingEntries(layout, place, companion, n, m);
    Ends(layout, place);
    CrossingHas(layout, place, companion, n, m, layout.Legacy(), n);
    CrossingHas(layout, place, companion, n, m, Root(layout, place), m);
    PlacesSelected(files, layout, Places());
    AllFrom(files, layout, Places());
    EveryPlace(LegacyRuns);
    EntryThere(files, layout, Places(), LegacyRuns, n);
    assert SelectAll(files, layout, _ => true).Ok?;
    if companion {
      CompanionThere(layout, place, n, m);
    }
  }

  lemma CompanionThere(layout: Layout, place: Place, n: string, m: string)
    requires Crosses(layout, place, true, n, m)
    requires TargetAt(Crossing(layout, place, true, n, m), layout, place, m).Ok?
    ensures TargetAt(Crossing(layout, place, true, n, m), layout, place, m).value.companion.Some?
  {
    var files := Crossing(layout, place, true, n, m);
    Ends(layout, place);
    CrossingHas(layout, place, true, n, m, Root(layout, place), m);
    CrossingHas(layout, place, true, n, m, Room(layout, place, true), m);
    PortableIsOnePart(m);
    HasCompanion(files, layout, place, m);
  }

  /** A report whose companion's directory is there has it as its companion. */
  lemma HasCompanion(files: Files, layout: Layout, place: Place, name: string)
    requires IsReport(place) && Entry(files, layout, place, name) && TargetAt(files, layout, place, name).Ok?
    requires files.Has(Room(layout, place, true), name)
    ensures TargetAt(files, layout, place, name).value.companion.Some?
  {
    var training := place.TrainReports? || place.LegacyTrainReports?;
    var legacy := Shadowed(files, layout, place, name);
    assert TargetAt(files, layout, place, name) == ReportTarget(files, layout, legacy, training, name);
    CompanionIsDir(files, layout, place, name);
    ReportFound(files, layout, place, name);
  }

  lemma CompanionIsDir(files: Files, layout: Layout, place: Place, name: string)
    requires IsReport(place) && files.Has(Room(layout, place, true), name)
    ensures IsDir(files, layout.exports + Interactive(Below(layout.exports, Root(layout, place) + [name])))
  {
    ReportParts(layout, place, name);
    var companion := layout.exports + CompanionSuffix(place) + [name];
    assert companion[..|companion| - 1] == Room(layout, place, true);
  }

  /** The moves of the crossing that meet. */
  lemma CrossingMeets(layout: Layout, place: Place, companion: bool, n: string, m: string)
    requires Crosses(layout, place, companion, n, m)
    requires var a, b := Pick(LegacyRuns, n, false), Pick(place, m, companion);
             || (a != b && !Apart(Source(layout, a), Source(layout, b)))
             || !Apart(Source(layout, a), layout.archive + Destination(layout, b))
    ensures var files := Crossing(layout, place, companion, n, m);
            Selects(files, layout, _ => true) && !Separate(SelectedMoves(files, layout, _ => true))
  {
    var files := Crossing(layout, place, companion, n, m);
    CrossingSelects(layout, place, companion, n, m);
    var i := MoveThere(files, layout, _ => true, Pick(LegacyRuns, n, false));
    var j := MoveThere(files, layout, _ => true, Pick(place, m, companion));
    if Separate(SelectedMoves(files, layout, _ => true)) {
      SeparateAt(SelectedMoves(files, layout, _ => true), i, j);
    }
  }

  lemma SeparateAt(moves: seq<(Path, Path)>, i: nat, j: nat)
    requires Separate(moves) && i < |moves| && j < |moves|
    ensures i != j ==> Apart(moves[i].0, moves[j].0)
    ensures Apart(moves[i].0, moves[j].1)
  {
    if i < j {
      assert Unrelated(moves[i], moves[j]);
    } else if j < i {
      assert Unrelated(moves[j], moves[i]);
    }
  }

  // ----- every way of not being clear -----

  function Another(name: string): (other: string)
    ensures other != name && Portable(other) && forall place: Place :: other !in Passed(place)
  {
    if name == "a" then "b" else "a"
  }

  lemma RunsRootMeets(layout: Layout)
    requires layout.runsExist && layout.Accepted() && layout.Legacy() == layout.runs
    ensures Crosses(layout, PlainRuns, false, "a", "a")
    ensures Source(layout, Pick(PlainRuns, "a", false)) == Source(layout, Pick(LegacyRuns, "a", false))
    ensures Destination(layout, Pick(PlainRuns, "a", false)) == Destination(layout, Pick(LegacyRuns, "a", false))
  {
  }

  /** An entry on the way to a directory is not apart from what is in it. */
  lemma OnTheWay(a: Path, b: Path, m: string)
    requires a < b
    ensures a + [b[|a|]] <= b + [m]
  {
    assert b + [m] == a + [b[|a|]] + (b + [m])[|a| + 1..];
  }

  lemma SourcesMeet(layout: Layout, place: Place, companion: bool) returns (n: string, m: string)
    requires layout.runsExist && layout.Accepted() && layout.Legacy() != layout.runs
    requires (companion ==> IsReport(place)) && !place.LegacyRuns?
    requires !Clear(layout.Legacy(), Room(layout, place, companion), Passed(place))
    ensures Crosses(layout, place, companion, n, m)
    ensures !Apart(Source(layout, Pick(LegacyRuns, n, false)), Source(layout, Pick(place, m, companion)))
  {
    var legacy, room := layout.Legacy(), Room(layout, place, companion);
    Ends(layout, place);
    if legacy < room {
      n := room[|legacy|];
      m := Another(n);
      OnTheWay(legacy, room, m);
    } else {
      m := legacy[|room|];
      n := Another(m);
      OnTheWay(room, legacy, n);
    }
    InRooms(layout, Pick(LegacyRuns, n, false));
    InRooms(layout, Pick(place, m, companion));
  }

  lemma ArchiveMeets(layout: Layout, place: Place, companion: bool) returns (n: string, m: string)
    requires layout.runsExist && layout.Accepted() && layout.Legacy() != layout.runs
    requires companion ==> IsReport(place)
    requires !Clear(layout.Legacy(), ArchiveRoom(layout, place, companion), Passed(place))
    ensures Crosses(layout, place, companion, n, m)
    ensures !Apart(
               Source(layout, Pick(LegacyRuns, n, false)),
               layout.archive + Destination(layout, Pick(place, m, companion)))
  {
    var legacy, room := layout.Legacy(), ArchiveRoom(layout, place, companion);
    Ends(layout, place);
    assert LastPart(room) != "training-runs";
    if legacy < room {
      n := room[|legacy|];
      m := if place.LegacyRuns? then n else Another(n);
      OnTheWay(legacy, room, m);
    } else {
      m := legacy[|room|];
      n := if place.LegacyRuns? then m else Another(m);
      OnTheWay(room, legacy, n);
    }
    InRooms(layout, Pick(LegacyRuns, n, false));
    InRooms(layout, Pick(place, m, companion));
  }

  /** Whenever the legacy root is not clear, there are directories under which a selection has moves that meet. */
  lemma SelectionMeets(layout: Layout) returns (files: Files)
    requires layout.Accepted() && !LegacyClear(layout)
    ensures Selects(files, layout, _ => true) && !Separate(SelectedMoves(files, layout, _ => true))
  {
    if layout.Legacy() == layout.runs {
      RunsRootMeets(layout);
      CrossingMeets(layout, PlainRuns, false, "a", "a");
      return Crossing(layout, PlainRuns, false, "a", "a");
    }
    var place: Place, companion: bool :|
      && (companion ==> IsReport(place))
      && !(&& (place.LegacyRuns? || Clear(layout.Legacy(), Room(layout, place, companion), Passed(place)))
           && Clear(layout.Legacy(), ArchiveRoom(layout, place, companion), Passed(place)));
    var n, m;
    if !place.LegacyRuns? && !Clear(layout.Legacy(), Room(layout, place, companion), Passed(place)) {
      n, m := SourcesMeet(layout, place, companion);
    } else {
      n, m := ArchiveMeets(layout, place, companion);
    }
    CrossingMeets(layout, place, companion, n, m);
    files := Crossing(layout, place, companion, n, m);
  }

  // ----- the exact conditions -----

  /**
   * Whatever the directories hold, everything selected has sources and destinations that are pairwise distinct and
   * never inside one another: this is so exactly when the legacy root is clear of the other directories.
   */
  lemma SelectionExact(layout: Layout)
    requires layout.Accepted()
    ensures LegacyClear(layout) <==>
            forall files: Files, settled: Path -> bool ::
              Selects(files, layout, settled) ==> Separate(SelectedMoves(files, layout, settled))
  {
    if LegacyClear(layout) {
      forall files: Files, settled: Path -> bool | Selects(files, layout, settled)
        ensures Separate(SelectedMoves(files, layout, settled))
      {
        SelectionSeparate(files, layout, settled);
      }
    } else {
      var files := SelectionMeets(layout);
      assert Selects(files, layout, _ => true) && !Separate(SelectedMoves(files, layout, _ => true));
    }
  }

  /** No two archive places are equal, or one inside the other. */
  ghost predicate Spread(moves: seq<(Path, Path)>) {
    forall i, j :: 0 <= i < j < |moves| ==> Apart(moves[i].1, moves[j].1)
  }

  /** Archive places never meet exactly when the legacy root is not the runs root, wherever the roots lie otherwise. */
  lemma DestinationsExact(layout: Layout)
    requires layout.Accepted()
    ensures TwoRoots(layout) <==>
            forall files: Files, settled: Path -> bool ::
              Selects(files, layout, settled) ==> Spread(SelectedMoves(files, layout, settled))
  {
    if TwoRoots(layout) {
      forall files: Files, settled: Path -> bool | Selects(files, layout, settled)
        ensures Spread(SelectedMoves(files, layout, settled))
      {
        SelectionSpread(files, layout, settled);
      }
    } else {
      var files := ListedTwice(layout);
      assert Selects(files, layout, _ => true) && !Spread(SelectedMoves(files, layout, _ => true));
    }
  }

  /** When the legacy root is the runs root, a run directly below it is listed twice and moved to one place. */
  lemma ListedTwice(layout: Layout) returns (files: Files)
    requires layout.Accepted() && !TwoRoots(layout)
    ensures Selects(files, layout, _ => true) && !Spread(SelectedMoves(files, layout, _ => true))
  {
    RunsRootMeets(layout);
    files := Crossing(layout, PlainRuns, false, "a", "a");
    CrossingSelects(layout, PlainRuns, false, "a", "a");
    var i := MoveThere(files, layout, _ => true, Pick(LegacyRuns, "a", false));
    var j := MoveThere(files, layout, _ => true, Pick(PlainRuns, "a", false));
    NotSpread(SelectedMoves(files, layout, _ => true), i, j);
  }

  lemma NotSpread(moves: seq<(Path, Path)>, i: nat, j: nat)
    requires i < |moves| && j < |moves| && i != j && moves[i].1 == moves[j].1
    ensures !Spread(moves)
  {
    if i < j {
      assert !Apart(moves[i].1, moves[j].1);
    } else {
      assert !Apart(moves[j].1, moves[i].1);
    }
  }

  lemma SelectionSpread(files: Files, layout: Layout, settled: Path -> bool)
    requires TwoRoots(layout) && Selects(files, layout, settled)
    ensures Spread(SelectedMoves(files, layout, settled))
  {
    var moves, picks := SelectedMoves(files, layout, settled), SelectedPicks(files, layout, settled);
    SelectionStands(files, layout, settled);
    forall i, j | 0 <= i < j < |moves|
      ensures Apart(moves[i].1, moves[j].1)
    {
      assert Stands(files, layout, moves[i], picks[i]) && Stands(files, layout, moves[j], picks[j]);
      DestinationsApart(files, layout, picks[i], picks[j]);
    }
  }

  /** The roots the program chooses itself are fine, also with the data root for archive, if the runs root is apart. */
  lemma DefaultsClear(layout: Layout)
    requires layout.exports == layout.data + ["exports"]
    requires layout.archive == layout.data + ["archive"] || layout.archive == layout.data
    requires Apart(layout.Legacy(), layout.runs)
    ensures LegacyClear(layout)
  {
    var legacy := layout.Legacy();
    forall place: Place, companion: bool | companion ==> IsReport(place)
      ensures Apart(legacy, ArchiveRoom(layout, place, companion))
      ensures !place.LegacyRuns? ==> Apart(legacy, Room(layout, place, companion))
    {
      var room, shelf := Room(layout, place, companion), ArchiveRoom(layout, place, companion);
      DifferAt(legacy, shelf, |layout.data|);
      if !IsRun(place) {
        DifferAt(legacy, room, |layout.data|);
      } else if !place.LegacyRuns? {
        var rest := if place.PlainRuns? then [] else [LastPart(room)];
        assert room == layout.runs + rest && legacy == legacy + [];
        ApartBelow(legacy, layout.runs, [], rest);
      }
    }
  }
}
