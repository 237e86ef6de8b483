/** Everything selected goes to a place of its own in the archive. */
module DataSelection {
  import opened Results
  import opened Lists
  import opened RunReferences
  import opened DataLayout

  // ----- where each target is and goes -----

  function PlainVariant(layout: Layout): string {
    if layout.Legacy() == layout.runs then "train"
    else if LastPart(layout.runs) == "train" || LastPart(layout.runs) == "evaluate" then LastPart(layout.runs)
    else "evaluate"
  }

  /** Below the exports root. */
  function Suffix(place: Place): Path {
    match place
    case TrainReports => ["train", "derived"]
    case EvaluateReports => ["evaluate", "derived"]
    case LegacyTrainReports => ["derived", "training"]
    case LegacyReports => ["derived"]
    case Isolated => ["evaluate", "isolated"]
    case Grouped => ["evaluate", "grouped"]
    case LegacyIsolated => ["isolated"]
    case LegacyGrouped => ["grouped"]
    case _ => []
  }

  /** The archive directory a listing's entries go to. */
  function Shelf(layout: Layout, place: Place): Path {
    match place
    case TrainRuns => ["runs", "train"]
    case EvaluateRuns => ["runs", "evaluate"]
    case LegacyRuns => ["runs", "train"]
    case PlainRuns => ["runs", PlainVariant(layout)]
    case _ => ["exports"] + Suffix(place)
  }

  /** A report's companion: the same place with `interactive` for `derived`. */
  function CompanionSuffix(place: Place): Path {
    match place
    case TrainReports => ["train", "interactive"]
    case EvaluateReports => ["evaluate", "interactive"]
    case LegacyTrainReports => ["interactive", "training"]
    case LegacyReports => ["interactive"]
    case _ => []
  }

  predicate Shelved(layout: Layout, place: Place, name: string, t: Target) {
    && t.path == Root(layout, place) + [name] && t.relative == Shelf(layout, place) + [name]
    && (t.companion.Some? ==>
          && IsReport(place)
          && t.companion.value.0 == layout.exports + CompanionSuffix(place) + [name]
          && t.companion.value.1 == ["exports"] + CompanionSuffix(place) + [name])
  }

  /** An entry of a listing, as `iterdir` gives it. */
  ghost predicate Entry(files: Files, layout: Layout, place: Place, name: string) {
    OnePart(name) && files.Has(Root(layout, place), name) && !Skipped(layout, place, name)
  }

  lemma RunShelved(files: Files, layout: Layout, place: Place, name: string)
    requires Entry(files, layout, place, name) && IsRun(place) && TargetAt(files, layout, place, name).Ok?
    ensures Shelved(layout, place, name, TargetAt(files, layout, place, name).value)
  {
    var root := Root(layout, place);
    var roots := RunRoots(layout, place);
    assert Contains(roots, root) by {
      var i := if place.LegacyRuns? then 1 else if place.PlainRuns? then 3 else 0;
      assert roots[i] == root;
    }
    ResolveListed(files, roots, name, root);
    var found := Found(name, root + [name]);
    assert found.path[..|found.path| - 1] == root;
    if place.PlainRuns? && found.path == layout.Legacy() + [name] {
      assert layout.Legacy() == (layout.Legacy() + [name])[..|found.path| - 1] == root;
    }
  }

  /** The roots a run listing's entries are looked up in. */
  function RunRoots(layout: Layout, place: Place): seq<Path>
    requires IsRun(place)
  {
    match place
    case EvaluateRuns => [layout.runs + ["evaluate"]]
    case PlainRuns => [layout.runs + ["train"], layout.Legacy(), layout.runs + ["evaluate"], layout.runs]
    case _ => [layout.runs + ["train"], layout.Legacy()]
  }

  /** A run that is selected is in no other root it is looked up in. */
  lemma RunAlone(files: Files, layout: Layout, place: Place, name: string, other: Path)
    requires Entry(files, layout, place, name) && IsRun(place) && TargetAt(files, layout, place, name).Ok?
    requires Contains(RunRoots(layout, place), other) && files.Has(other, name)
    ensures other == Root(layout, place)
  {
    var root := Root(layout, place);
    var roots := RunRoots(layout, place);
    assert Contains(roots, root) by {
      var i := if place.LegacyRuns? then 1 else if place.PlainRuns? then 3 else 0;
      assert roots[i] == root;
    }
    ResolveListed(files, roots, name, root);
  }

  /** An artifact found in a root resolves to that root, or to the typed copy when that has it too. */
  lemma ArtifactAt(files: Files, typed: Path, legacy: Path, name: string, fromLegacy: bool)
    requires OnePart(name) && typed != legacy
    requires if fromLegacy then files.Has(legacy, name) && !files.Has(typed, name) else files.Has(typed, name)
    ensures Artifact(files, [typed, legacy], name)
            == Ok(Found(name, (if fromLegacy then legacy else typed) + [name]))
  {
    var roots := [typed, legacy];
    var root := if fromLegacy then legacy else typed;
    assert Contains(roots, root) by {
      assert roots[if fromLegacy then 1 else 0] == root;
    }
    ResolveListed(files, roots, name, root);
    if !Resolve(files, roots, name).Match? {
      var other :| Contains(roots, other) && files.Has(other, name) && other != root;
      assert other == legacy && !fromLegacy;
      Alone(files, typed, name);
      Alone(files, legacy, name);
      assert roots[1..] == [legacy] && roots[1..][1..] == [];
      assert Each(files, [legacy], name) == Ok([Found(name, legacy + [name])]) by {
        assert [legacy][1..] == [];
        assert [Found(name, legacy + [name])] + [] == [Found(name, legacy + [name])];
      }
      var matches := [Found(name, typed + [name])] + [Found(name, legacy + [name])];
      assert Each(files, roots, name) == Ok(matches);
      assert OneName(matches);
    }
  }

  lemma Alone(files: Files, root: Path, name: string)
    requires OnePart(name) && files.Has(root, name)
    ensures Resolve(files, [root], name) == Match(Found(name, root + [name]))
  {
    assert Contains([root], root) by {
      assert [root][0] == root;
    }
    ResolveListed(files, [root], name, root);
  }

  lemma ArtifactAlone(files: Files, root: Path, name: string)
    requires OnePart(name) && files.Has(root, name)
    ensures Artifact(files, [root], name) == Ok(Found(name, root + [name]))
  {
    Alone(files, root, name);
  }

  /** The parts of a listed report's path, and of its companion's. */
  lemma ReportParts(layout: Layout, place: Place, name: string)
    requires IsReport(place)
    ensures var parts := Below(layout.exports, Root(layout, place) + [name]);
            && ["exports"] + parts == Shelf(layout, place) + [name]
            && layout.exports + Interactive(parts) == layout.exports + CompanionSuffix(place) + [name]
            && ["exports"] + Interactive(parts) == ["exports"] + CompanionSuffix(place) + [name]
  {
    var path := Root(layout, place) + [name];
    assert path == layout.exports + (Suffix(place) + [name]);
    assert Below(layout.exports, path) == Suffix(place) + [name];
    InteractiveSuffix(place, name);
  }

  lemma ReportShelved(files: Files, layout: Layout, place: Place, name: string)
    requires Entry(files, layout, place, name) && IsReport(place) && TargetAt(files, layout, place, name).Ok?
    ensures Shelved(layout, place, name, TargetAt(files, layout, place, name).value)
  {
    var training := place.TrainReports? || place.LegacyTrainReports?;
    var legacy := Shadowed(files, layout, place, name);
    assert TargetAt(files, layout, place, name) == ReportTarget(files, layout, legacy, training, name);
    ReportFound(files, layout, place, name);
    ReportParts(layout, place, name);
  }

  lemma ReportFound(files: Files, layout: Layout, place: Place, name: string)
    requires Entry(files, layout, place, name) && IsReport(place)
    ensures var training := place.TrainReports? || place.LegacyTrainReports?;
            var roots := ReportRoots(layout.exports, training);
            Artifact(files, if Shadowed(files, layout, place, name) then roots[1..] else roots, name)
            == Ok(Found(name, Root(layout, place) + [name]))
  {
    var training := place.TrainReports? || place.LegacyTrainReports?;
    var roots := ReportRoots(layout.exports, training);
    assert roots[0] != roots[1] by {
      assert |roots[0]| == |layout.exports| + 2;
      assert roots[0][|layout.exports|] != roots[1][|layout.exports|];
    }
    if Shadowed(files, layout, place, name) {
      assert roots[1..] == [Root(layout, place)];
      ArtifactAlone(files, Root(layout, place), name);
    } else {
      ArtifactAt(files, roots[0], roots[1], name, place.LegacyTrainReports? || place.LegacyReports?);
      assert roots == [roots[0], roots[1]];
    }
  }

  lemma InteractiveSuffix(place: Place, name: string)
    requires IsReport(place)
    ensures Interactive(Suffix(place) + [name]) == CompanionSuffix(place) + [name]
  {
    var parts := Suffix(place) + [name];
    if place.TrainReports? || place.EvaluateReports? {
      assert parts[1..] == ["derived", name] && parts[1..][1..] == [name];
    } else if place.LegacyTrainReports? {
      assert parts[1..] == ["training", name];
    } else {
      assert parts[1..] == [name];
    }
  }

  lemma ExportShelved(files: Files, layout: Layout, place: Place, name: string)
    requires Entry(files, layout, place, name) && !IsRun(place) && !IsReport(place)
    requires TargetAt(files, layout, place, name).Ok?
    ensures Shelved(layout, place, name, TargetAt(files, layout, place, name).value)
  {
    var family := if place.Isolated? || place.LegacyIsolated? then "isolated" else "grouped";
    var roots := ExportRoots(layout.exports, family);
    assert |roots[0]| != |roots[1]|;
    var root := Root(layout, place);
    if Shadowed(files, layout, place, name) {
      assert roots[1..] == [root];
      ArtifactAlone(files, root, name);
    } else {
      ArtifactAt(files, roots[0], roots[1], name, place.LegacyIsolated? || place.LegacyGrouped?);
      assert roots == [roots[0], roots[1]];
    }
    assert root + [name] == layout.exports + (Suffix(place) + [name]);
    assert Below(layout.exports, root + [name]) == Suffix(place) + [name];
    assert ["exports"] + (Suffix(place) + [name]) == Shelf(layout, place) + [name];
  }

  /** Every listed entry is selected from where it was listed, and shelved by the listing it came from. */
  lemma EntryShelved(files: Files, layout: Layout, place: Place, name: string)
    requires Entry(files, layout, place, name) && TargetAt(files, layout, place, name).Ok?
    ensures Shelved(layout, place, name, TargetAt(files, layout, place, name).value)
  {
    if IsRun(place) {
      RunShelved(files, layout, place, name);
    } else if IsReport(place) {
      ReportShelved(files, layout, place, name);
    } else {
      ExportShelved(files, layout, place, name);
    }
  }

  // ----- no two of them meet -----

  lemma DifferAt(a: Path, b: Path, k: nat)
    requires k < |a| && k < |b| && a[k] != b[k]
    ensures Apart(a, b)
  {
  }

  lemma ApartBelow(a: Path, b: Path, x: Path, y: Path)
    requires Apart(a, b)
    ensures Apart(a + x, b + y)
  {
    var k := Divergence(a, b);
    DifferAt(a + x, b + y, k);
  }

  lemma ApartTogether(root: Path, x: Path, y: Path)
    requires Apart(x, y)
    ensures Apart(root + x, root + y)
  {
    var k := Divergence(x, y);
    DifferAt(root + x, root + y, |root| + k);
  }

  /** Paths apart differ somewhere. */
  lemma {:induction false} Divergence(a: Path, b: Path) returns (k: nat)
    requires Apart(a, b)
    ensures k < |a| && k < |b| && a[k] != b[k]
  {
    if a[0] != b[0] {
      k := 0;
    } else {
      assert a == [a[0]] + a[1..] && b == [b[0]] + b[1..];
      k := Divergence(a[1..], b[1..]);
      k := k + 1;
    }
  }

  /** One directory to move: a target, or the companion of a report. */
  datatype Pick = Pick(place: Place, name: string, companion: bool)

  function Parts(pick: Pick): Path {
    (if pick.companion then CompanionSuffix(pick.place) else Suffix(pick.place)) + [pick.name]
  }

  function Source(layout: Layout, pick: Pick): Path {
    if IsRun(pick.place) then Root(layout, pick.place) + [pick.name] else layout.exports + Parts(pick)
  }

  function Destination(layout: Layout, pick: Pick): Path {
    if IsRun(pick.place) then Shelf(layout, pick.place) + [pick.name] else ["exports"] + Parts(pick)
  }

  /** An entry that is selected, or the companion it has. */
  ghost predicate Picked(files: Files, layout: Layout, pick: Pick) {
    && Entry(files, layout, pick.place, pick.name) && TargetAt(files, layout, pick.place, pick.name).Ok?
    && (pick.companion ==> IsReport(pick.place))
  }

  lemma PartsApart(a: Pick, b: Pick)
    requires a != b && !IsRun(a.place) && !IsRun(b.place)
    requires a.companion ==> IsReport(a.place)
    requires b.companion ==> IsReport(b.place)
    requires a.place.LegacyReports? ==> a.name != "training"
    requires b.place.LegacyReports? ==> b.name != "training"
    ensures Apart(Parts(a), Parts(b))
  {
    var x, y := Parts(a), Parts(b);
    if a.place == b.place && a.companion == b.companion {
      DifferAt(x, y, |x| - 1);
    } else if x[0] != y[0] {
      DifferAt(x, y, 0);
    } else {
      SecondPart(a, b);
      DifferAt(x, y, 1);
    }
  }

  lemma SecondPart(a: Pick, b: Pick)
    requires !IsRun(a.place) && !IsRun(b.place) && (a.place != b.place || a.companion != b.companion)
    requires a.companion ==> IsReport(a.place)
    requires b.companion ==> IsReport(b.place)
    requires a.place.LegacyReports? ==> a.name != "training"
    requires b.place.LegacyReports? ==> b.name != "training"
    requires Parts(a)[0] == Parts(b)[0]
    ensures |Parts(a)| >= 2 && |Parts(b)| >= 2 && Parts(a)[1] != Parts(b)[1]
  {
  }

  /** Two selected runs with the same archive place would have been ambiguous. */
  lemma RunsShelvedApart(files: Files, layout: Layout, a: Pick, b: Pick)
    requires Picked(files, layout, a) && Picked(files, layout, b) && a != b && IsRun(a.place) && IsRun(b.place)
    requires layout.Legacy() != layout.runs
    ensures Destination(layout, a) != Destination(layout, b)
  {
    if Destination(layout, a) == Destination(layout, b) {
      assert a.name == LastPart(Destination(layout, a)) == b.name;
      assert Shelf(layout, a.place) == Destination(layout, a)[..2] == Destination(layout, b)[..2]
          == Shelf(layout, b.place);
      var plain, other := if b.place.PlainRuns? then b else a, if b.place.PlainRuns? then a else b;
      RootsDiffer(layout, plain.place, other.place);
      if plain.place.PlainRuns? {
        assert Contains(RunRoots(layout, PlainRuns), Root(layout, other.place)) by {
          var i := if other.place.TrainRuns? then 0 else if other.place.LegacyRuns? then 1 else 2;
          assert RunRoots(layout, PlainRuns)[i] == Root(layout, other.place);
        }
      } else {
        assert Contains(RunRoots(layout, plain.place), Root(layout, other.place)) by {
          var i := if other.place.TrainRuns? then 0 else 1;
          assert RunRoots(layout, plain.place)[i] == Root(layout, other.place);
        }
      }
      RunAlone(files, layout, plain.place, plain.name, Root(layout, other.place));
    }
  }

  lemma RootsDiffer(layout: Layout, a: Place, b: Place)
    requires IsRun(a) && IsRun(b) && a != b && layout.Legacy() != layout.runs
    ensures Root(layout, a) != Root(layout, b)
  {
    assert LastPart(layout.Legacy()) == "training-runs";
    assert LastPart(layout.runs + ["train"]) == "train" && LastPart(layout.runs + ["evaluate"]) == "evaluate";
    assert |layout.runs + ["train"]| != |layout.runs| && |layout.runs + ["evaluate"]| != |layout.runs|;
  }

  /** However the roots lie, as long as the legacy root is not the runs root, destinations never meet. */
  lemma DestinationsApart(files: Files, layout: Layout, a: Pick, b: Pick)
    requires Picked(files, layout, a) && Picked(files, layout, b) && a != b && TwoRoots(layout)
    ensures Apart(layout.archive + Destination(layout, a), layout.archive + Destination(layout, b))
  {
    var x, y := Destination(layout, a), Destination(layout, b);
    if IsRun(a.place) && IsRun(b.place) {
      RunsShelvedApart(files, layout, a, b);
      assert |x| == |y|;
    } else if !IsRun(a.place) && !IsRun(b.place) {
      PartsApart(a, b);
      ApartTogether(["exports"], Parts(a), Parts(b));
    } else {
      DifferAt(x, y, 0);
    }
    ApartTogether(layout.archive, x, y);
  }

  /** The configured root a pick lies under, and its path from there. */
  function Home(layout: Layout, place: Place): Path {
    if place.LegacyRuns? then layout.Legacy() else if IsRun(place) then layout.runs else layout.exports
  }

  function Rest(layout: Layout, pick: Pick): Path {
    match pick.place
    case TrainRuns => ["train", pick.name]
    case EvaluateRuns => ["evaluate", pick.name]
    case LegacyRuns => [pick.name]
    case PlainRuns => [pick.name]
    case _ => Parts(pick)
  }

  lemma SourceBelow(layout: Layout, pick: Pick)
    ensures Source(layout, pick) == Home(layout, pick.place) + Rest(layout, pick)
  {
  }

  lemma RestsApart(layout: Layout, a: Pick, b: Pick)
    requires a != b && Home(layout, a.place) == Home(layout, b.place) && layout.Accepted()
    requires a.place.LegacyRuns? <==> b.place.LegacyRuns?
    requires a.companion ==> IsReport(a.place)
    requires b.companion ==> IsReport(b.place)
    requires !Skipped(layout, a.place, a.name) && !Skipped(layout, b.place, b.name)
    ensures Apart(Rest(layout, a), Rest(layout, b))
  {
    var x, y := Rest(layout, a), Rest(layout, b);
    if IsRun(a.place) {
      if x[0] != y[0] {
        DifferAt(x, y, 0);
      } else {
        DifferAt(x, y, 1);
      }
    } else {
      PartsApart(a, b);
    }
  }

  // ----- where the legacy root may lie -----

  /** The directory whose entry a pick is, and the one it becomes an entry of. */
  function Room(layout: Layout, place: Place, companion: bool): Path {
    if companion then layout.exports + CompanionSuffix(place) else Root(layout, place)
  }

  function ArchiveRoom(layout: Layout, place: Place, companion: bool): Path {
    layout.archive + if companion then ["exports"] + CompanionSuffix(place) else Shelf(layout, place)
  }

  lemma InRooms(layout: Layout, pick: Pick)
    requires pick.companion ==> IsReport(pick.place)
    ensures Source(layout, pick) == Room(layout, pick.place, pick.companion) + [pick.name]
    ensures layout.archive + Destination(layout, pick)
            == ArchiveRoom(layout, pick.place, pick.companion) + [pick.name]
  {
    if !IsRun(pick.place) {
      PartsRead(layout, pick);
    }
    var inside := if pick.companion then ["exports"] + CompanionSuffix(pick.place) else Shelf(layout, pick.place);
    assert layout.archive + (inside + [pick.name]) == layout.archive + inside + [pick.name];
  }

  /** The directories are two, and neither leads to the other through an entry that can be selected. */
  predicate Clear(legacy: Path, other: Path, passed: set<string>) {
    && legacy != other
    && (legacy < other ==> !Portable(other[|legacy|]))
    && (other < legacy ==> !Portable(legacy[|other|]) || legacy[|other|] in passed)
  }

  /** The legacy root is clear of every other directory listed, of the companions', and of every archive directory. */
  predicate LegacyClear(layout: Layout) {
    layout.runsExist ==>
      forall place: Place, companion: bool | companion ==> IsReport(place) ::
        && (place.LegacyRuns? || Clear(layout.Legacy(), Room(layout, place, companion), Passed(place)))
        && Clear(layout.Legacy(), ArchiveRoom(layout, place, companion), Passed(place))
  }

  lemma ClearApart(legacy: Path, other: Path, passed: set<string>, n: string, m: string)
    requires Clear(legacy, other, passed) && Portable(n) && Portable(m) && m !in passed
    ensures Apart(legacy + [n], other + [m])
  {
    if legacy + [n] <= other + [m] {
      EntriesNest(legacy, other, n, m);
    } else if other + [m] <= legacy + [n] {
      EntriesNest(other, legacy, m, n);
    }
  }

  /** An entry of one directory is, or leads to, an entry of another only if it is the way to that directory. */
  lemma EntriesNest(a: Path, b: Path, n: string, m: string)
    requires a != b && a + [n] <= b + [m]
    ensures a < b && b[|a|] == n
  {
    assert |a| <= |b| && a == (b + [m])[..|a|] == b[..|a|];
    assert (b + [m])[|a|] == n;
  }

  /** What is selected has a portable name. */
  lemma PickedPortable(files: Files, layout: Layout, pick: Pick)
    requires Picked(files, layout, pick)
    ensures Portable(pick.name)
  {
    var name := pick.name;
    EntryShelved(files, layout, pick.place, name);
    var target := TargetAt(files, layout, pick.place, name).value;
    assert LastPart(target.relative) == name;
    assert Portable(LastPart(target.relative)) by {
      TargetPortable(files, layout, pick.place, name);
    }
  }

  lemma TargetPortable(files: Files, layout: Layout, place: Place, name: string)
    requires Entry(files, layout, place, name) && TargetAt(files, layout, place, name).Ok?
    ensures Portable(name)
  {
    if IsRun(place) {
      var root := Root(layout, place);
      assert Contains(RunRoots(layout, place), root) by {
        var i := if place.LegacyRuns? then 1 else if place.PlainRuns? then 3 else 0;
        assert RunRoots(layout, place)[i] == root;
      }
      ResolveListed(files, RunRoots(layout, place), name, root);
    } else if IsReport(place) {
      ReportFound(files, layout, place, name);
    }
  }

  /** Where the legacy root is clear of the others, sources never meet either, nor any source a destination. */
  lemma SourcesApart(files: Files, layout: Layout, a: Pick, b: Pick)
    requires Picked(files, layout, a) && Picked(files, layout, b) && layout.Accepted() && LegacyClear(layout)
    ensures a != b ==> Apart(Source(layout, a), Source(layout, b))
    ensures Apart(Source(layout, a), layout.archive + Destination(layout, b))
  {
    if a.place.LegacyRuns? {
      LegacyApart(files, layout, a, b);
    } else {
      SourceBelow(layout, a);
      ApartBelow(Home(layout, a.place), layout.archive, Rest(layout, a), Destination(layout, b));
      if b.place.LegacyRuns? {
        LegacyApart(files, layout, b, a);
      } else if a != b {
        ConfiguredApart(layout, a, b);
      }
    }
  }

  lemma ConfiguredApart(layout: Layout, a: Pick, b: Pick)
    requires a != b && !a.place.LegacyRuns? && !b.place.LegacyRuns? && layout.Accepted()
    requires a.companion ==> IsReport(a.place)
    requires b.companion ==> IsReport(b.place)
    requires !Skipped(layout, a.place, a.name) && !Skipped(layout, b.place, b.name)
    ensures Apart(Source(layout, a), Source(layout, b))
  {
    SourceBelow(layout, a);
    SourceBelow(layout, b);
    if IsRun(a.place) <==> IsRun(b.place) {
      RestsApart(layout, a, b);
      ApartTogether(Home(layout, a.place), Rest(layout, a), Rest(layout, b));
    } else {
      ApartBelow(Home(layout, a.place), Home(layout, b.place), Rest(layout, a), Rest(layout, b));
    }
  }

  lemma LegacyApart(files: Files, layout: Layout, a: Pick, b: Pick)
    requires Picked(files, layout, a) && Picked(files, layout, b) && a.place.LegacyRuns? && LegacyClear(layout)
    ensures a != b ==> Apart(Source(layout, a), Source(layout, b))
    ensures Apart(Source(layout, a), layout.archive + Destination(layout, b))
  {
    PickedPortable(files, layout, a);
    PickedPortable(files, layout, b);
    InRooms(layout, a);
    InRooms(layout, b);
    var room, shelf := Room(layout, b.place, b.companion), ArchiveRoom(layout, b.place, b.companion);
    ClearApart(layout.Legacy(), shelf, Passed(b.place), a.name, b.name);
    if !b.place.LegacyRuns? {
      ClearApart(layout.Legacy(), room, Passed(b.place), a.name, b.name);
    } else if a != b {
      DifferAt(Source(layout, a), Source(layout, b), |layout.Legacy()|);
    }
  }

  // ----- the whole selection -----

  function EntriesOf(layout: Layout, place: Place, names: seq<string>): seq<(Place, string)> {
    if names == [] then []
    else
      var n := |names| - 1;
      EntriesOf(layout, place, names[..n]) + if Skipped(layout, place, names[n]) then [] else [(place, names[n])]
  }

  function AllEntries(files: Files, layout: Layout, places: seq<Place>): seq<(Place, string)> {
    if places == [] then []
    else
      var n := |places| - 1;
      AllEntries(files, layout, places[..n])
      + EntriesOf(layout, places[n], files.children(Root(layout, places[n])))
  }

  ghost predicate From(files: Files, layout: Layout, entries: seq<(Place, string)>, targets: seq<Target>) {
    |targets| == |entries|
    && forall i :: 0 <= i < |targets| ==> TargetAt(files, layout, entries[i].0, entries[i].1) == Ok(targets[i])
  }

  lemma {:induction false} ListedFrom(files: Files, layout: Layout, place: Place, names: seq<string>)
    requires ListPlace(files, layout, place, names).Ok?
    ensures From(files, layout, EntriesOf(layout, place, names), ListPlace(files, layout, place, names).value)
  {
    if names != [] {
      ListedFrom(files, layout, place, names[..|names| - 1]);
    }
  }

  lemma {:induction false} AllFrom(files: Files, layout: Layout, places: seq<Place>)
    requires ListAll(files, layout, places).Ok?
    ensures From(files, layout, AllEntries(files, layout, places), ListAll(files, layout, places).value)
  {
    if places != [] {
      var n := |places| - 1;
      AllFrom(files, layout, places[..n]);
      ListedFrom(files, layout, places[n], files.children(Root(layout, places[n])));
    }
  }

  /** The entries of one listing: each a name there, not passed over, and no name twice. */
  lemma {:induction false} EntriesDistinct(layout: Layout, place: Place, names: seq<string>)
    requires Distinct(names)
    ensures Distinct(EntriesOf(layout, place, names))
    ensures forall i :: 0 <= i < |EntriesOf(layout, place, names)| ==>
              var (where, name) := EntriesOf(layout, place, names)[i];
              where == place && !Skipped(layout, place, name) && Contains(names, name)
  {
    if names != [] {
      var n := |names| - 1;
      EntriesDistinct(layout, place, names[..n]);
      var before := EntriesOf(layout, place, names[..n]);
      assert names == names[..n] + [names[n]];
      ContainsMore(names[..n], names[n], names[n]);
      forall i | 0 <= i < |before|
        ensures before[i].1 != names[n] && Contains(names, before[i].1)
      {
        ContainsMore(names[..n], names[n], before[i].1);
      }
    }
  }

  lemma {:induction false} AllDistinct(files: Files, layout: Layout, places: seq<Place>)
    requires files.Valid() && Distinct(places)
    ensures Distinct(AllEntries(files, layout, places))
    ensures forall i :: 0 <= i < |AllEntries(files, layout, places)| ==>
              var (place, name) := AllEntries(files, layout, places)[i];
              Contains(places, place) && files.Has(Root(layout, place), name) && !Skipped(layout, place, name)
  {
    if places != [] {
      var n := |places| - 1;
      AllDistinct(files, layout, places[..n]);
      var names := files.children(Root(layout, places[n]));
      EntriesDistinct(layout, places[n], names);
      var before, here := AllEntries(files, layout, places[..n]), EntriesOf(layout, places[n], names);
      assert places == places[..n] + [places[n]];
      ContainsMore(places[..n], places[n], places[n]);
      forall i | 0 <= i < |before|
        ensures before[i].0 != places[n] && Contains(places, before[i].0)
      {
        ContainsMore(places[..n], places[n], before[i].0);
      }
    }
  }

  /** Directory names are single path components. */
  ghost predicate Names(files: Files, layout: Layout) {
    forall place, name :: files.Has(Root(layout, place), name) ==> OnePart(name)
  }

  function PickOf(entry: (Place, string), companion: bool): Pick {
    Pick(entry.0, entry.1, companion)
  }

  /** The moves one target asks for: itself, and its companion. */
  function MovesOf(archive: Path, t: Target): seq<(Path, Path)> {
    [(t.path, archive + t.relative)]
    + if t.companion.Some? then [(t.companion.value.0, archive + t.companion.value.1)] else []
  }

  lemma MovesPicked(files: Files, layout: Layout, entry: (Place, string), t: Target, k: nat)
    requires Entry(files, layout, entry.0, entry.1) && TargetAt(files, layout, entry.0, entry.1) == Ok(t)
    requires k < |MovesOf(layout.archive, t)|
    ensures Picked(files, layout, PickOf(entry, k == 1))
    ensures MovesOf(layout.archive, t)[k]
            == (Source(layout, PickOf(entry, k == 1)), layout.archive + Destination(layout, PickOf(entry, k == 1)))
  {
    EntryShelved(files, layout, entry.0, entry.1);
    if !IsRun(entry.0) {
      PartsRead(layout, PickOf(entry, k == 1));
    }
  }

  lemma PartsRead(layout: Layout, pick: Pick)
    requires !IsRun(pick.place)
    ensures var suffix := if pick.companion then CompanionSuffix(pick.place) else Suffix(pick.place);
            && Source(layout, pick) == layout.exports + suffix + [pick.name]
            && Destination(layout, pick) == ["exports"] + suffix + [pick.name]
  {
    var suffix := if pick.companion then CompanionSuffix(pick.place) else Suffix(pick.place);
    assert layout.exports + (suffix + [pick.name]) == layout.exports + suffix + [pick.name];
    assert ["exports"] + (suffix + [pick.name]) == ["exports"] + suffix + [pick.name];
  }

  function Moves(archive: Path, targets: seq<Target>): seq<(Path, Path)> {
    if targets == [] then []
    else
      var n := |targets| - 1;
      Moves(archive, targets[..n]) + MovesOf(archive, targets[n])
  }

  /** Two moves that have nothing to do with each other, and stay out of the archive's way. */
  predicate Unrelated(a: (Path, Path), b: (Path, Path)) {
    Apart(a.0, b.0) && Apart(a.1, b.1) && Apart(a.0, b.1) && Apart(b.0, a.1)
  }

  /** What archiving relies on: no move's source or destination meets another's, or its own. */
  ghost predicate Separate(moves: seq<(Path, Path)>) {
    (forall i :: 0 <= i < |moves| ==> Apart(moves[i].0, moves[i].1))
    && forall i, j :: 0 <= i < j < |moves| ==> Unrelated(moves[i], moves[j])
  }

  /** Where runs are listed at all, the legacy root is another one than the runs root. */
  predicate TwoRoots(layout: Layout) {
    layout.runsExist ==> layout.Legacy() != layout.runs
  }

  lemma ClearIsTwoRoots(layout: Layout)
    requires LegacyClear(layout)
    ensures TwoRoots(layout)
  {
    if layout.runsExist {
      assert Clear(layout.Legacy(), Room(layout, PlainRuns, false), Passed(PlainRuns));
    }
  }

  /** The moves of the first targets, and the picks they stand for. */
  ghost predicate Standing(files: Files, layout: Layout, moves: seq<(Path, Path)>, picks: seq<Pick>) {
    && |moves| == |picks| && Distinct(picks)
    && forall i :: 0 <= i < |moves| ==> Stands(files, layout, moves[i], picks[i])
  }

  ghost predicate Stands(files: Files, layout: Layout, move: (Path, Path), pick: Pick) {
    && Picked(files, layout, pick)
    && move == (Source(layout, pick), layout.archive + Destination(layout, pick))
  }

  /** Every pick is of one of these entries. */
  predicate Of(entries: seq<(Place, string)>, picks: seq<Pick>) {
    forall i :: 0 <= i < |picks| ==> Contains(entries, (picks[i].place, picks[i].name))
  }

  /** A selected entry, and its companion if it has one. */
  function PicksOf(entry: (Place, string), t: Target): seq<Pick> {
    [PickOf(entry, false)] + if t.companion.Some? then [PickOf(entry, true)] else []
  }

  function AllPicks(entries: seq<(Place, string)>, targets: seq<Target>): seq<Pick>
    requires |entries| == |targets|
  {
    if targets == [] then []
    else
      var n := |targets| - 1;
      AllPicks(entries[..n], targets[..n]) + PicksOf(entries[n], targets[n])
  }

  lemma TargetStands(files: Files, layout: Layout, entry: (Place, string), t: Target)
    requires Entry(files, layout, entry.0, entry.1) && TargetAt(files, layout, entry.0, entry.1) == Ok(t)
    ensures Standing(files, layout, MovesOf(layout.archive, t), PicksOf(entry, t))
  {
    MovesPicked(files, layout, entry, t, 0);
    if |MovesOf(layout.archive, t)| == 2 {
      MovesPicked(files, layout, entry, t, 1);
    }
  }

  lemma StandTogether(
      files: Files, layout: Layout, a: seq<(Path, Path)>, p: seq<Pick>, b: seq<(Path, Path)>, q: seq<Pick>)
    requires Standing(files, layout, a, p) && Standing(files, layout, b, q)
    requires forall i, j :: 0 <= i < |p| && 0 <= j < |q| ==> p[i] != q[j]
    ensures Standing(files, layout, a + b, p + q)
  {
    DistinctTogether(p, q);
    HoldTogether((move: (Path, Path), pick: Pick) => Stands(files, layout, move, pick), a, p, b, q);
  }

  lemma HoldTogether<A(!new), B(!new)>(related: (A, B) -> bool, a: seq<A>, p: seq<B>, b: seq<A>, q: seq<B>)
    requires |a| == |p| && |b| == |q|
    requires forall i :: 0 <= i < |a| ==> related(a[i], p[i])
    requires forall i :: 0 <= i < |b| ==> related(b[i], q[i])
    ensures forall i :: 0 <= i < |a + b| ==> related((a + b)[i], (p + q)[i])
  {
  }

  lemma DistinctTogether(p: seq<Pick>, q: seq<Pick>)
    requires Distinct(p) && Distinct(q)
    requires forall i, j :: 0 <= i < |p| && 0 <= j < |q| ==> p[i] != q[j]
    ensures Distinct(p + q)
  {
  }

  lemma OfMore(entries: seq<(Place, string)>, before: seq<Pick>, here: seq<Pick>)
    requires entries != [] && Distinct(entries) && Of(entries[..|entries| - 1], before)
    requires forall i :: 0 <= i < |here| ==> (here[i].place, here[i].name) == entries[|entries| - 1]
    ensures Of(entries, before + here)
    ensures forall i, j :: 0 <= i < |before| && 0 <= j < |here| ==> before[i] != here[j]
  {
    var n := |entries| - 1;
    var last := entries[n];
    assert entries == entries[..n] + [last];
    ContainsMore(entries[..n], last, last);
    forall i | 0 <= i < |before|
      ensures (before[i].place, before[i].name) != last && Contains(entries, (before[i].place, before[i].name))
    {
      ContainsMore(entries[..n], last, (before[i].place, before[i].name));
    }
  }

  lemma {:induction false} MovesStand(
      files: Files, layout: Layout, entries: seq<(Place, string)>, targets: seq<Target>)
    requires From(files, layout, entries, targets) && Distinct(entries)
    requires forall i :: 0 <= i < |entries| ==> Entry(files, layout, entries[i].0, entries[i].1)
    ensures Standing(files, layout, Moves(layout.archive, targets), AllPicks(entries, targets))
    ensures Of(entries, AllPicks(entries, targets))
  {
    if targets != [] {
      var n := |targets| - 1;
      var last := entries[n];
      MovesStand(files, layout, entries[..n], targets[..n]);
      TargetStands(files, layout, last, targets[n]);
      var before, here := AllPicks(entries[..n], targets[..n]), PicksOf(last, targets[n]);
      OfMore(entries, before, here);
      StandTogether(
        files, layout, Moves(layout.archive, targets[..n]), before, MovesOf(layout.archive, targets[n]), here);
    }
  }

  /** Every selected entry is picked, and so is the companion it has. */
  lemma {:induction false} PicksCover(entries: seq<(Place, string)>, targets: seq<Target>, i: nat, pick: Pick)
    requires i < |entries| == |targets| && pick in PicksOf(entries[i], targets[i])
    ensures Contains(AllPicks(entries, targets), pick)
  {
    var n := |targets| - 1;
    var before, here := AllPicks(entries[..n], targets[..n]), PicksOf(entries[n], targets[n]);
    if i == n {
      var k :| 0 <= k < |here| && here[k] == pick;
      assert (before + here)[|before| + k] == pick;
    } else {
      PicksCover(entries[..n], targets[..n], i, pick);
      var k :| 0 <= k < |before| && before[k] == pick;
      assert (before + here)[k] == pick;
    }
  }

  /** Selecting everything succeeds; directory names are distinct single components. */
  ghost predicate Selects(files: Files, layout: Layout, settled: Path -> bool) {
    files.Valid() && Names(files, layout) && SelectAll(files, layout, settled).Ok?
  }

  function SelectedMoves(files: Files, layout: Layout, settled: Path -> bool): seq<(Path, Path)>
    requires SelectAll(files, layout, settled).Ok?
  {
    Moves(layout.archive, SelectAll(files, layout, settled).value)
  }

  /** What the moves of a selection stand for. */
  function SelectedPicks(files: Files, layout: Layout, settled: Path -> bool): seq<Pick>
    requires SelectAll(files, layout, settled).Ok?
  {
    AllFrom(files, layout, Places());
    AllPicks(AllEntries(files, layout, Places()), SelectAll(files, layout, settled).value)
  }

  lemma EntriesListed(files: Files, layout: Layout)
    requires files.Valid() && Names(files, layout)
    ensures var entries := AllEntries(files, layout, Places());
            && Distinct(entries)
            && forall i :: 0 <= i < |entries| ==> Entry(files, layout, entries[i].0, entries[i].1)
  {
    AllDistinct(files, layout, Places());
  }

  lemma SelectionStands(files: Files, layout: Layout, settled: Path -> bool)
    requires Selects(files, layout, settled)
    ensures Standing(
              files, layout, SelectedMoves(files, layout, settled), SelectedPicks(files, layout, settled))
  {
    AllFrom(files, layout, Places());
    EntriesListed(files, layout);
    MovesStand(files, layout, AllEntries(files, layout, Places()), SelectAll(files, layout, settled).value);
  }

  /**
   * Selecting everything either is refused or gives moves whose sources and destinations are pairwise distinct and
   * never inside one another, when the legacy training root is clear of the other directories.
   */
  lemma SelectionSeparate(files: Files, layout: Layout, settled: Path -> bool)
    requires layout.Accepted() && LegacyClear(layout) && Selects(files, layout, settled)
    ensures Separate(SelectedMoves(files, layout, settled))
  {
    var moves := SelectedMoves(files, layout, settled);
    var picks := SelectedPicks(files, layout, settled);
    SelectionStands(files, layout, settled);
    ClearIsTwoRoots(layout);
    forall i, j | 0 <= i < |moves| && 0 <= j < |moves|
      ensures Apart(moves[i].0, moves[j].1)
      ensures i != j ==> Apart(moves[i].0, moves[j].0) && Apart(moves[i].1, moves[j].1)
    {
      assert Stands(files, layout, moves[i], picks[i]) && Stands(files, layout, moves[j], picks[j]);
      SourcesApart(files, layout, picks[i], picks[j]);
      if i != j {
        assert picks[i] != picks[j];
        DestinationsApart(files, layout, picks[i], picks[j]);
      }
    }
  }
}
