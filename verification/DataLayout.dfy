/** What `select(all_data=True)` picks from the data roots, and where each thing goes in the archive. */
module DataLayout {
  import opened Results
  import opened RunReferences

  /** The configured roots. Legacy training runs are below the data root, wherever the runs root is. */
  datatype Layout = Layout(data: Path, runs: Path, exports: Path, archive: Path, runsExist: bool)
  {
    function Legacy(): Path {
      data + ["training-runs"]
    }

    /** What the constructor insists on. */
    predicate Accepted() {
      Apart(runs, exports) && Apart(runs, archive) && Apart(exports, archive)
    }
  }

  /** Neither path is the other or inside it. */
  predicate Apart(a: Path, b: Path) {
    !(a <= b) && !(b <= a)
  }

  /** A source directory and its place below the archive root; reports may have an interactive companion. */
  datatype Target = Target(path: Path, relative: Path, companion: Option<(Path, Path)>)

  predicate IdChar(c: char) {
    'a' <= c <= 'z' || 'A' <= c <= 'Z' || '0' <= c <= '9'
  }

  /** One portable filesystem identifier. */
  predicate Portable(name: string) {
    && name != "" && IdChar(name[0])
    && forall i :: 0 <= i < |name| ==> IdChar(name[i]) || name[i] == '.' || name[i] == '_' || name[i] == '-'
  }

  function LastPart(path: Path): string {
    if path == [] then "" else path[|path| - 1]
  }

  // ----- one target -----

  /** `_run_target`, with its type prefix split off. */
  function RunTarget(files: Files, layout: Layout, kind: Option<string>, plain: string): Result<Target> {
    var roots := match kind
      case Some(k) => if k == "train" then [layout.runs + ["train"], layout.Legacy()] else [layout.runs + [k]]
      case None => [layout.runs + ["train"], layout.Legacy(), layout.runs + ["evaluate"], layout.runs];
    match Resolve(files, roots, plain)
    case Match(found) =>
      if !Portable(found.name) then Err
      else Ok(Target(found.path, ["runs", Variant(layout, kind, found), found.name], None))
    case _ => Err
  }

  function Variant(layout: Layout, kind: Option<string>, found: Found): string {
    if kind.Some? then kind.value
    else if found.path == layout.Legacy() + [found.name] then "train"
    else
      var parent := if found.path == [] then "" else LastPart(found.path[..|found.path| - 1]);
      if parent == "train" || parent == "evaluate" then parent else "evaluate"
  }

  /** Each root on its own; an ambiguity there is not forgiven. */
  function Each(files: Files, roots: seq<Path>, reference: string): Result<seq<Found>> {
    if roots == [] then Ok([])
    else
      match Resolve(files, [roots[0]], reference)
      case Ambiguous => Err
      case Unavailable => Each(files, roots[1..], reference)
      case Match(found) =>
        var rest :- Each(files, roots[1..], reference);
        Ok([found] + rest)
  }

  predicate OneName(matches: seq<Found>) {
    matches != [] && forall i :: 0 <= i < |matches| ==> matches[i].name == matches[0].name
  }

  /** `_artifact_reference`: the same ID in both layouts means the typed one. */
  function Artifact(files: Files, roots: seq<Path>, reference: string): Result<Found> {
    match Resolve(files, roots, reference)
    case Match(found) => Ok(found)
    case Unavailable => Err
    case Ambiguous =>
      var matches :- Each(files, roots, reference);
      if OneName(matches) then Ok(matches[0]) else Err
  }

  function Below(root: Path, path: Path): Path {
    if |root| <= |path| then path[|root|..] else path
  }

  /** The first `derived` component becomes `interactive`. */
  function Interactive(parts: Path): Path {
    if parts == [] then [] else if parts[0] == "derived" then ["interactive"] + parts[1..]
    else [parts[0]] + Interactive(parts[1..])
  }

  predicate IsDir(files: Files, path: Path) {
    path != [] && files.Has(path[..|path| - 1], path[|path| - 1])
  }

  function ReportRoots(exports: Path, training: bool): seq<Path> {
    if training then [exports + ["train", "derived"], exports + ["derived", "training"]]
    else [exports + ["evaluate", "derived"], exports + ["derived"]]
  }

  function ReportTarget(files: Files, layout: Layout, legacy: bool, training: bool, plain: string): Result<Target> {
    var roots := ReportRoots(layout.exports, training);
    var found :- Artifact(files, if legacy then roots[1..] else roots, plain);
    if !Portable(found.name) then Err
    else
      var parts := Below(layout.exports, found.path);
      var companion := layout.exports + Interactive(parts);
      Ok(Target(
        found.path, ["exports"] + parts,
        if IsDir(files, companion) then Some((companion, ["exports"] + Interactive(parts))) else None))
  }

  function ExportRoots(exports: Path, family: string): seq<Path> {
    [exports + ["evaluate", family], exports + [family]]
  }

  function ExportTarget(files: Files, layout: Layout, legacy: bool, family: string, plain: string): Result<Target> {
    var roots := ExportRoots(layout.exports, family);
    var found :- Artifact(files, if legacy then roots[1..] else roots, plain);
    if !Portable(found.name) then Err
    else Ok(Target(found.path, ["exports"] + Below(layout.exports, found.path), None))
  }

  // ----- the listings -----

  /** The directories listed, in listing order. */
  datatype Place =
    | TrainRuns | EvaluateRuns | LegacyRuns | PlainRuns
    | TrainReports | EvaluateReports | LegacyTrainReports | LegacyReports
    | Isolated | Grouped | LegacyIsolated | LegacyGrouped

  function Places(): seq<Place> {
    [TrainRuns, EvaluateRuns, LegacyRuns, PlainRuns, TrainReports, EvaluateReports, LegacyTrainReports, LegacyReports,
     Isolated, Grouped, LegacyIsolated, LegacyGrouped]
  }

  function Root(layout: Layout, place: Place): Path {
    match place
    case TrainRuns => layout.runs + ["train"]
    case EvaluateRuns => layout.runs + ["evaluate"]
    case LegacyRuns => layout.Legacy()
    case PlainRuns => layout.runs
    case TrainReports => layout.exports + ["train", "derived"]
    case EvaluateReports => layout.exports + ["evaluate", "derived"]
    case LegacyTrainReports => layout.exports + ["derived", "training"]
    case LegacyReports => layout.exports + ["derived"]
    case Isolated => layout.exports + ["evaluate", "isolated"]
    case Grouped => layout.exports + ["evaluate", "grouped"]
    case LegacyIsolated => layout.exports + ["isolated"]
    case LegacyGrouped => layout.exports + ["grouped"]
  }

  predicate IsRun(place: Place) {
    place.TrainRuns? || place.EvaluateRuns? || place.LegacyRuns? || place.PlainRuns?
  }

  predicate IsReport(place: Place) {
    place.TrainReports? || place.EvaluateReports? || place.LegacyTrainReports? || place.LegacyReports?
  }

  /** The names of a listed directory that are directories of listings themselves. */
  function Passed(place: Place): set<string> {
    match place
    case PlainRuns => {"train", "evaluate"}
    case LegacyReports => {"training"}
    case _ => {}
  }

  /** Which names of a listed directory are passed over: without a runs root no run is listed. */
  predicate Skipped(layout: Layout, place: Place, name: string) {
    name in Passed(place) || (IsRun(place) && !layout.runsExist)
  }

  /** The typed copy of a legacy entry is there too, so the legacy one is asked for by name. */
  predicate Shadowed(files: Files, layout: Layout, place: Place, name: string) {
    match place
    case LegacyTrainReports => files.Has(Root(layout, TrainReports), name)
    case LegacyReports => files.Has(Root(layout, EvaluateReports), name)
    case LegacyIsolated => files.Has(Root(layout, Isolated), name)
    case LegacyGrouped => files.Has(Root(layout, Grouped), name)
    case _ => false
  }

  function TargetAt(files: Files, layout: Layout, place: Place, name: string): Result<Target> {
    var legacy := Shadowed(files, layout, place, name);
    match place
    case TrainRuns => RunTarget(files, layout, Some("train"), name)
    case EvaluateRuns => RunTarget(files, layout, Some("evaluate"), name)
    case LegacyRuns => RunTarget(files, layout, Some("train"), name)
    case PlainRuns => RunTarget(files, layout, None, name)
    case TrainReports => ReportTarget(files, layout, legacy, true, name)
    case EvaluateReports => ReportTarget(files, layout, legacy, false, name)
    case LegacyTrainReports => ReportTarget(files, layout, legacy, true, name)
    case LegacyReports => ReportTarget(files, layout, legacy, false, name)
    case _ =>
      if !Portable(name) then Err
      else ExportTarget(
        files, layout, legacy, if place.Isolated? || place.LegacyIsolated? then "isolated" else "grouped", name)
  }

  function ListPlace(files: Files, layout: Layout, place: Place, names: seq<string>): Result<seq<Target>> {
    if names == [] then Ok([])
    else
      var n := |names| - 1;
      var before :- ListPlace(files, layout, place, names[..n]);
      if Skipped(layout, place, names[n]) then Ok(before)
      else
        var target :- TargetAt(files, layout, place, names[n]);
        Ok(before + [target])
  }

  function ListAll(files: Files, layout: Layout, places: seq<Place>): Result<seq<Target>> {
    if places == [] then Ok([])
    else
      var n := |places| - 1;
      var before :- ListAll(files, layout, places[..n]);
      var here :- ListPlace(files, layout, places[n], files.children(Root(layout, places[n])));
      Ok(before + here)
  }

  /** `_list_runs`, `_list_reports` and `_list_exports`: each directory's loop, appending targets. */
  method ListPlaces(files: Files, layout: Layout) returns (r: Result<seq<Target>>)
    ensures r == ListAll(files, layout, Places())
  {
    var places := Places();
    var targets: seq<Target> := [];
    for i := 0 to |places|
      invariant ListAll(files, layout, places[..i]) == Ok(targets)
    {
      assert places[..i + 1][..i] == places[..i];
      var names := files.children(Root(layout, places[i]));
      var here := ListNames(files, layout, places[i], names);
      if here.Err? {
        ListFails(files, layout, places, i);
        return Err;
      }
      targets := targets + here.value;
    }
    assert places[..|places|] == places;
    return Ok(targets);
  }

  method ListNames(files: Files, layout: Layout, place: Place, names: seq<string>) returns (r: Result<seq<Target>>)
    ensures r == ListPlace(files, layout, place, names)
  {
    var targets: seq<Target> := [];
    for i := 0 to |names|
      invariant ListPlace(files, layout, place, names[..i]) == Ok(targets)
    {
      assert names[..i + 1][..i] == names[..i];
      if Skipped(layout, place, names[i]) {
        continue;
      }
      var target := TargetAt(files, layout, place, names[i]);
      if target.Err? {
        NamesFail(files, layout, place, names, i);
        return Err;
      }
      targets := targets + [target.value];
    }
    assert names[..|names|] == names;
    return Ok(targets);
  }

  lemma {:induction false} NamesFail(files: Files, layout: Layout, place: Place, names: seq<string>, i: nat)
    requires i < |names| && !Skipped(layout, place, names[i]) && TargetAt(files, layout, place, names[i]).Err?
    ensures ListPlace(files, layout, place, names).Err?
  {
    var n := |names| - 1;
    if i < n {
      NamesFail(files, layout, place, names[..n], i);
    }
  }

  lemma {:induction false} ListFails(files: Files, layout: Layout, places: seq<Place>, i: nat)
    requires i < |places|
    requires ListPlace(files, layout, places[i], files.children(Root(layout, places[i]))).Err?
    ensures ListAll(files, layout, places).Err?
  {
    var n := |places| - 1;
    if i < n {
      ListFails(files, layout, places[..n], i);
    }
  }

  /** `select(all_data=True)`: refused when empty or when something is still active. */
  function SelectAll(files: Files, layout: Layout, settled: Path -> bool): Result<seq<Target>> {
    var targets :- ListAll(files, layout, Places());
    if targets == [] || exists i :: 0 <= i < |targets| && !settled(targets[i].path) then Err else Ok(targets)
  }
}
