/** Which file `extends` means, and which a reference. */
module Extends {
  import opened Results
  import opened Values
  import opened Composition
  import opened Chains
  import opened ConfigTree
  import opened Bundles

  // ----- one step of a chain -----

  lemma {:induction false} ChainIsLineage(chart: Chart, ps: seq<string>, stack: set<string>)
    requires Lineage(chart, ps) && Charted(chart, ps) && Avoids(ps, stack)
    ensures Chain(chart, ps[|ps| - 1], stack) == set p | p in ps
    decreases |ps|
  {
    var n := |ps| - 1;
    assert Linked(chart, ps, n) && ps[n] !in stack && ps == ps[..n] + [ps[n]];
    if n > 0 {
      LineagePrefix(chart, ps, n);
      forall i | 0 <= i < n
        ensures ps[..n][i] !in stack + {ps[n]}
      {
        LineageDistinct(chart, ps, i, n);
      }
      ChainIsLineage(chart, ps[..n], stack + {ps[n]});
    }
  }

  /** A file that extends the last of a lineage is not in it. */
  lemma ChildIsNew(chart: Chart, ps: seq<string>, path: string)
    requires Lineage(chart, ps) && path in chart && chart[path].link == Parent(ps[|ps| - 1])
    ensures path !in ps
  {
    if path in ps {
      var k :| 0 <= k < |ps| && ps[k] == path;
      assert Linked(chart, ps, k);
      LineageDistinct(chart, ps, k - 1, |ps| - 1);
    }
  }

  /** A parent that resolves does so below its child as it does alone, and through the same files. */
  lemma BelowAsAlone(chart: Chart, checks: Checks, next: string, path: string)
    requires path in chart && chart[path].link == Parent(next)
    ensures Compose(chart, checks, next, {path}) == Compose(chart, checks, next, {})
    ensures Compose(chart, checks, next, {}).Ok? ==> Chain(chart, next, {path}) == Chain(chart, next, {})
  {
    if Compose(chart, checks, next, {path}).Ok? {
      var ps := ComposeWalks(chart, checks, next, {path});
      LineageComposes(chart, checks, ps, {});
      ChainIsLineage(chart, ps, {path});
      ChainIsLineage(chart, ps, {});
    } else if Compose(chart, checks, next, {}).Ok? {
      var ps := ComposeWalks(chart, checks, next, {});
      ChildIsNew(chart, ps, path);
      LineageComposes(chart, checks, ps, {path});
    }
  }

  /** What one file makes of its parent, wherever the chain goes from there. */
  lemma ComposeStep(chart: Chart, checks: Checks, path: string)
    requires path in chart
    ensures Compose(chart, checks, path, {})
         == match chart[path].link
            case Broken => Err
            case Root => Layered(checks, None, chart[path].raw)
            case Parent(next) =>
              if Compose(chart, checks, next, {}).Err? then Err
              else Layered(checks, Some(Compose(chart, checks, next, {}).value), chart[path].raw)
  {
    assert {} + {path} == {path};
    if chart[path].link.Parent? {
      BelowAsAlone(chart, checks, chart[path].link.path, path);
    }
  }

  // ----- what a file says -----

  /** The file reads as `raw`. */
  predicate ReadsAs(disk: Disk, path: string, raw: seq<Field>) {
    path in disk.tree && disk.codec.read(disk.tree[path]) == Ok(raw)
  }

  /**
   * Relative references are looked up beside the file that holds them, absolute ones where they point; training
   * documents have only relative ones.
   */
  predicate Names(disk: Disk, loader: Loader, path: string, reference: string, next: string) {
    && reference != ""
    && (if reference[0] == '/' then !loader.Training? && disk.layout.absolute(reference) == Some(next)
        else disk.layout.beside(path, reference) == Some(next))
  }

  /** No `extends`, or a null one. */
  predicate StandsAlone(raw: seq<Field>) {
    Get(raw, "extends") == None || Get(raw, "extends") == Some(Null)
  }

  /** The `extends` of `raw` is a reference that names `next`. */
  predicate Extends(disk: Disk, loader: Loader, path: string, raw: seq<Field>, next: string) {
    match Get(raw, "extends")
    case Some(Str(reference)) => Names(disk, loader, path, reference, next)
    case _ => false
  }

  /** The value at a key, null where there is none. */
  function At(raw: seq<Field>, key: string): Value {
    match Get(raw, key)
    case None => Null
    case Some(v) => v
  }

  /** The header each loader insists on: a component's kind, and in the resolver its schema version. */
  predicate Headed(loader: Loader, raw: seq<Field>) {
    match loader
    case Resolver(kind) =>
      && Get(raw, "kind") == Some(Str(kind))
      && Get(raw, "schema_version") == Some(Str(if kind == "deployment" then "ovlab.deployment/v1" else "0.1.0"))
    case Builder(kind) => Get(raw, "kind") == Some(Str(kind))
    case Training => true
  }

  /** A component keeps its parent's type; a training document keeps the schema version if it states one. */
  predicate Keeps(rules: Rules, loader: Loader, raw: seq<Field>, parent: seq<Field>) {
    if loader.Training? then
      Get(raw, "schema_version") == None || rules.same(At(raw, "schema_version"), At(parent, "schema_version"))
    else rules.same(At(raw, "type"), At(parent, "type"))
  }

  /** Components are checked against the schema of their kind. */
  predicate Fits(rules: Rules, loader: Loader, doc: seq<Field>) {
    match loader
    case Resolver(kind) => rules.valid(doc, kind)
    case Builder(kind) => rules.valid(doc, kind)
    case Training => true
  }

  function LoadedBy(disk: Disk, rules: Rules, loader: Loader, path: string): Result<seq<Field>> {
    match loader
    case Resolver(kind) => Resolved(disk, rules, kind, path)
    case Builder(kind) => Built(disk, rules, kind, path)
    case Training => TrainingDocument(disk, rules, path)
  }

  /** The file named by `extends` loads, and the document is the merge over it. */
  ghost predicate Inherits(
      disk: Disk, rules: Rules, loader: Loader, path: string, raw: seq<Field>, next: string, doc: seq<Field>)
  {
    && Extends(disk, loader, path, raw, next) && LoadedBy(disk, rules, loader, next).Ok?
    && var parent := LoadedBy(disk, rules, loader, next).value;
    Keeps(rules, loader, raw, parent) && doc == Merge(parent, raw)
  }

  // ----- what it makes of the chart -----

  function ChecksBy(rules: Rules, loader: Loader): Checks {
    match loader
    case Resolver(kind) => ChecksOf(rules, kind)
    case Builder(kind) => ChecksOf(rules, kind)
    case Training => TrainingChecks(rules)
  }

  lemma LoadedIs(disk: Disk, rules: Rules, loader: Loader, path: string)
    ensures LoadedBy(disk, rules, loader, path) == Compose(ChartOf(disk, loader), ChecksBy(rules, loader), path, {})
  {
  }

  lemma ChecksMean(rules: Rules, loader: Loader, raw: seq<Field>, parent: seq<Field>)
    ensures ChecksBy(rules, loader).fits(raw, parent) == Keeps(rules, loader, raw, parent)
    ensures ChecksBy(rules, loader).accepts(raw) == Fits(rules, loader, raw)
  {
    assert At(raw, TYPE) == GetOrNull(raw, TYPE) && At(parent, TYPE) == GetOrNull(parent, TYPE);
    assert At(parent, VERSION) == GetOrNull(parent, VERSION);
    match loader
    case Training => assert TrainingChecks(rules).fits(raw, parent) == Keeps(rules, Training, raw, parent);
    case _ =>
  }

  lemma LinkMeans(disk: Disk, loader: Loader, path: string, raw: seq<Field>)
    ensures var link := LinkOf(disk.layout, loader, path, raw);
            && (link.Root? <==> StandsAlone(raw))
            && forall next :: link == Parent(next) <==> Extends(disk, loader, path, raw, next)
  {
    if Get(raw, "extends").Some? && Get(raw, "extends").value.Str? {
      var reference := Get(raw, "extends").value.s;
      assert reference != "" ==> (Absolute(reference) <==> reference[0] == '/');
    }
  }

  lemma EntryMeans(disk: Disk, loader: Loader, path: string, raw: seq<Field>)
    requires ReadsAs(disk, path, raw)
    ensures var chart := ChartOf(disk, loader);
            && (path in chart <==> Headed(loader, raw))
            && (path in chart ==>
                  && chart[path].raw == raw && (chart[path].link.Root? <==> StandsAlone(raw))
                  && forall next :: chart[path].link == Parent(next) <==> Extends(disk, loader, path, raw, next))
  {
    var chart := ChartOf(disk, loader);
    assert path in chart <==> EntryFor(disk, loader, path).Some?;
    if path in chart {
      assert EntryFor(disk, loader, path) == Some(chart[path]);
      LinkMeans(disk, loader, path, raw);
    }
  }

  lemma LoadedInherits(disk: Disk, rules: Rules, loader: Loader, path: string, raw: seq<Field>) returns (next: string)
    requires ReadsAs(disk, path, raw) && LoadedBy(disk, rules, loader, path).Ok? && !StandsAlone(raw)
    ensures Headed(loader, raw) && Fits(rules, loader, LoadedBy(disk, rules, loader, path).value)
    ensures Inherits(disk, rules, loader, path, raw, next, LoadedBy(disk, rules, loader, path).value)
  {
    var chart, checks := ChartOf(disk, loader), ChecksBy(rules, loader);
    LoadedIs(disk, rules, loader, path);
    EntryMeans(disk, loader, path, raw);
    ComposeStep(chart, checks, path);
    next := chart[path].link.path;
    assert Extends(disk, loader, path, raw, next);
    LoadedIs(disk, rules, loader, next);
    ChecksMean(rules, loader, raw, LoadedBy(disk, rules, loader, next).value);
    ChecksMean(rules, loader, LoadedBy(disk, rules, loader, path).value, []);
  }

  lemma InheritsLoads(
      disk: Disk, rules: Rules, loader: Loader, path: string, raw: seq<Field>, next: string, doc: seq<Field>)
    requires ReadsAs(disk, path, raw) && Headed(loader, raw) && Fits(rules, loader, doc)
    requires Inherits(disk, rules, loader, path, raw, next, doc)
    ensures LoadedBy(disk, rules, loader, path) == Ok(doc)
  {
    var chart, checks := ChartOf(disk, loader), ChecksBy(rules, loader);
    LoadedIs(disk, rules, loader, path);
    LoadedIs(disk, rules, loader, next);
    EntryMeans(disk, loader, path, raw);
    assert chart[path].link == Parent(next);
    ComposeStep(chart, checks, path);
    ChecksMean(rules, loader, raw, LoadedBy(disk, rules, loader, next).value);
    ChecksMean(rules, loader, doc, []);
  }

  lemma AloneLoads(disk: Disk, rules: Rules, loader: Loader, path: string, raw: seq<Field>)
    requires ReadsAs(disk, path, raw) && StandsAlone(raw)
    ensures LoadedBy(disk, rules, loader, path)
         == if Headed(loader, raw) && Fits(rules, loader, raw) then Ok(raw) else Err
  {
    var chart, checks := ChartOf(disk, loader), ChecksBy(rules, loader);
    LoadedIs(disk, rules, loader, path);
    EntryMeans(disk, loader, path, raw);
    if path in chart {
      ComposeStep(chart, checks, path);
      ChecksMean(rules, loader, raw, []);
    }
  }

  // ----- the three loaders -----

  /**
   * What a file that reads as `raw` loads as. Its header fits. Without `extends` the document is its own. With one, the
   * file it names loads as well, type or version are kept, and the document is the merge over that parent. It passes
   * the schema of its kind.
   */
  lemma LoadedMeans(disk: Disk, rules: Rules, loader: Loader, path: string, raw: seq<Field>, doc: seq<Field>)
    requires ReadsAs(disk, path, raw)
    ensures LoadedBy(disk, rules, loader, path) == Ok(doc)
       <==> && Headed(loader, raw) && Fits(rules, loader, doc)
            && ((StandsAlone(raw) && doc == raw)
                || exists next :: Inherits(disk, rules, loader, path, raw, next, doc))
  {
    if StandsAlone(raw) {
      AloneLoads(disk, rules, loader, path, raw);
    } else {
      if LoadedBy(disk, rules, loader, path) == Ok(doc) {
        var next := LoadedInherits(disk, rules, loader, path, raw);
      }
      if next :| Headed(loader, raw) && Fits(rules, loader, doc)
                 && Inherits(disk, rules, loader, path, raw, next, doc)
      {
        InheritsLoads(disk, rules, loader, path, raw, next, doc);
      }
    }
  }

  /** A file that is not there, or does not read, loads nowhere. */
  lemma UnreadRefused(disk: Disk, rules: Rules, loader: Loader, path: string)
    requires path !in disk.tree || disk.codec.read(disk.tree[path]).Err?
    ensures LoadedBy(disk, rules, loader, path).Err?
  {
    LoadedIs(disk, rules, loader, path);
    assert EntryFor(disk, loader, path).None?;
  }

  /** The files of a walk along `extends`. */
  ghost predicate Follows(disk: Disk, loader: Loader, ws: seq<string>) {
    forall i :: 0 <= i < |ws| - 1 ==> FollowsAt(disk, loader, ws, i)
  }

  ghost predicate FollowsAt(disk: Disk, loader: Loader, ws: seq<string>, i: nat)
    requires i < |ws| - 1
  {
    && ws[i] in disk.tree && disk.codec.read(disk.tree[ws[i]]).Ok?
    && Headed(loader, disk.codec.read(disk.tree[ws[i]]).value)
    && Extends(disk, loader, ws[i], disk.codec.read(disk.tree[ws[i]]).value, ws[i + 1])
  }

  /** A walk that comes back to one of its files loads from no file of it. */
  lemma CycleLoadsNowhere(disk: Disk, rules: Rules, loader: Loader, ws: seq<string>, i: nat, j: nat)
    requires Follows(disk, loader, ws) && i < j < |ws| && ws[i] == ws[j]
    ensures LoadedBy(disk, rules, loader, ws[0]).Err?
  {
    var chart := ChartOf(disk, loader);
    forall k | 0 <= k < |ws| - 1
      ensures ClimbsAt(chart, ws, k)
    {
      assert FollowsAt(disk, loader, ws, k);
      EntryMeans(disk, loader, ws[k], disk.codec.read(disk.tree[ws[k]]).value);
    }
    LoadedIs(disk, rules, loader, ws[0]);
    CycleRefused(chart, ChecksBy(rules, loader), ws, i, j, {});
  }

  /** What a component selects: its own file, and all that the file its `extends` names selects. */
  lemma ClosureMeans(disk: Disk, rules: Rules, kind: string, path: string, raw: seq<Field>)
    requires ReadsAs(disk, path, raw) && Built(disk, rules, kind, path).Ok?
    ensures StandsAlone(raw) ==> Closure(disk, kind, path) == {path}
    ensures forall next :: Extends(disk, Builder(kind), path, raw, next) ==>
              Closure(disk, kind, path) == {path} + Closure(disk, kind, next) && path !in Closure(disk, kind, next)
  {
    var chart, checks := ChartOf(disk, Builder(kind)), ChecksOf(rules, kind);
    EntryMeans(disk, Builder(kind), path, raw);
    assert {} + {path} == {path};
    if chart[path].link.Parent? {
      var next := chart[path].link.path;
      BelowAsAlone(chart, checks, next, path);
      ChainFiles(chart, next, {path});
    }
  }

  // ----- references -----

  /** The builder looks a reference up below the root, or where it points if it is absolute. */
  predicate Points(disk: Disk, reference: Option<Value>, path: string) {
    match reference
    case Some(Str(s)) =>
      (if s != "" && s[0] == '/' then disk.layout.absolute(s) else disk.layout.below(s)) == Some(path)
    case _ => false
  }

  /** The resolver takes none that is empty or absolute. */
  predicate PointsBelow(disk: Disk, reference: Option<Value>, path: string) {
    match reference
    case Some(Str(s)) => s != "" && s[0] != '/' && disk.layout.below(s) == Some(path)
    case _ => false
  }

  lemma PointsMean(disk: Disk, reference: Option<Value>, path: string)
    ensures PointsBelow(disk, reference, path) <==> Strict(disk.layout, reference) == Some(path)
    ensures Points(disk, reference, path) <==>
            reference.Some? && reference.value.Str? && Locate(disk.layout, reference.value.s) == Some(path)
  {
    if reference.Some? && reference.value.Str? {
      var s := reference.value.s;
      assert Absolute(s) <==> s != "" && s[0] == '/';
    }
  }

  /** Visiting a reference gives the document of the file it points to, and selects the files that is made of. */
  lemma VisitMeans(
      disk: Disk, rules: Rules, bundle: Bundle, reference: Option<Value>, kind: string, next: Bundle, doc: seq<Field>)
    ensures Visit(disk, rules, bundle, reference, kind) == Ok((next, doc))
       <==> exists path ::
              && Points(disk, reference, path) && Built(disk, rules, kind, path) == Ok(doc)
              && next == Bundle(bundle.files + Closure(disk, kind, path), bundle.overlays)
  {
    forall path
      ensures Points(disk, reference, path) <==>
              reference.Some? && reference.value.Str? && Locate(disk.layout, reference.value.s) == Some(path)
    {
      PointsMean(disk, reference, path);
    }
    if Visit(disk, rules, bundle, reference, kind).Ok? {
      var path := Locate(disk.layout, reference.value.s).value;
      assert Points(disk, reference, path);
    }
  }

  /** Where the override belongs in a document of a kind. */
  function Quantized(kind: string): seq<string> {
    if kind == "policy" then ["settings", "runtime", "quantization"]
    else if kind == "deployment" then ["runtime", "quantization"]
    else []
  }

  /** The document as it resolves, or, for a kind that takes the override, with it set and checked again. */
  predicate WithWord(
      rules: Rules, word: Option<string>, kind: string, plain: seq<Field>, doc: seq<Field>)
  {
    if word.None? || (kind != "policy" && kind != "deployment") then doc == plain
    else SetDefaultDeep(plain, Quantized(kind), Str(word.value)) == Ok(doc) && rules.valid(doc, kind)
  }

  /** Asking for a reference gives the document of the file it points to, below the root only. */
  lemma AskedMeans(
      disk: Disk, rules: Rules, word: Option<string>, reference: Option<Value>, kind: string, doc: seq<Field>)
    ensures ResolveOne(disk, rules, word, reference, kind) == Ok(doc)
       <==> exists path ::
              && PointsBelow(disk, reference, path) && Resolved(disk, rules, kind, path).Ok?
              && WithWord(rules, word, kind, Resolved(disk, rules, kind, path).value, doc)
  {
    forall path
      ensures PointsBelow(disk, reference, path) <==> Strict(disk.layout, reference) == Some(path)
    {
      PointsMean(disk, reference, path);
    }
    assert Quantized(kind) == Where(kind);
    if Strict(disk.layout, reference).Some? {
      var path := Strict(disk.layout, reference).value;
      assert PointsBelow(disk, reference, path);
    }
  }

  // ----- what a build insists on -----

  /** The policy with the override set is a policy, and the action interface it names loads. */
  ghost predicate Overridable(disk: Disk, rules: Rules, word: string, policy: seq<Field>) {
    && SetDeep(policy, ["settings", "runtime", "quantization"], Str(word)).Ok?
    && var changed := SetDeep(policy, ["settings", "runtime", "quantization"], Str(word)).value;
    && rules.valid(changed, "policy")
    && exists path ::
         && Points(disk, Lookup(changed, ["settings", "action", "action_interface"]), path)
         && Built(disk, rules, "action_interface", path).Ok?
  }

  lemma VisitPoints(disk: Disk, rules: Rules, bundle: Bundle, reference: Option<Value>, kind: string)
    returns (path: string)
    requires Visit(disk, rules, bundle, reference, kind).Ok?
    ensures Points(disk, reference, path) && Built(disk, rules, kind, path).Ok?
    ensures Visit(disk, rules, bundle, reference, kind).value.1 == Built(disk, rules, kind, path).value
  {
    path := Locate(disk.layout, reference.value.s).value;
    PointsMean(disk, reference, path);
  }

  lemma PolicyOverridable(
      disk: Disk, rules: Rules, word: string, bundle: Bundle, reference: string, policy: seq<Field>)
    requires AddPolicy(disk, rules, Some(word), bundle, reference, policy).Ok?
    ensures Overridable(disk, rules, word, policy)
  {
    assert Where("policy") == ["settings", "runtime", "quantization"];
    var changed := SetDeep(policy, Where("policy"), Str(word)).value;
    var overlaid := Overlay(disk, bundle, reference, "policy", word).value;
    var path := VisitPoints(disk, rules, overlaid, Lookup(changed, ACTION), "action_interface");
  }

  lemma {:induction false} ComponentsOverridable(
      disk: Disk, rules: Rules, word: string, bundle: Bundle, wanted: seq<(string, string)>, experiment: seq<Field>)
    returns (path: string)
    requires ("policy", "policy") in wanted
    requires AddComponents(disk, rules, Some(word), bundle, wanted, experiment).Ok?
    ensures Points(disk, Lookup(experiment, ["components", "policy"]), path)
    ensures Built(disk, rules, "policy", path).Ok?
    ensures Overridable(disk, rules, word, Built(disk, rules, "policy", path).value)
    decreases |wanted|
  {
    var reference := Lookup(experiment, ["components", wanted[0].0]);
    if wanted[0] == ("policy", "policy") {
      path := VisitPoints(disk, rules, bundle, reference, "policy");
      var visit := Visit(disk, rules, bundle, reference, "policy").value;
      PolicyOverridable(disk, rules, word, visit.0, reference.value.s, visit.1);
    } else {
      var added := AddComponent(disk, rules, Some(word), bundle, wanted[0].0, wanted[0].1, experiment).value;
      path := ComponentsOverridable(disk, rules, word, added, wanted[1..], experiment);
    }
  }

  /** Building with an override insists that the policy is one with it, and that its action interface loads. */
  lemma BuildValidates(disk: Disk, rules: Rules, request: Request, word: string)
    returns (start: string, policy: string)
    requires Build(disk, rules, request).Ok? && request.quantization == Some(word)
    ensures Points(disk, Some(Str(request.experiment)), start) && Built(disk, rules, request.kind, start).Ok?
    ensures Points(
              disk, Lookup(Built(disk, rules, request.kind, start).value, ["components", "policy"]), policy)
    ensures Built(disk, rules, "policy", policy).Ok?
    ensures Overridable(disk, rules, word, Built(disk, rules, "policy", policy).value)
  {
    start := VisitPoints(disk, rules, Bundle({}, map[]), Some(Str(request.experiment)), request.kind);
    var begun := Visit(disk, rules, Bundle({}, map[]), Some(Str(request.experiment)), request.kind).value;
    var overlaid := if request.kind == "deployment"
                    then Overlay(disk, begun.0, request.experiment, "deployment", word) else Ok(begun.0);
    PolicyWanted(request.kind);
    policy := ComponentsOverridable(disk, rules, word, overlaid.value, Components(request.kind), begun.1);
  }

  lemma PolicyWanted(kind: string)
    ensures ("policy", "policy") in Components(kind)
  {
    if kind == "deployment" {
      assert Components(kind)[0] == ("policy", "policy");
    } else {
      assert Components(kind)[1] == ("policy", "policy");
    }
  }
}
