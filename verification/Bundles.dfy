/** The configuration bundle of one run. */
module Bundles {
  // What is selected, what is overlaid, and what a container resolves.

  import opened Results
  import opened Values
  import opened Composition
  import opened Chains
  import opened ConfigTree

  datatype Request = Request(
    experiment: string, profile: Option<string>, quantization: Option<string>, kind: string)

  /** Normalized paths selected, and replacement texts keyed by the reference they were asked under. */
  datatype Bundle = Bundle(files: set<string>, overlays: map<string, string>)

  const MANIFEST := ".ovlab-bundle.json"

  function Components(kind: string): seq<(string, string)> {
    if kind == "deployment" then [("policy", "policy")]
    else [("benchmark", "benchmark"), ("policy", "policy"), ("metrics", "metric_set"), ("protocol", "protocol"),
          ("artifacts", "artifact_store")]
  }

  /** Where the quantization override goes in a document of this kind, if anywhere. */
  function Where(kind: string): seq<string> {
    if kind == "policy" then ["settings", "runtime", "quantization"]
    else if kind == "deployment" then ["runtime", "quantization"]
    else []
  }

  const ACTION := ["settings", "action", "action_interface"]
  const REGISTRY := ["resources", "registry"]

  // ----- building -----

  /** `config_root / reference`, resolved. */
  function Locate(layout: Layout, reference: string): Option<string> {
    if Absolute(reference) then layout.absolute(reference) else layout.below(reference)
  }

  function Visit(disk: Disk, rules: Rules, bundle: Bundle, reference: Option<Value>, kind: string)
    : (r: Result<(Bundle, seq<Field>)>)
    ensures r.Ok? ==> reference.Some? && reference.value.Str?
  {
    if reference.None? || !reference.value.Str? || Locate(disk.layout, reference.value.s).None? then Err
    else
      var path := Locate(disk.layout, reference.value.s).value;
      var doc :- Built(disk, rules, kind, path);
      Ok((bundle.(files := bundle.files + Closure(disk, kind, path)), doc))
  }

  /** The leaf file as loaded again, with the field set. */
  function Requantized(disk: Disk, reference: string, kind: string, word: string): Result<seq<Field>>
    requires Where(kind) != []
  {
    var path := Locate(disk.layout, reference);
    if path.None? || path.value !in disk.tree then Err
    else
      var leaf :- disk.codec.read(disk.tree[path.value]);
      SetDefaultDeep(leaf, Where(kind), Str(word))
  }

  function Overlay(disk: Disk, bundle: Bundle, reference: string, kind: string, word: string): Result<Bundle>
    requires Where(kind) != []
  {
    var leaf :- Requantized(disk, reference, kind, word);
    var text :- disk.codec.write(leaf);
    Ok(bundle.(overlays := bundle.overlays[reference := text]))
  }

  function AddPolicy(
      disk: Disk, rules: Rules, word: Option<string>, bundle: Bundle, reference: string, doc: seq<Field>)
    : Result<Bundle>
  {
    if word.None? then
      var visit :- Visit(disk, rules, bundle, Lookup(doc, ACTION), "action_interface");
      Ok(visit.0)
    else
      var changed :- SetDeep(doc, Where("policy"), Str(word.value));
      if !rules.valid(changed, "policy") then Err
      else
        var overlaid :- Overlay(disk, bundle, reference, "policy", word.value);
        var visit :- Visit(disk, rules, overlaid, Lookup(changed, ACTION), "action_interface");
        Ok(visit.0)
  }

  function AddComponent(
      disk: Disk, rules: Rules, word: Option<string>, bundle: Bundle, name: string, kind: string,
      experiment: seq<Field>): Result<Bundle>
  {
    var reference := Lookup(experiment, ["components", name]);
    var visit :- Visit(disk, rules, bundle, reference, kind);
    if name == "policy" then AddPolicy(disk, rules, word, visit.0, reference.value.s, visit.1) else Ok(visit.0)
  }

  function AddComponents(
      disk: Disk, rules: Rules, word: Option<string>, bundle: Bundle, wanted: seq<(string, string)>,
      experiment: seq<Field>): Result<Bundle>
    decreases |wanted|
  {
    if wanted == [] then Ok(bundle)
    else
      var added :- AddComponent(disk, rules, word, bundle, wanted[0].0, wanted[0].1, experiment);
      AddComponents(disk, rules, word, added, wanted[1..], experiment)
  }

  /** `build`: the selection and the overlays. */
  function Build(disk: Disk, rules: Rules, request: Request): Result<Bundle> {
    var start :- Visit(disk, rules, Bundle({}, map[]), Some(Str(request.experiment)), request.kind);
    var overlaid :- if request.kind == "deployment" && request.quantization.Some?
                    then Overlay(disk, start.0, request.experiment, "deployment", request.quantization.value)
                    else Ok(start.0);
    var added :- AddComponents(disk, rules, request.quantization, overlaid, Components(request.kind), start.1);
    var registered :- Visit(disk, rules, added, Lookup(start.1, REGISTRY), "resource_registry");
    if request.profile.None? then Ok(registered.0)
    else
      var profiled :- Visit(disk, rules, registered.0, Some(Str(request.profile.value)), "execution_profile");
      Ok(profiled.0)
  }

  /** `materialize`: the files written out, with the manifest last. */
  function Materialized(tree: Tree, bundle: Bundle, manifest: string): Tree
    requires bundle.files <= tree.Keys
  {
    (map p | p in bundle.files :: if p in bundle.overlays then bundle.overlays[p] else tree[p])[MANIFEST := manifest]
  }

  // ----- resolving -----

  /** `_root_reference`: relative references below the root only. */
  function Strict(layout: Layout, reference: Option<Value>): Option<string> {
    if reference.None? || !reference.value.Str? || reference.value.s == "" || Absolute(reference.value.s) then None
    else layout.below(reference.value.s)
  }

  /** One document, with the override set in the resolved document when one is asked for. */
  function ResolveOne(disk: Disk, rules: Rules, word: Option<string>, reference: Option<Value>, kind: string)
    : Result<seq<Field>>
  {
    if Strict(disk.layout, reference).None? then Err
    else
      var doc := Resolved(disk, rules, kind, Strict(disk.layout, reference).value);
      if word.None? || Where(kind) == [] then doc
      else Overridden(ChecksOf(rules, kind), doc, Where(kind), Str(word.value))
  }

  /** A component's own documents: the component, and for the policy its action interface. */
  function ResolveComponent(
      disk: Disk, rules: Rules, word: Option<string>, name: string, kind: string, experiment: seq<Field>)
    : Result<seq<seq<Field>>>
  {
    var doc :- ResolveOne(disk, rules, word, Lookup(experiment, ["components", name]), kind);
    if name != "policy" then Ok([doc])
    else
      var found :- ResolveOne(disk, rules, word, Lookup(doc, ACTION), "action_interface");
      Ok([doc, found])
  }

  function ResolveComponents(
      disk: Disk, rules: Rules, word: Option<string>, wanted: seq<(string, string)>, experiment: seq<Field>)
    : Result<seq<seq<Field>>>
  {
    if wanted == [] then Ok([])
    else
      var first :- ResolveComponent(disk, rules, word, wanted[0].0, wanted[0].1, experiment);
      var rest :- ResolveComponents(disk, rules, word, wanted[1..], experiment);
      Ok(first + rest)
  }

  /** The registry, and the execution profile when one is asked for. */
  function ResolveTail(
      disk: Disk, rules: Rules, word: Option<string>, profile: Option<string>, registry: Option<Value>)
    : Result<seq<seq<Field>>>
  {
    var found :- ResolveOne(disk, rules, word, registry, "resource_registry");
    if profile.None? then Ok([found])
    else
      var rendered :- ResolveOne(disk, rules, word, Some(Str(profile.value)), "execution_profile");
      Ok([found, rendered])
  }

  /** Every document a run needs: the experiment, its components, the action interface, the registry, the profile. */
  function Resolve(disk: Disk, rules: Rules, word: Option<string>, request: Request): Result<seq<seq<Field>>> {
    var experiment :- ResolveOne(disk, rules, word, Some(Str(request.experiment)), request.kind);
    var components :- ResolveComponents(disk, rules, word, Components(request.kind), experiment);
    var tail :- ResolveTail(disk, rules, word, request.profile, Lookup(experiment, REGISTRY));
    Ok([experiment] + components + tail)
  }

  // ----- one document from the bundle -----

  /** The overlay of a selected file reads as that file with the field of its kind set. */
  predicate Reread(disk: Disk, bundle: Bundle, word: Option<string>, path: string, kind: string)
    requires path in bundle.overlays
  {
    && word.Some? && Where(kind) != [] && path in disk.tree && disk.codec.read(disk.tree[path]).Ok?
    && var leaf := disk.codec.read(disk.tree[path]).value;
    && Get(leaf, KIND) == Some(Str(kind)) && Tidy(leaf)
    && SetDefaultDeep(leaf, Where(kind), Str(word.value)).Ok?
    && disk.codec.read(bundle.overlays[path]) == SetDefaultDeep(leaf, Where(kind), Str(word.value))
  }

  /** No selected file depends on where the root is, and the manifest overwrites none of them. */
  ghost predicate Portable(disk: Disk, bundle: Bundle) {
    && bundle.files <= disk.tree.Keys && MANIFEST !in bundle.files
    && forall p :: p in bundle.files ==> Movable(disk, p)
  }

  function Boxed(disk: Disk, bundle: Bundle, manifest: string, absolute: string -> Option<string>): Disk
    requires bundle.files <= disk.tree.Keys
  {
    Mounted(disk, Materialized(disk.tree, bundle, manifest), absolute)
  }

  lemma PlainHermetic(
      disk: Disk, rules: Rules, bundle: Bundle, manifest: string, absolute: string -> Option<string>, kind: string,
      path: string)
    requires Portable(disk, bundle) && Built(disk, rules, kind, path).Ok?
    requires Closure(disk, kind, path) <= bundle.files && Closure(disk, kind, path) !! bundle.overlays.Keys
    ensures Resolved(Boxed(disk, bundle, manifest, absolute), rules, kind, path) == Resolved(disk, rules, kind, path)
    ensures Resolved(disk, rules, kind, path).Ok? ==>
              Resolved(disk, rules, kind, path) == Built(disk, rules, kind, path)
  {
    var tree := Materialized(disk.tree, bundle, manifest);
    assert forall p :: p in Closure(disk, kind, path) ==> SameFile(disk.tree, tree, p);
    ResolvedIsLocal(disk, rules, tree, absolute, kind, path);
  }

  lemma OtherKey(fields: seq<Field>, kind: string, value: Value, key: string)
    requires Where(kind) != [] && SetDefaultDeep(fields, Where(kind), value).Ok?
    requires key == EXTENDS || key == KIND || key == TYPE || key == VERSION
    ensures Get(SetDefaultDeep(fields, Where(kind), value).value, key) == Get(fields, key)
  {
    assert Where(kind)[0] != key;
    SetDefaultFrame(fields, Where(kind), value, [key]);
    assert Lookup(fields, [key]) == Get(fields, key);
  }

  lemma SameHeader(layout: Layout, kind: string, leaf: seq<Field>, word: string, path: string)
    requires Where(kind) != [] && SetDefaultDeep(leaf, Where(kind), Str(word)).Ok?
    ensures var changed := SetDefaultDeep(leaf, Where(kind), Str(word)).value;
            && Admits(Resolver(kind), changed) == Admits(Resolver(kind), leaf)
            && LinkOf(layout, Resolver(kind), path, changed) == LinkOf(layout, Resolver(kind), path, leaf)
  {
    OtherKey(leaf, kind, Str(word), EXTENDS);
    OtherKey(leaf, kind, Str(word), KIND);
    OtherKey(leaf, kind, Str(word), VERSION);
  }

  lemma OverlaidEntry(
      disk: Disk, bundle: Bundle, word: Option<string>, manifest: string, absolute: string -> Option<string>,
      kind: string, path: string)
    requires Portable(disk, bundle) && path in bundle.files && path in bundle.overlays
    requires Reread(disk, bundle, word, path, kind)
    ensures Differs(
              ChartOf(disk, Builder(kind)), ChartOf(disk, Resolver(kind)),
              ChartOf(Boxed(disk, bundle, manifest, absolute), Resolver(kind)), path, Where(kind), Str(word.value))
  {
    var leaf := disk.codec.read(disk.tree[path]).value;
    var box := Boxed(disk, bundle, manifest, absolute);
    SameHeader(disk.layout, kind, leaf, word.value, path);
    assert box.tree[path] == bundle.overlays[path];
    assert LinkOf(box.layout, Resolver(kind), path, leaf) == LinkOf(disk.layout, Resolver(kind), path, leaf) by {
      assert Movable(disk, path);
    }
    SameHeader(box.layout, kind, leaf, word.value, path);
    assert EntryFor(box, Resolver(kind), path).Some? <==> EntryFor(disk, Resolver(kind), path).Some?;
    assert EntryFor(disk, Builder(kind), path).Some?;
  }

  lemma SameType(rules: Rules, kind: string, leaf: seq<Field>, word: string, parent: seq<Field>)
    requires Where(kind) != [] && SetDefaultDeep(leaf, Where(kind), Str(word)).Ok?
    ensures ChecksOf(rules, kind).fits(SetDefaultDeep(leaf, Where(kind), Str(word)).value, parent)
         == ChecksOf(rules, kind).fits(leaf, parent)
  {
    OtherKey(leaf, kind, Str(word), TYPE);
    var changed := SetDefaultDeep(leaf, Where(kind), Str(word)).value;
    assert GetOrNull(changed, TYPE) == GetOrNull(leaf, TYPE);
    assert ChecksOf(rules, kind).fits(leaf, parent) == rules.same(GetOrNull(leaf, TYPE), GetOrNull(parent, TYPE));
    assert ChecksOf(rules, kind).fits(changed, parent) == rules.same(GetOrNull(changed, TYPE), GetOrNull(parent, TYPE));
  }

  lemma OverlaidHermetic(
      disk: Disk, rules: Rules, bundle: Bundle, word: Option<string>, manifest: string,
      absolute: string -> Option<string>, kind: string, path: string)
    requires Portable(disk, bundle) && Built(disk, rules, kind, path).Ok?
    requires Closure(disk, kind, path) <= bundle.files && Closure(disk, kind, path) - {path} !! bundle.overlays.Keys
    requires path in bundle.overlays && Reread(disk, bundle, word, path, kind)
    requires SetDefaultDeep(Built(disk, rules, kind, path).value, Where(kind), Str(word.value)).Ok?
    ensures Resolved(Boxed(disk, bundle, manifest, absolute), rules, kind, path)
         == Overridden(ChecksOf(rules, kind), Resolved(disk, rules, kind, path), Where(kind), Str(word.value))
  {
    var box := Boxed(disk, bundle, manifest, absolute);
    var guide, one, other := ChartOf(disk, Builder(kind)), ChartOf(disk, Resolver(kind)), ChartOf(box, Resolver(kind));
    assert path in Closure(disk, kind, path) && EntryFor(disk, Builder(kind), path) == Some(guide[path]);
    OverlaidEntry(disk, bundle, word, manifest, absolute, kind, path);
    forall p | p in Closure(disk, kind, path) - {path}
      ensures Alike(guide, one, other, p)
    {
      EntryMoves(disk, box.tree, absolute, kind, p);
    }
    forall parent | path in other
      ensures ChecksOf(rules, kind).fits(other[path].raw, parent) == ChecksOf(rules, kind).fits(guide[path].raw, parent)
    {
      SameType(rules, kind, guide[path].raw, word.value, parent);
    }
    OverlayResolves(guide, one, other, ChecksOf(rules, kind), path, Where(kind), Str(word.value));
  }
}
