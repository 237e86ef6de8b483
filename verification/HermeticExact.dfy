/**
 * Exactly which bundles are hermetic: when, and only when, a run that resolves on the host resolves the same way from
 * the box, wherever that is mounted.
 */
module HermeticExact {
  import opened Results
  import opened Values
  import opened Scalars
  import opened Documents
  import opened Reloading
  import opened Composition
  import opened Chains
  import opened Loaded
  import opened ConfigTree
  import opened Bundles
  import opened YamlFiles
  import opened Hermetic
  import opened Needs

  // ----- the overlays of a bundle -----

  function KindAt(disk: Disk, reference: string): string {
    match Locate(disk.layout, reference)
    case Some(path) => KindIn(disk, path)
    case None => ""
  }

  /** The overlay filed under a reference is the printed leaf with the word set. */
  predicate Overlaid(disk: Disk, bundle: Bundle, word: Option<string>, reference: string, kind: string)
    requires reference in bundle.overlays
  {
    && word.Some? && Where(kind) != [] && KindAt(disk, reference) == kind
    && Requantized(disk, reference, kind, word.value).Ok?
    && disk.codec.write(Requantized(disk, reference, kind, word.value).value) == Ok(bundle.overlays[reference])
  }

  ghost predicate OverlaysKnown(disk: Disk, bundle: Bundle, word: Option<string>) {
    && (forall r :: r in bundle.overlays ==> Overlaid(disk, bundle, word, r, KindAt(disk, r)))
    && (forall r, s :: r in bundle.overlays && s in bundle.overlays && KindAt(disk, r) == KindAt(disk, s) ==> r == s)
  }

  predicate IsOverridden(word: Option<string>, kind: string) {
    word.Some? && Where(kind) != []
  }

  /** What an overridden document is asked for by has an overlay. */
  ghost predicate OverlaysGiven(bundle: Bundle, word: Option<string>, needs: seq<Need>) {
    forall need :: need in needs && IsOverridden(word, need.kind) ==>
      need.reference.Some? && need.reference.value.Str? && need.reference.value.s in bundle.overlays
  }

  lemma {:induction false} PartsOverridden(
      disk: Disk, rules: Rules, word: Option<string>, wanted: seq<(string, string)>, experiment: seq<Field>, need: Need)
    requires Ordinary(wanted) && ResolveComponents(disk, rules, word, wanted, experiment).Ok?
    requires need in PartsNeeds(disk, rules, word, wanted, experiment) && Where(need.kind) != []
    ensures need == Need(Lookup(experiment, ["components", "policy"]), "policy")
    decreases |wanted|
  {
    if need in PartsNeeds(disk, rules, word, wanted[1..], experiment) {
      PartsOverridden(disk, rules, word, wanted[1..], experiment, need);
    } else {
      assert need in ComponentNeeds(disk, rules, word, wanted[0].0, wanted[0].1, experiment);
    }
  }

  /** One more overlay, of a kind that had none. */
  lemma OverlayAdds(disk: Disk, bundle: Bundle, word: string, reference: string, kind: string)
    requires OverlaysKnown(disk, bundle, Some(word)) && Where(kind) != [] && KindAt(disk, reference) == kind
    requires forall r :: r in bundle.overlays ==> KindAt(disk, r) != kind
    requires Overlay(disk, bundle, reference, kind, word).Ok?
    ensures var after := Overlay(disk, bundle, reference, kind, word).value;
            && OverlaysKnown(disk, after, Some(word))
            && after.overlays.Keys == bundle.overlays.Keys + {reference}
  {
    var after := Overlay(disk, bundle, reference, kind, word).value;
    forall r | r in after.overlays
      ensures Overlaid(disk, after, Some(word), r, KindAt(disk, r))
    {
      assert r != reference ==> Overlaid(disk, bundle, Some(word), r, KindAt(disk, r));
    }
  }

  lemma PolicyKind(disk: Disk, rules: Rules, experiment: seq<Field>)
    requires PolicyBuilt(disk, rules, experiment)
    ensures KindAt(disk, PolicyReference(experiment).value) == "policy"
  {
    KindOfBuilt(disk, rules, "policy", Locate(disk.layout, PolicyReference(experiment).value).value);
  }

  lemma BegunOverlays(disk: Disk, rules: Rules, request: Request)
    requires Begun(disk, rules, request).Ok? && request.quantization.Some?
    ensures var begun := Begun(disk, rules, request).value;
            && OverlaysKnown(disk, begun, request.quantization)
            && begun.overlays.Keys == (if request.kind == "deployment" then {request.experiment} else {})
            && (forall r :: r in begun.overlays ==> KindAt(disk, r) != "policy")
  {
    var first := Started(disk, rules, request).value.0;
    VisitAdds(disk, rules, Bundle({}, map[]), Some(Str(request.experiment)), request.kind);
    ExperimentKind(disk, rules, request);
    if request.kind == "deployment" {
      OverlayAdds(disk, first, request.quantization.value, request.experiment, "deployment");
    }
  }

  /** The policy's overlay, and the deployment's before it. */
  lemma BuildOverlays(disk: Disk, rules: Rules, request: Request)
    requires Ask(request) && Build(disk, rules, request).Ok?
    ensures var bundle := Build(disk, rules, request).value;
            && OverlaysKnown(disk, bundle, request.quantization)
            && (request.quantization.Some? ==>
                  && Started(disk, rules, request).Ok?
                  && PolicyReference(Started(disk, rules, request).value.1).Some?
                  && bundle.overlays.Keys == {PolicyReference(Started(disk, rules, request).value.1).value}
                       + (if request.kind == "deployment" then {request.experiment} else {}))
  {
    BuildStages(disk, rules, request);
    if request.quantization.Some? {
      var begun, doc := Begun(disk, rules, request).value, Started(disk, rules, request).value.1;
      ComponentsOrdinary(request.kind);
      PolicyVisited(disk, rules, request.quantization, begun, Components(request.kind), doc);
      PolicyKind(disk, rules, doc);
      BegunOverlays(disk, rules, request);
      var overlaid := PolicyOverlay(disk, request.quantization, begun, doc).value;
      OverlayAdds(disk, begun, request.quantization.value, PolicyReference(doc).value, "policy");
      KnownByOverlays(disk, overlaid, Build(disk, rules, request).value, request.quantization);
    } else {
      VisitAdds(disk, rules, Bundle({}, map[]), Some(Str(request.experiment)), request.kind);
      assert Build(disk, rules, request).value.overlays == map[];
    }
  }

  lemma KnownByOverlays(disk: Disk, a: Bundle, b: Bundle, word: Option<string>)
    requires OverlaysKnown(disk, a, word) && a.overlays == b.overlays
    ensures OverlaysKnown(disk, b, word)
  {
    forall r | r in b.overlays
      ensures Overlaid(disk, b, word, r, KindAt(disk, r))
    {
      assert Overlaid(disk, a, word, r, KindAt(disk, r));
    }
  }

  lemma NeedCases(disk: Disk, rules: Rules, word: Option<string>, request: Request, need: Need)
    requires Resolve(disk, rules, word, request).Ok? && need in AllNeeds(disk, rules, word, request)
    requires Where(need.kind) != []
    ensures need == Need(Some(Str(request.experiment)), request.kind)
         || need in PartsNeeds(
                      disk, rules, word, Components(request.kind), Experiment(disk, rules, word, request).value)
  {
    var tail := TailNeeds(request.profile, Lookup(Experiment(disk, rules, word, request).value, REGISTRY));
    assert forall other :: other in tail ==> Where(other.kind) == [];
  }

  lemma NeedsOverlaid(disk: Disk, rules: Rules, request: Request)
    requires Ask(request) && Build(disk, rules, request).Ok?
    requires Resolve(disk, rules, request.quantization, request).Ok?
    ensures OverlaysGiven(
              Build(disk, rules, request).value, request.quantization,
              AllNeeds(disk, rules, request.quantization, request))
  {
    var word := request.quantization;
    BuildOverlays(disk, rules, request);
    forall need | need in AllNeeds(disk, rules, word, request) && IsOverridden(word, need.kind)
      ensures need.reference.Some? && need.reference.value.Str?
      ensures need.reference.value.s in Build(disk, rules, request).value.overlays
    {
      NeedCases(disk, rules, word, request, need);
      PolicyNeed(disk, rules, word, request, need);
    }
  }

  /** An overridden document other than the deployment is the policy the builder found. */
  lemma PolicyNeed(disk: Disk, rules: Rules, word: Option<string>, request: Request, need: Need)
    requires Ask(request) && Started(disk, rules, request).Ok? && Resolve(disk, rules, word, request).Ok?
    requires Where(need.kind) != []
    ensures need in PartsNeeds(
                      disk, rules, word, Components(request.kind), Experiment(disk, rules, word, request).value) ==>
              need.reference == Lookup(Started(disk, rules, request).value.1, ["components", "policy"])
  {
    var found := Experiment(disk, rules, word, request).value;
    ExperimentAgrees(disk, rules, word, request);
    ComponentsOrdinary(request.kind);
    if need in PartsNeeds(disk, rules, word, Components(request.kind), found) {
      PartsOverridden(disk, rules, word, Components(request.kind), found, need);
      assert Lookup(found, ["components", "policy"])
          == Lookup(Started(disk, rules, request).value.1, ["components", "policy"]);
    }
  }

  // ----- the files of the box -----

  /** Resolving a path gives a path that resolves to itself. */
  ghost predicate Normalizes(layout: Layout) {
    && (forall r :: Locate(layout, r).Some? ==> Locate(layout, Locate(layout, r).value) == Locate(layout, r))
    && (forall from, r ::
          layout.beside(from, r).Some? ==> Locate(layout, layout.beside(from, r).value) == layout.beside(from, r))
  }

  lemma {:induction false} ChainLocated(disk: Disk, kind: string, path: string, stack: set<string>)
    requires Normalizes(disk.layout) && Locate(disk.layout, path) == Some(path)
    ensures forall p :: p in Chain(ChartOf(disk, Builder(kind)), path, stack) ==> Locate(disk.layout, p) == Some(p)
    decreases ChartOf(disk, Builder(kind)).Keys - stack
  {
    var chart := ChartOf(disk, Builder(kind));
    if path !in stack && path in chart && chart[path].link.Parent? {
      assert EntryFor(disk, Builder(kind), path) == Some(chart[path]);
      var reference := Get(chart[path].raw, EXTENDS).value.s;
      if Absolute(reference) {
        assert Locate(disk.layout, reference) == Some(chart[path].link.path);
      } else {
        assert disk.layout.beside(path, reference) == Some(chart[path].link.path);
      }
      ChainLocated(disk, kind, chart[path].link.path, stack + {path});
    }
  }

  /** What is known of one document of a bundle. */
  ghost predicate Known(disk: Disk, rules: Rules, word: Option<string>, bundle: Bundle, need: Need) {
    && Normalizes(disk.layout) && bundle.files <= disk.tree.Keys && OverlaysKnown(disk, bundle, word)
    && Visited(disk, rules, word, bundle.files, need)
    && (IsOverridden(word, need.kind) ==> need.reference.value.s in bundle.overlays)
  }

  /** On a document's chain only its own file can have an overlay. */
  lemma OnlyLeafOverlaid(
      disk: Disk, rules: Rules, word: Option<string>, bundle: Bundle, need: Need, p: string)
    requires Known(disk, rules, word, bundle, need)
    requires p in Closure(disk, need.kind, PathOf(disk, need)) && p in bundle.overlays
    ensures IsOverridden(word, need.kind) && need.reference.value.s == p == PathOf(disk, need)
  {
    var path := PathOf(disk, need);
    ChainLocated(disk, need.kind, path, {});
    KindInClosure(disk, need.kind, path, p);
    assert KindAt(disk, p) == need.kind;
    assert Overlaid(disk, bundle, word, p, KindAt(disk, p));
    KindOfNeed(disk, rules, word, bundle, need);
  }

  lemma KindOfNeed(disk: Disk, rules: Rules, word: Option<string>, bundle: Bundle, need: Need)
    requires Known(disk, rules, word, bundle, need)
    ensures KindAt(disk, need.reference.value.s) == need.kind
  {
    KindOfBuilt(disk, rules, need.kind, PathOf(disk, need));
  }

  /** Nothing absolute means anything where the box is. */
  const NOWHERE: string -> Option<string> := reference => None

  /** A file that was copied is there as it was, unless it is not movable or the manifest has taken its place. */
  lemma CopiedEntry(
      disk: Disk, bundle: Bundle, manifest: string, absolute: string -> Option<string>, kind: string, p: string)
    requires bundle.files <= disk.tree.Keys && p in bundle.files && p !in bundle.overlays
    requires disk.codec.read(manifest).Err?
    ensures var guide, other := ChartOf(disk, Builder(kind)),
                                ChartOf(Boxed(disk, bundle, manifest, absolute), Resolver(kind));
            p in other ==> && p != MANIFEST && p in guide
                           && (Movable(disk, p) ==> other[p] == guide[p])
                           && (!Movable(disk, p) && absolute == NOWHERE ==> other[p].link == Broken)
  {
    var box := Boxed(disk, bundle, manifest, absolute);
    var guide, other := ChartOf(disk, Builder(kind)), ChartOf(box, Resolver(kind));
    if p in other {
      assert EntryFor(box, Resolver(kind), p) == Some(other[p]);
      assert box.tree[p] == if p == MANIFEST then manifest else disk.tree[p];
      assert EntryFor(disk, Builder(kind), p).Some?;
    }
  }

  /** The files of a chain can all be moved, and none of them is where the manifest goes. */
  ghost predicate Carried(disk: Disk, kind: string, path: string) {
    forall p :: p in Closure(disk, kind, path) ==> Movable(disk, p) && p != MANIFEST
  }

  /** A document without an overlay that resolves from the box mounted nowhere has a chain that can be carried. */
  lemma CopiedCarried(
      disk: Disk, rules: Rules, bundle: Bundle, manifest: string, kind: string, path: string)
    requires bundle.files <= disk.tree.Keys && disk.codec.read(manifest).Err?
    requires Built(disk, rules, kind, path).Ok? && Closure(disk, kind, path) <= bundle.files
    requires Closure(disk, kind, path) !! bundle.overlays.Keys
    requires Resolved(Boxed(disk, bundle, manifest, NOWHERE), rules, kind, path).Ok?
    ensures Carried(disk, kind, path)
    ensures Resolved(Boxed(disk, bundle, manifest, NOWHERE), rules, kind, path) == Built(disk, rules, kind, path)
  {
    var guide, other := ChartOf(disk, Builder(kind)), ChartOf(Boxed(disk, bundle, manifest, NOWHERE), Resolver(kind));
    forall p | p in Closure(disk, kind, path)
      ensures AgreesOrBroken(guide, other, p)
    {
      CopiedEntry(disk, bundle, manifest, NOWHERE, kind, p);
    }
    ComposeConfirms(guide, other, ChecksOf(rules, kind), path, {});
    forall p | p in Closure(disk, kind, path)
      ensures Movable(disk, p) && p != MANIFEST
    {
      ChainUnbroken(guide, ChecksOf(rules, kind), path, {}, p);
      FileCarried(disk, bundle, manifest, kind, p);
    }
  }

  lemma FileCarried(disk: Disk, bundle: Bundle, manifest: string, kind: string, p: string)
    requires bundle.files <= disk.tree.Keys && p in bundle.files && p !in bundle.overlays
    requires disk.codec.read(manifest).Err?
    requires var guide := ChartOf(disk, Builder(kind));
             && Agrees(guide, ChartOf(Boxed(disk, bundle, manifest, NOWHERE), Resolver(kind)), p)
             && guide[p].link != Broken
    ensures Movable(disk, p) && p != MANIFEST
  {
    CopiedEntry(disk, bundle, manifest, NOWHERE, kind, p);
  }

  lemma {:induction false} ChainUnbroken(chart: Chart, checks: Checks, path: string, stack: set<string>, p: string)
    requires Compose(chart, checks, path, stack).Ok? && p in Chain(chart, path, stack)
    ensures p in chart && chart[p].link != Broken
    decreases chart.Keys - stack
  {
    if p != path {
      ChainUnbroken(chart, checks, chart[path].link.path, stack + {path}, p);
    }
  }

  // ----- the overlaid leaf -----

  /** The leaf as it will be read back gives, over its resolved parent, what the leaf itself gives. */
  predicate Lasts(checks: Checks, floats: FloatReader, parent: Option<seq<Field>>, leaf: seq<Field>) {
    && Lexable(Map(leaf))
    && match parent
       case None => Finite(Map(leaf))
       case Some(older) => FiniteOver(older, leaf) && checks.fits(Worded(leaf, floats), older)
  }

  lemma LastsExact(
      checks: Checks, floats: FloatReader, parent: Option<seq<Field>>, leaf: seq<Field>, where: seq<string>,
      word: string)
    requires where != [] && EXTENDS !in where && Tidy(leaf) && (parent.Some? ==> Tidy(parent.value))
    requires SetDefaultDeep(leaf, where, Str(word)).Ok?
    requires var changed := SetDefaultDeep(leaf, where, Str(word)).value;
             UniqueKeys(changed) && FieldsGenuine(changed, floats) && Lexable(Map(changed))
    requires Layered(checks, parent, leaf).Ok?
    requires SetDefaultDeep(Layered(checks, parent, leaf).value, where, Str(word)).Ok?
    requires checks.accepts(SetDefaultDeep(Layered(checks, parent, leaf).value, where, Str(word)).value)
    ensures var changed := SetDefaultDeep(leaf, where, Str(word)).value;
            (Layered(checks, parent, Worded(changed, floats))
             == SetDefaultDeep(Layered(checks, parent, leaf).value, where, Str(word))
             <==> Lasts(checks, floats, parent, changed))
  {
    var changed := SetDefaultDeep(leaf, where, Str(word)).value;
    match parent
    case None => RereadFieldsSame(changed, floats);
    case Some(older) =>
      OverlayCommutes(older, leaf, where, Str(word));
      MergeWorded(older, changed, floats);
  }

  /** A document with its floats worded carries the same header, and links to the same parent. */
  lemma SameHeaderWorded(
      layout: Layout, kind: string, leaf: seq<Field>, word: string, floats: FloatReader, path: string)
    requires Where(kind) != [] && UniqueKeys(leaf) && SetDefaultDeep(leaf, Where(kind), Str(word)).Ok?
    requires UniqueKeys(SetDefaultDeep(leaf, Where(kind), Str(word)).value)
    requires LinkOf(layout, Resolver(kind), path, leaf) != Broken && Admits(Resolver(kind), leaf)
    ensures var worded := Worded(SetDefaultDeep(leaf, Where(kind), Str(word)).value, floats);
            Admits(Resolver(kind), worded) && Get(worded, EXTENDS) == Get(leaf, EXTENDS)
  {
    var changed := SetDefaultDeep(leaf, Where(kind), Str(word)).value;
    HeaderKey(leaf, kind, word, floats, EXTENDS);
    HeaderKey(leaf, kind, word, floats, KIND);
    HeaderKey(leaf, kind, word, floats, VERSION);
  }

  lemma HeaderKey(leaf: seq<Field>, kind: string, word: string, floats: FloatReader, key: string)
    requires Where(kind) != [] && SetDefaultDeep(leaf, Where(kind), Str(word)).Ok?
    requires UniqueKeys(SetDefaultDeep(leaf, Where(kind), Str(word)).value)
    requires key == EXTENDS || key == KIND || key == VERSION
    requires Get(leaf, key).Some? ==> Get(leaf, key).value.Str? || Get(leaf, key).value.Null?
    ensures Get(Worded(SetDefaultDeep(leaf, Where(kind), Str(word)).value, floats), key) == Get(leaf, key)
  {
    OtherKey(leaf, kind, Str(word), key);
    WordedGet(SetDefaultDeep(leaf, Where(kind), Str(word)).value, floats, key);
    if Get(leaf, key).Some? {
      WordedSimple(Get(leaf, key).value, floats);
    }
  }

  /** What the box holds in place of an overlaid file. */
  ghost predicate LeafThere(
      disk: Disk, box: Disk, kind: string, path: string, leaf: seq<Field>, floats: FloatReader, nowhere: bool)
  {
    var guide, other := ChartOf(disk, Builder(kind)), ChartOf(box, Resolver(kind));
    && (path in other <==> path != MANIFEST && Lexable(Map(leaf)))
    && (path in other ==>
          && path in guide && other[path].raw == Worded(leaf, floats)
          && (Movable(disk, path) ==> other[path].link == guide[path].link)
          && (!Movable(disk, path) && nowhere ==> other[path].link == Broken))
  }

  /** What is known of an overlaid leaf: it is filed under its path, and the host resolves it. */
  ghost predicate LeafKnown(
      disk: Disk, rules: Rules, floats: FloatReader, bundle: Bundle, word: string, kind: string, path: string)
  {
    && ReprReader(floats) && disk.codec == Yaml(floats) && bundle.files <= disk.tree.Keys
    && Locate(disk.layout, path) == Some(path) && path in bundle.overlays
    && Overlaid(disk, bundle, Some(word), path, kind)
    && Built(disk, rules, kind, path).Ok? && Resolved(disk, rules, kind, path).Ok?
    && Closure(disk, kind, path) <= bundle.files && Closure(disk, kind, path) * bundle.overlays.Keys <= {path}
  }

  lemma LeafReads(
      disk: Disk, rules: Rules, floats: FloatReader, bundle: Bundle, word: string, kind: string, path: string)
    requires LeafKnown(disk, rules, floats, bundle, word, kind, path)
    ensures path in disk.tree && FieldsIn(disk.tree[path], floats).Ok?
    ensures var before := FieldsIn(disk.tree[path], floats).value;
            && Tidy(before) && SetDefaultDeep(before, Where(kind), Str(word)).Ok?
            && var leaf := SetDefaultDeep(before, Where(kind), Str(word)).value;
            && Requantized(disk, path, kind, word) == Ok(leaf) && UniqueKeys(leaf) && FieldsGenuine(leaf, floats)
            && FieldsIn(bundle.overlays[path], floats)
               == if Lexable(Map(leaf)) then Ok(Worded(leaf, floats)) else Err
  {
    ChangedReads(floats, disk.tree[path], Where(kind), word);
    LoadedGenuine(disk.tree[path], floats);
  }

  lemma LeafEntry(
      disk: Disk, rules: Rules, floats: FloatReader, bundle: Bundle, word: string, manifest: string,
      absolute: string -> Option<string>, kind: string, path: string)
    requires LeafKnown(disk, rules, floats, bundle, word, kind, path) && disk.codec.read(manifest).Err?
    ensures LeafThere(
              disk, Boxed(disk, bundle, manifest, absolute), kind, path,
              Requantized(disk, path, kind, word).value, floats, absolute == NOWHERE)
  {
    var box := Boxed(disk, bundle, manifest, absolute);
    assert path in Closure(disk, kind, path);
    LeafReads(disk, rules, floats, bundle, word, kind, path);
    LeafHeader(disk, rules, floats, bundle, word, kind, path);
    var leaf := Requantized(disk, path, kind, word).value;
    if path == MANIFEST {
      assert EntryFor(box, Resolver(kind), path).None?;
    } else {
      assert box.tree[path] == bundle.overlays[path];
      EntryThere(box, kind, path, floats, leaf);
      LinkThere(disk, absolute, kind, path, Worded(leaf, floats));
    }
  }

  lemma EntryThere(box: Disk, kind: string, path: string, floats: FloatReader, leaf: seq<Field>)
    requires box.codec == Yaml(floats) && path in box.tree && Admits(Resolver(kind), Worded(leaf, floats))
    requires FieldsIn(box.tree[path], floats) == if Lexable(Map(leaf)) then Ok(Worded(leaf, floats)) else Err
    ensures EntryFor(box, Resolver(kind), path)
         == if Lexable(Map(leaf))
            then Some(Chains.Entry(
                        Worded(leaf, floats), LinkOf(box.layout, Resolver(kind), path, Worded(leaf, floats))))
            else None
  {
  }

  /** A file links to its parent from where it is mounted, or nowhere if it extends an absolute path. */
  lemma LinkThere(
      disk: Disk, absolute: string -> Option<string>, kind: string, path: string, raw: seq<Field>)
    requires path in disk.tree && disk.codec.read(disk.tree[path]).Ok?
    requires Get(raw, EXTENDS) == Get(disk.codec.read(disk.tree[path]).value, EXTENDS)
    ensures var before := disk.codec.read(disk.tree[path]).value;
            var link := LinkOf(disk.layout.(absolute := absolute), Resolver(kind), path, raw);
            && (Movable(disk, path) ==> link == LinkOf(disk.layout, Builder(kind), path, before))
            && (!Movable(disk, path) && absolute == NOWHERE ==> link == Broken)
  {
  }

  lemma LeafHeader(
      disk: Disk, rules: Rules, floats: FloatReader, bundle: Bundle, word: string, kind: string, path: string)
    requires LeafKnown(disk, rules, floats, bundle, word, kind, path)
    ensures var guide, leaf := ChartOf(disk, Builder(kind)), Requantized(disk, path, kind, word).value;
            && path in disk.tree && FieldsIn(disk.tree[path], floats).Ok? && path in guide
            && guide[path].link == LinkOf(disk.layout, Builder(kind), path, FieldsIn(disk.tree[path], floats).value)
            && Admits(Resolver(kind), Worded(leaf, floats))
            && Get(Worded(leaf, floats), EXTENDS) == Get(FieldsIn(disk.tree[path], floats).value, EXTENDS)
  {
    var guide, one := ChartOf(disk, Builder(kind)), ChartOf(disk, Resolver(kind));
    LeafReads(disk, rules, floats, bundle, word, kind, path);
    assert EntryFor(disk, Resolver(kind), path) == Some(one[path]);
    assert EntryFor(disk, Builder(kind), path) == Some(guide[path]);
    SameHeaderWorded(disk.layout, kind, FieldsIn(disk.tree[path], floats).value, word, floats, path);
  }

  /** The resolved parent of what the builder found. */
  function Base(disk: Disk, rules: Rules, kind: string, path: string): Option<seq<Field>>
    requires Built(disk, rules, kind, path).Ok?
  {
    ParentOf(ChartOf(disk, Builder(kind)), ChecksOf(rules, kind), path)
  }

  /** On the host the resolver goes through the builder's files. */
  lemma HostChain(disk: Disk, rules: Rules, kind: string, path: string)
    requires Built(disk, rules, kind, path).Ok? && Resolved(disk, rules, kind, path).Ok?
    ensures forall p :: p in Closure(disk, kind, path) ==>
              Agrees(ChartOf(disk, Builder(kind)), ChartOf(disk, Resolver(kind)), p)
  {
    var guide, one := ChartOf(disk, Builder(kind)), ChartOf(disk, Resolver(kind));
    forall p | p in Closure(disk, kind, path)
      ensures AgreesOrBroken(guide, one, p)
    {
      if p in one {
        assert EntryFor(disk, Resolver(kind), p) == Some(one[p]) == EntryFor(disk, Builder(kind), p);
      }
    }
    ComposeConfirms(guide, one, ChecksOf(rules, kind), path, {});
  }

  lemma CopiedThere(
      disk: Disk, bundle: Bundle, manifest: string, absolute: string -> Option<string>, kind: string, p: string)
    requires bundle.files <= disk.tree.Keys && p in bundle.files && p !in bundle.overlays
    requires Agrees(ChartOf(disk, Builder(kind)), ChartOf(disk, Resolver(kind)), p)
    requires Movable(disk, p) && p != MANIFEST
    ensures Agrees(
              ChartOf(disk, Builder(kind)), ChartOf(Boxed(disk, bundle, manifest, absolute), Resolver(kind)), p)
  {
    var box, one := Boxed(disk, bundle, manifest, absolute), ChartOf(disk, Resolver(kind));
    assert box.tree[p] == disk.tree[p];
    assert EntryFor(disk, Resolver(kind), p) == Some(one[p]);
    assert EntryFor(box, Resolver(kind), p) == EntryFor(disk, Resolver(kind), p);
  }

  /** From a chain that can be carried, the box resolves the leaf as it is read back, over the parent found before. */
  lemma LeafOver(
      disk: Disk, rules: Rules, floats: FloatReader, bundle: Bundle, word: string, manifest: string,
      absolute: string -> Option<string>, kind: string, path: string)
    requires LeafKnown(disk, rules, floats, bundle, word, kind, path) && disk.codec.read(manifest).Err?
    requires Carried(disk, kind, path) && Lexable(Map(Requantized(disk, path, kind, word).value))
    ensures Resolved(Boxed(disk, bundle, manifest, absolute), rules, kind, path)
         == Layered(ChecksOf(rules, kind), Base(disk, rules, kind, path),
                    Worded(Requantized(disk, path, kind, word).value, floats))
  {
    var box := Boxed(disk, bundle, manifest, absolute);
    assert path in Closure(disk, kind, path);
    LeafEntry(disk, rules, floats, bundle, word, manifest, absolute, kind, path);
    HostChain(disk, rules, kind, path);
    forall p | p in Closure(disk, kind, path) - {path}
      ensures Agrees(ChartOf(disk, Builder(kind)), ChartOf(box, Resolver(kind)), p)
    {
      CopiedThere(disk, bundle, manifest, absolute, kind, p);
    }
    ComposeLayers(
      ChartOf(disk, Builder(kind)), ChartOf(box, Resolver(kind)), ChecksOf(rules, kind), path);
  }

  lemma LeafConfirms(
      disk: Disk, rules: Rules, floats: FloatReader, bundle: Bundle, word: string, manifest: string, kind: string,
      path: string)
    requires LeafKnown(disk, rules, floats, bundle, word, kind, path) && disk.codec.read(manifest).Err?
    requires Resolved(Boxed(disk, bundle, manifest, NOWHERE), rules, kind, path).Ok?
    ensures var guide, other := ChartOf(disk, Builder(kind)),
                                ChartOf(Boxed(disk, bundle, manifest, NOWHERE), Resolver(kind));
            && path in guide && path in other && other[path].link == guide[path].link
            && forall p :: p in Closure(disk, kind, path) - {path} ==> Agrees(guide, other, p)
  {
    var guide, other := ChartOf(disk, Builder(kind)), ChartOf(Boxed(disk, bundle, manifest, NOWHERE), Resolver(kind));
    LeafEntry(disk, rules, floats, bundle, word, manifest, NOWHERE, kind, path);
    forall p | p in Closure(disk, kind, path) - {path}
      ensures AgreesOrBroken(guide, other, p)
    {
      CopiedEntry(disk, bundle, manifest, NOWHERE, kind, p);
    }
    LayerConfirms(guide, other, ChecksOf(rules, kind), path);
  }

  /** If the leaf resolves from the box mounted nowhere, its chain can be carried and it reads back. */
  lemma LeafCarried(
      disk: Disk, rules: Rules, floats: FloatReader, bundle: Bundle, word: string, manifest: string, kind: string,
      path: string)
    requires LeafKnown(disk, rules, floats, bundle, word, kind, path) && disk.codec.read(manifest).Err?
    requires Resolved(Boxed(disk, bundle, manifest, NOWHERE), rules, kind, path).Ok?
    ensures Carried(disk, kind, path) && Lexable(Map(Requantized(disk, path, kind, word).value))
  {
    LeafConfirms(disk, rules, floats, bundle, word, manifest, kind, path);
    LeafItselfCarried(disk, rules, floats, bundle, word, manifest, kind, path);
    forall p | p in Closure(disk, kind, path)
      ensures Movable(disk, p) && p != MANIFEST
    {
      ChainUnbroken(ChartOf(disk, Builder(kind)), ChecksOf(rules, kind), path, {}, p);
      if p != path {
        FileCarried(disk, bundle, manifest, kind, p);
      }
    }
  }

  lemma LeafItselfCarried(
      disk: Disk, rules: Rules, floats: FloatReader, bundle: Bundle, word: string, manifest: string, kind: string,
      path: string)
    requires LeafKnown(disk, rules, floats, bundle, word, kind, path) && disk.codec.read(manifest).Err?
    requires var guide, other := ChartOf(disk, Builder(kind)),
                                 ChartOf(Boxed(disk, bundle, manifest, NOWHERE), Resolver(kind));
             path in guide && path in other && other[path].link == guide[path].link
    ensures Movable(disk, path) && path != MANIFEST && Lexable(Map(Requantized(disk, path, kind, word).value))
  {
    LeafEntry(disk, rules, floats, bundle, word, manifest, NOWHERE, kind, path);
    assert path in Closure(disk, kind, path);
    ChainUnbroken(ChartOf(disk, Builder(kind)), ChecksOf(rules, kind), path, {}, path);
  }

  /** What the host makes of an overridden document. */
  lemma HostOverridden(disk: Disk, rules: Rules, word: string, need: Need)
    requires Found(disk, rules, Some(word), need).Ok? && Where(need.kind) != []
    requires Built(disk, rules, need.kind, PathOf(disk, need)).Ok?
    ensures Resolved(disk, rules, need.kind, PathOf(disk, need)) == Built(disk, rules, need.kind, PathOf(disk, need))
    ensures var doc := Built(disk, rules, need.kind, PathOf(disk, need)).value;
            && SetDefaultDeep(doc, Where(need.kind), Str(word)) == Found(disk, rules, Some(word), need)
            && rules.valid(SetDefaultDeep(doc, Where(need.kind), Str(word)).value, need.kind)
  {
    HostAgrees(disk, rules, need.kind, PathOf(disk, need));
  }

  /** The overlaid leaf as read back gives what the host finds exactly when it lasts. */
  lemma LeafExact(
      disk: Disk, rules: Rules, floats: FloatReader, bundle: Bundle, word: string, need: Need, path: string)
    requires path == PathOf(disk, need) && LeafKnown(disk, rules, floats, bundle, word, need.kind, path)
    requires Found(disk, rules, Some(word), need).Ok?
    requires Lexable(Map(Requantized(disk, path, need.kind, word).value))
    ensures var leaf, checks := Requantized(disk, path, need.kind, word).value, ChecksOf(rules, need.kind);
            (Layered(checks, Base(disk, rules, need.kind, path), Worded(leaf, floats))
             == Found(disk, rules, Some(word), need)
             <==> Lasts(checks, floats, Base(disk, rules, need.kind, path), leaf))
  {
    LeafReads(disk, rules, floats, bundle, word, need.kind, path);
    LeafExactly(disk, rules, floats, word, need, path, FieldsIn(disk.tree[path], floats).value);
  }

  lemma LeafExactly(
      disk: Disk, rules: Rules, floats: FloatReader, word: string, need: Need, path: string, before: seq<Field>)
    requires ReprReader(floats) && disk.codec == Yaml(floats) && path == PathOf(disk, need) && Where(need.kind) != []
    requires Found(disk, rules, Some(word), need).Ok? && Built(disk, rules, need.kind, path).Ok?
    requires path in disk.tree && FieldsIn(disk.tree[path], floats) == Ok(before) && Tidy(before)
    requires SetDefaultDeep(before, Where(need.kind), Str(word)).Ok?
    requires var leaf := SetDefaultDeep(before, Where(need.kind), Str(word)).value;
             UniqueKeys(leaf) && FieldsGenuine(leaf, floats) && Lexable(Map(leaf))
    ensures var leaf := SetDefaultDeep(before, Where(need.kind), Str(word)).value;
            var checks, base := ChecksOf(rules, need.kind), Base(disk, rules, need.kind, path);
            (Layered(checks, base, Worded(leaf, floats)) == Found(disk, rules, Some(word), need)
             <==> Lasts(checks, floats, base, leaf))
  {
    HostOverridden(disk, rules, word, need);
    LeafLayers(disk, rules, floats, need.kind, path);
    LastsExact(
      ChecksOf(rules, need.kind), floats, Base(disk, rules, need.kind, path), before, Where(need.kind), word);
  }

  lemma LeafLayers(disk: Disk, rules: Rules, floats: FloatReader, kind: string, path: string)
    requires ReprReader(floats) && disk.codec == Yaml(floats) && Built(disk, rules, kind, path).Ok?
    requires path in disk.tree && FieldsIn(disk.tree[path], floats).Ok?
    ensures Layered(ChecksOf(rules, kind), Base(disk, rules, kind, path), FieldsIn(disk.tree[path], floats).value)
         == Built(disk, rules, kind, path)
    ensures Base(disk, rules, kind, path).Some? ==> Tidy(Base(disk, rules, kind, path).value)
  {
    var guide, checks := ChartOf(disk, Builder(kind)), ChecksOf(rules, kind);
    assert EntryFor(disk, Builder(kind), path) == Some(guide[path]);
    forall p | p in guide
      ensures Tidy(guide[p].raw)
    {
      assert EntryFor(disk, Builder(kind), p) == Some(guide[p]);
      LoadedGenuine(disk.tree[p], floats);
    }
    if guide[path].link.Parent? {
      ComposeTidy(guide, checks, guide[path].link.path, {} + {path});
    }
  }

  // ----- one document -----

  /**
   * An overlay arrives in the box if it is filed under its file's own path and lasts; under any other name it is lost,
   * and does no harm only where the document says the word already.
   */
  predicate Arrives(disk: Disk, rules: Rules, floats: FloatReader, word: Option<string>, reference: string) {
    var kind, path := KindAt(disk, reference), Locate(disk.layout, reference);
    && IsOverridden(word, kind) && path.Some? && Built(disk, rules, kind, path.value).Ok?
    && if path.value != reference
       then Lookup(Built(disk, rules, kind, path.value).value, Where(kind)) == Some(Str(word.value))
       else
         && Requantized(disk, reference, kind, word.value).Ok?
         && Lasts(ChecksOf(rules, kind), floats, Base(disk, rules, kind, path.value),
                  Requantized(disk, reference, kind, word.value).value)
  }

  /** Setting a field to what it is changes nothing. */
  lemma {:induction false} SetAgain(fields: seq<Field>, path: seq<string>, value: Value)
    requires path != [] && SetDefaultDeep(fields, path, value).Ok?
    ensures SetDefaultDeep(fields, path, value) == Ok(fields) <==> Lookup(fields, path) == Some(value)
    decreases path
  {
    SetDefaultFrame(fields, path, value, path);
    if Lookup(fields, path) == Some(value) {
      PutBack(fields, path[0]);
      if |path| > 1 {
        SetAgain(Get(fields, path[0]).value.fields, path[1..], value);
      }
    }
  }

  lemma {:induction false} PutBack(fields: seq<Field>, key: string)
    ensures Get(fields, key).Some? ==> Put(fields, key, Get(fields, key).value) == fields
  {
    if fields != [] && fields[0].key != key {
      PutBack(fields[1..], key);
    }
  }

  /** What the box finds is what it resolves, there being no override to set. */
  lemma FoundThere(
      disk: Disk, rules: Rules, word: Option<string>, bundle: Bundle, manifest: string,
      absolute: string -> Option<string>, need: Need)
    requires Known(disk, rules, word, bundle, need)
    ensures Found(Boxed(disk, bundle, manifest, absolute), rules, None, need)
         == Resolved(Boxed(disk, bundle, manifest, absolute), rules, need.kind, PathOf(disk, need))
  {
  }

  /** A document whose chain has no overlay resolves to itself in the box. */
  lemma CopiedSame(
      disk: Disk, rules: Rules, word: Option<string>, bundle: Bundle, manifest: string,
      absolute: string -> Option<string>, need: Need)
    requires Known(disk, rules, word, bundle, need) && Portable(disk, bundle)
    requires Closure(disk, need.kind, PathOf(disk, need)) !! bundle.overlays.Keys
    ensures Found(Boxed(disk, bundle, manifest, absolute), rules, None, need)
         == Built(disk, rules, need.kind, PathOf(disk, need))
  {
    PlainHermetic(disk, rules, bundle, manifest, absolute, need.kind, PathOf(disk, need));
    FoundThere(disk, rules, word, bundle, manifest, absolute, need);
  }

  lemma PlainCarried(
      disk: Disk, rules: Rules, word: Option<string>, bundle: Bundle, manifest: string, need: Need)
    requires Known(disk, rules, word, bundle, need) && disk.codec.read(manifest).Err?
    requires Closure(disk, need.kind, PathOf(disk, need)) !! bundle.overlays.Keys
    requires Same(Boxed(disk, bundle, manifest, NOWHERE), disk, rules, word, need)
    ensures Carried(disk, need.kind, PathOf(disk, need))
    ensures Found(disk, rules, word, need) == Built(disk, rules, need.kind, PathOf(disk, need))
  {
    FoundThere(disk, rules, word, bundle, manifest, NOWHERE, need);
    CopiedCarried(disk, rules, bundle, manifest, need.kind, PathOf(disk, need));
  }

  lemma NoOverlay(disk: Disk, rules: Rules, word: Option<string>, bundle: Bundle, need: Need)
    requires Known(disk, rules, word, bundle, need)
    requires !IsOverridden(word, need.kind) || need.reference.value.s != PathOf(disk, need)
    ensures Closure(disk, need.kind, PathOf(disk, need)) !! bundle.overlays.Keys
  {
    forall p | p in Closure(disk, need.kind, PathOf(disk, need)) && p in bundle.overlays
      ensures false
    {
      OnlyLeafOverlaid(disk, rules, word, bundle, need, p);
    }
  }

  lemma IsLeaf(
      disk: Disk, rules: Rules, floats: FloatReader, word: Option<string>, bundle: Bundle, need: Need)
    requires ReprReader(floats) && disk.codec == Yaml(floats) && Known(disk, rules, word, bundle, need)
    requires IsOverridden(word, need.kind) && need.reference.value.s == PathOf(disk, need)
    ensures LeafKnown(disk, rules, floats, bundle, word.value, need.kind, PathOf(disk, need))
  {
    var path := PathOf(disk, need);
    KindOfNeed(disk, rules, word, bundle, need);
    assert Overlaid(disk, bundle, word, path, KindAt(disk, path));
    forall p | p in Closure(disk, need.kind, path) && p in bundle.overlays
      ensures p == path
    {
      OnlyLeafOverlaid(disk, rules, word, bundle, need, p);
    }
  }

  /** If a box mounted nowhere gives what the host finds, the chain can be carried and the overlay arrives. */
  lemma SameArrives(
      disk: Disk, rules: Rules, floats: FloatReader, word: Option<string>, bundle: Bundle, manifest: string,
      need: Need)
    requires ReprReader(floats) && disk.codec == Yaml(floats) && disk.codec.read(manifest).Err?
    requires Known(disk, rules, word, bundle, need)
    requires Same(Boxed(disk, bundle, manifest, NOWHERE), disk, rules, word, need)
    ensures Carried(disk, need.kind, PathOf(disk, need))
    ensures IsOverridden(word, need.kind) ==> Arrives(disk, rules, floats, word, need.reference.value.s)
  {
    KindOfNeed(disk, rules, word, bundle, need);
    if IsOverridden(word, need.kind) && need.reference.value.s == PathOf(disk, need) {
      LeafArrives(disk, rules, floats, word, bundle, manifest, need);
    } else {
      NoOverlay(disk, rules, word, bundle, need);
      PlainCarried(disk, rules, word, bundle, manifest, need);
      if IsOverridden(word, need.kind) {
        HostOverridden(disk, rules, word.value, need);
        SetAgain(
          Built(disk, rules, need.kind, PathOf(disk, need)).value, Where(need.kind), Str(word.value));
      }
    }
  }

  lemma LeafArrives(
      disk: Disk, rules: Rules, floats: FloatReader, word: Option<string>, bundle: Bundle, manifest: string,
      need: Need)
    requires ReprReader(floats) && disk.codec == Yaml(floats) && disk.codec.read(manifest).Err?
    requires Known(disk, rules, word, bundle, need) && KindAt(disk, need.reference.value.s) == need.kind
    requires IsOverridden(word, need.kind) && need.reference.value.s == PathOf(disk, need)
    requires Same(Boxed(disk, bundle, manifest, NOWHERE), disk, rules, word, need)
    ensures Carried(disk, need.kind, PathOf(disk, need))
    ensures Arrives(disk, rules, floats, word, need.reference.value.s)
  {
    var path := PathOf(disk, need);
    IsLeaf(disk, rules, floats, word, bundle, need);
    FoundThere(disk, rules, word, bundle, manifest, NOWHERE, need);
    LeafCarried(disk, rules, floats, bundle, word.value, manifest, need.kind, path);
    LeafOver(disk, rules, floats, bundle, word.value, manifest, NOWHERE, need.kind, path);
    LeafExact(disk, rules, floats, bundle, word.value, need, path);
  }

  /** If files can be carried and the overlay arrives, every box gives what the host finds. */
  lemma ArrivesSame(
      disk: Disk, rules: Rules, floats: FloatReader, word: Option<string>, bundle: Bundle, manifest: string,
      absolute: string -> Option<string>, need: Need)
    requires ReprReader(floats) && disk.codec == Yaml(floats) && disk.codec.read(manifest).Err?
    requires Known(disk, rules, word, bundle, need) && Portable(disk, bundle)
    requires IsOverridden(word, need.kind) ==> Arrives(disk, rules, floats, word, need.reference.value.s)
    ensures Same(Boxed(disk, bundle, manifest, absolute), disk, rules, word, need)
  {
    var path := PathOf(disk, need);
    KindOfNeed(disk, rules, word, bundle, need);
    if IsOverridden(word, need.kind) && need.reference.value.s == path {
      IsLeaf(disk, rules, floats, word, bundle, need);
      FoundThere(disk, rules, word, bundle, manifest, absolute, need);
      LeafOver(disk, rules, floats, bundle, word.value, manifest, absolute, need.kind, path);
      LeafExact(disk, rules, floats, bundle, word.value, need, path);
    } else {
      NoOverlay(disk, rules, word, bundle, need);
      CopiedSame(disk, rules, word, bundle, manifest, absolute, need);
      if IsOverridden(word, need.kind) {
        HostOverridden(disk, rules, word.value, need);
        SetAgain(Built(disk, rules, need.kind, path).value, Where(need.kind), Str(word.value));
      } else {
        HostAgrees(disk, rules, need.kind, path);
      }
    }
  }

  // ----- the whole bundle -----

  lemma BuildFiles(disk: Disk, rules: Rules, request: Request)
    requires Ask(request) && Build(disk, rules, request).Ok?
    requires Resolve(disk, rules, request.quantization, request).Ok?
    ensures Build(disk, rules, request).value.files <= disk.tree.Keys
  {
    var needs := AllNeeds(disk, rules, request.quantization, request);
    BuildSteps(disk, rules, request);
    forall p | p in Build(disk, rules, request).value.files
      ensures p in disk.tree
    {
      assert NeededBy(disk, needs, p);
      var need :| need in needs && p in Closure(disk, need.kind, PathOf(disk, need));
      ClosureKind(disk, need.kind, PathOf(disk, need), p);
    }
  }

  ghost predicate AllKnown(disk: Disk, rules: Rules, word: Option<string>, bundle: Bundle, needs: seq<Need>) {
    forall need :: need in needs ==> Known(disk, rules, word, bundle, need)
  }

  lemma NeedsKnown(disk: Disk, rules: Rules, request: Request)
    requires Normalizes(disk.layout) && Ask(request) && Build(disk, rules, request).Ok?
    requires Resolve(disk, rules, request.quantization, request).Ok?
    ensures AllKnown(
              disk, rules, request.quantization, Build(disk, rules, request).value,
              AllNeeds(disk, rules, request.quantization, request))
  {
    BuildSteps(disk, rules, request);
    BuildFiles(disk, rules, request);
    BuildOverlays(disk, rules, request);
    NeedsOverlaid(disk, rules, request);
  }

  lemma {:induction false} PolicyNeeded(
      disk: Disk, rules: Rules, word: Option<string>, wanted: seq<(string, string)>, experiment: seq<Field>)
    requires Ordinary(wanted) && Takes(wanted, "policy")
    requires ResolveComponents(disk, rules, word, wanted, experiment).Ok?
    ensures Need(Lookup(experiment, ["components", "policy"]), "policy")
            in PartsNeeds(disk, rules, word, wanted, experiment)
    decreases |wanted|
  {
    if wanted[0].0 == "policy" {
      assert ComponentNeeds(disk, rules, word, wanted[0].0, wanted[0].1, experiment)[0]
          == Need(Lookup(experiment, ["components", "policy"]), "policy");
    } else {
      TakesTail(wanted, "policy");
      PolicyNeeded(disk, rules, word, wanted[1..], experiment);
    }
  }

  /** Every overlay is of a document the run needs. */
  lemma OverlayNeeded(disk: Disk, rules: Rules, request: Request, reference: string) returns (need: Need)
    requires Ask(request) && Build(disk, rules, request).Ok?
    requires Resolve(disk, rules, request.quantization, request).Ok?
    requires reference in Build(disk, rules, request).value.overlays
    ensures need in AllNeeds(disk, rules, request.quantization, request)
    ensures need.reference == Some(Str(reference)) && IsOverridden(request.quantization, need.kind)
  {
    OverlayIs(disk, rules, request, reference);
    if request.kind == "deployment" && reference == request.experiment {
      need := Need(Some(Str(request.experiment)), request.kind);
    } else {
      PolicyIsNeeded(disk, rules, request);
      need := Need(Some(Str(reference)), "policy");
    }
  }

  lemma OverlayIs(disk: Disk, rules: Rules, request: Request, reference: string)
    requires Ask(request) && Build(disk, rules, request).Ok?
    requires reference in Build(disk, rules, request).value.overlays
    ensures request.quantization.Some? && Started(disk, rules, request).Ok?
    ensures || (request.kind == "deployment" && reference == request.experiment)
            || PolicyReference(Started(disk, rules, request).value.1) == Some(reference)
  {
    BuildOverlays(disk, rules, request);
    assert Overlaid(
        disk, Build(disk, rules, request).value, request.quantization, reference, KindAt(disk, reference));
  }

  lemma PolicyIsNeeded(disk: Disk, rules: Rules, request: Request)
    requires Ask(request) && Started(disk, rules, request).Ok?
    requires Resolve(disk, rules, request.quantization, request).Ok?
    ensures Need(Lookup(Started(disk, rules, request).value.1, ["components", "policy"]), "policy")
            in AllNeeds(disk, rules, request.quantization, request)
  {
    var word := request.quantization;
    var found := Experiment(disk, rules, word, request).value;
    ExperimentAgrees(disk, rules, word, request);
    ComponentsOrdinary(request.kind);
    PolicyNeeded(disk, rules, word, Components(request.kind), found);
    assert Lookup(found, ["components", "policy"])
        == Lookup(Started(disk, rules, request).value.1, ["components", "policy"]);
  }

  /** If every chain can be carried, the bundle is portable. */
  lemma CarriedPortable(disk: Disk, rules: Rules, request: Request)
    requires Ask(request) && Build(disk, rules, request).Ok?
    requires Resolve(disk, rules, request.quantization, request).Ok?
    requires forall need :: need in AllNeeds(disk, rules, request.quantization, request) ==>
               Carried(disk, need.kind, PathOf(disk, need))
    ensures Portable(disk, Build(disk, rules, request).value)
  {
    var needs := AllNeeds(disk, rules, request.quantization, request);
    BuildSteps(disk, rules, request);
    BuildFiles(disk, rules, request);
    forall p | p in Build(disk, rules, request).value.files
      ensures Movable(disk, p) && p != MANIFEST
    {
      assert NeededBy(disk, needs, p);
      var need :| need in needs && p in Closure(disk, need.kind, PathOf(disk, need));
      assert Carried(disk, need.kind, PathOf(disk, need));
    }
  }

  /**
   * An override asked for under a name that is not the file's own path is lost, for policies and deployments alike: the
   * overlay is filed under that name, the file is copied under its path, and the box resolves the document as it was.
   */
  lemma OverrideLost(
      disk: Disk, rules: Rules, request: Request, manifest: string, absolute: string -> Option<string>,
      reference: string)
    requires Normalizes(disk.layout) && Ask(request) && Build(disk, rules, request).Ok?
    requires Resolve(disk, rules, request.quantization, request).Ok?
    requires Portable(disk, Build(disk, rules, request).value)
    requires reference in Build(disk, rules, request).value.overlays
    requires Locate(disk.layout, reference) != Some(reference)
    ensures Locate(disk.layout, reference).Some?
    ensures ResolveOne(
              Boxed(disk, Build(disk, rules, request).value, manifest, absolute), rules, None,
              Some(Str(reference)), KindAt(disk, reference))
         == Built(disk, rules, KindAt(disk, reference), Locate(disk.layout, reference).value)
  {
    var bundle, word := Build(disk, rules, request).value, request.quantization;
    NeedsKnown(disk, rules, request);
    var need := OverlayNeeded(disk, rules, request, reference);
    KindOfNeed(disk, rules, word, bundle, need);
    NoOverlay(disk, rules, word, bundle, need);
    CopiedSame(disk, rules, word, bundle, manifest, absolute, need);
  }

  /** Where a deployment's `runtime` is not a mapping the host itself refuses the override. */
  lemma HostNeedsRoom(disk: Disk, rules: Rules, request: Request)
    requires request.kind == "deployment" && request.quantization.Some? && Build(disk, rules, request).Ok?
    requires Locate(disk.layout, request.experiment).Some?
    requires !Roomy(Built(disk, rules, request.kind, Locate(disk.layout, request.experiment).value))
    ensures Resolve(disk, rules, request.quantization, request).Err?
  {
    if Resolve(disk, rules, request.quantization, request).Ok? {
      HostAgrees(disk, rules, request.kind, Locate(disk.layout, request.experiment).value);
    }
  }

  /**
   * Without an override, a run that resolves on the host resolves to the same documents from its bundle, wherever that
   * is mounted, exactly when no selected file extends an absolute path and none lies where the manifest is written.
   * The manifest is only supposed to be something that the reader refuses.
   */
  lemma PlainExact(disk: Disk, rules: Rules, request: Request, manifest: string)
    requires Normalizes(disk.layout) && Ask(request) && request.quantization.None?
    requires disk.codec.read(manifest).Err?
    requires Build(disk, rules, request).Ok? && Resolve(disk, rules, None, request).Ok?
    ensures Build(disk, rules, request).value.files <= disk.tree.Keys
    ensures Portable(disk, Build(disk, rules, request).value) <==>
            forall absolute: string -> Option<string> ::
              Resolve(Boxed(disk, Build(disk, rules, request).value, manifest, absolute), rules, None, request)
              == Resolve(disk, rules, None, request)
  {
    var bundle, needs := Build(disk, rules, request).value, AllNeeds(disk, rules, None, request);
    BuildFiles(disk, rules, request);
    NeedsKnown(disk, rules, request);
    if Portable(disk, bundle) {
      forall absolute: string -> Option<string>
        ensures Resolve(Boxed(disk, bundle, manifest, absolute), rules, None, request)
             == Resolve(disk, rules, None, request)
      {
        forall need | need in needs
          ensures Same(Boxed(disk, bundle, manifest, absolute), disk, rules, None, need)
        {
          NoOverlay(disk, rules, None, bundle, need);
          CopiedSame(disk, rules, None, bundle, manifest, absolute, need);
          HostAgrees(disk, rules, need.kind, PathOf(disk, need));
        }
        ResolveSame(Boxed(disk, bundle, manifest, absolute), disk, rules, None, request);
      }
    }
    var box := Boxed(disk, bundle, manifest, NOWHERE);
    if Resolve(box, rules, None, request) == Resolve(disk, rules, None, request) {
      ResolveSame(box, disk, rules, None, request);
      forall need | need in needs
        ensures Carried(disk, need.kind, PathOf(disk, need))
      {
        NoOverlay(disk, rules, None, bundle, need);
        PlainCarried(disk, rules, None, bundle, manifest, need);
      }
      CarriedPortable(disk, rules, request);
    }
  }

  /** What the whole bundle needs, with the program's own reader and printer. */
  ghost predicate Delivers(disk: Disk, rules: Rules, floats: FloatReader, word: Option<string>, bundle: Bundle) {
    Portable(disk, bundle) && forall r :: r in bundle.overlays ==> Arrives(disk, rules, floats, word, r)
  }

  lemma DeliversSame(
      disk: Disk, rules: Rules, floats: FloatReader, request: Request, manifest: string,
      absolute: string -> Option<string>)
    requires ReprReader(floats) && disk.codec == Yaml(floats) && disk.codec.read(manifest).Err?
    requires Normalizes(disk.layout) && Ask(request) && Build(disk, rules, request).Ok?
    requires Resolve(disk, rules, request.quantization, request).Ok?
    requires Delivers(disk, rules, floats, request.quantization, Build(disk, rules, request).value)
    ensures Resolve(Boxed(disk, Build(disk, rules, request).value, manifest, absolute), rules, None, request)
         == Resolve(disk, rules, request.quantization, request)
  {
    var bundle, word := Build(disk, rules, request).value, request.quantization;
    NeedsKnown(disk, rules, request);
    forall need | need in AllNeeds(disk, rules, word, request)
      ensures Same(Boxed(disk, bundle, manifest, absolute), disk, rules, word, need)
    {
      ArrivesSame(disk, rules, floats, word, bundle, manifest, absolute, need);
    }
    ResolveSame(Boxed(disk, bundle, manifest, absolute), disk, rules, word, request);
  }

  lemma SameDelivers(disk: Disk, rules: Rules, floats: FloatReader, request: Request, manifest: string)
    requires ReprReader(floats) && disk.codec == Yaml(floats) && disk.codec.read(manifest).Err?
    requires Normalizes(disk.layout) && Ask(request) && Build(disk, rules, request).Ok?
    requires Resolve(disk, rules, request.quantization, request).Ok?
    requires Build(disk, rules, request).value.files <= disk.tree.Keys
    requires Resolve(Boxed(disk, Build(disk, rules, request).value, manifest, NOWHERE), rules, None, request)
          == Resolve(disk, rules, request.quantization, request)
    ensures Delivers(disk, rules, floats, request.quantization, Build(disk, rules, request).value)
  {
    var bundle, word := Build(disk, rules, request).value, request.quantization;
    NeedsKnown(disk, rules, request);
    ResolveSame(Boxed(disk, bundle, manifest, NOWHERE), disk, rules, word, request);
    forall need | need in AllNeeds(disk, rules, word, request)
      ensures Carried(disk, need.kind, PathOf(disk, need))
      ensures IsOverridden(word, need.kind) ==> Arrives(disk, rules, floats, word, need.reference.value.s)
    {
      SameArrives(disk, rules, floats, word, bundle, manifest, need);
    }
    CarriedPortable(disk, rules, request);
    forall r | r in bundle.overlays
      ensures Arrives(disk, rules, floats, word, r)
    {
      var need := OverlayNeeded(disk, rules, request, r);
    }
  }

  /**
   * With the program's own reader and printer, an override included, a run that resolves on the host resolves to the
   * same documents from its bundle, wherever that is mounted, exactly when the bundle is portable and every overlay
   * arrives.
   */
  lemma BundleExact(disk: Disk, rules: Rules, floats: FloatReader, request: Request, manifest: string)
    requires ReprReader(floats) && disk.codec == Yaml(floats) && disk.codec.read(manifest).Err?
    requires Normalizes(disk.layout) && Ask(request) && Build(disk, rules, request).Ok?
    requires Resolve(disk, rules, request.quantization, request).Ok?
    ensures Build(disk, rules, request).value.files <= disk.tree.Keys
    ensures Delivers(disk, rules, floats, request.quantization, Build(disk, rules, request).value) <==>
            forall absolute: string -> Option<string> ::
              Resolve(Boxed(disk, Build(disk, rules, request).value, manifest, absolute), rules, None, request)
              == Resolve(disk, rules, request.quantization, request)
  {
    var bundle := Build(disk, rules, request).value;
    BuildFiles(disk, rules, request);
    if Delivers(disk, rules, floats, request.quantization, bundle) {
      forall absolute: string -> Option<string>
        ensures Resolve(Boxed(disk, bundle, manifest, absolute), rules, None, request)
             == Resolve(disk, rules, request.quantization, request)
      {
        DeliversSame(disk, rules, floats, request, manifest, absolute);
      }
    }
    if Resolve(Boxed(disk, bundle, manifest, NOWHERE), rules, None, request)
       == Resolve(disk, rules, request.quantization, request)
    {
      SameDelivers(disk, rules, floats, request, manifest);
    }
  }
}
