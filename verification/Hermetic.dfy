/**
 * Bundles are hermetic: a container that holds only the bundle resolves what the host would have resolved, with the
 * override set, and refuses when the host would have refused.
 */
module Hermetic {
  import opened Results
  import opened Values
  import opened Scalars
  import opened Documents
  import opened Reloading
  import opened Composition
  import opened Chains
  import opened Loaded
  import opened ConfigTree
  import opened Bundles
  import opened YamlFiles

  /** The kind a file says it is of. */
  function KindIn(disk: Disk, path: string): string {
    if path !in disk.tree then ""
    else
      match disk.codec.read(disk.tree[path])
      case Err => ""
      case Ok(fields) => (match Get(fields, KIND) case Some(Str(kind)) => kind case _ => "")
  }

  /** Every file on a chain says it is of the kind asked for. */
  lemma KindInClosure(disk: Disk, kind: string, path: string, file: string)
    requires file in Closure(disk, kind, path)
    ensures KindIn(disk, file) == kind
  {
    ClosureKind(disk, kind, path, file);
  }

  lemma KindOfBuilt(disk: Disk, rules: Rules, kind: string, path: string)
    requires Built(disk, rules, kind, path).Ok?
    ensures KindIn(disk, path) == kind
  {
    assert path in Closure(disk, kind, path);
    ClosureKind(disk, kind, path, path);
  }

  // ----- what building leaves behind -----

  predicate Takes(wanted: seq<(string, string)>, name: string) {
    exists i :: 0 <= i < |wanted| && wanted[i].0 == name
  }

  function PolicyReference(experiment: seq<Field>): Option<string> {
    match Lookup(experiment, ["components", "policy"])
    case Some(Str(reference)) => Some(reference)
    case _ => None
  }

  /** The overlays after the components: one more, under the policy's reference, when a word is to be set. */
  function PolicyOverlay(disk: Disk, word: Option<string>, bundle: Bundle, experiment: seq<Field>): Option<Bundle> {
    var reference := PolicyReference(experiment);
    if reference.None? then None
    else if word.None? then Some(bundle)
    else
      var overlaid := Overlay(disk, bundle, reference.value, "policy", word.value);
      if overlaid.Ok? then Some(overlaid.value) else None
  }

  lemma VisitAdds(disk: Disk, rules: Rules, bundle: Bundle, reference: Option<Value>, kind: string)
    requires Visit(disk, rules, bundle, reference, kind).Ok?
    ensures var (after, doc) := Visit(disk, rules, bundle, reference, kind).value;
            var path := Locate(disk.layout, reference.value.s);
            && path.Some? && Built(disk, rules, kind, path.value) == Ok(doc)
            && bundle.files <= after.files && Closure(disk, kind, path.value) <= after.files
            && after.overlays == bundle.overlays
  {
  }

  lemma PolicyAdds(
      disk: Disk, rules: Rules, word: Option<string>, bundle: Bundle, reference: string, doc: seq<Field>)
    requires AddPolicy(disk, rules, word, bundle, reference, doc).Ok?
    ensures var after := AddPolicy(disk, rules, word, bundle, reference, doc).value;
            && bundle.files <= after.files
            && (word.None? ==> after.overlays == bundle.overlays)
            && (word.Some? ==>
                  && Overlay(disk, bundle, reference, "policy", word.value).Ok?
                  && after.overlays == Overlay(disk, bundle, reference, "policy", word.value).value.overlays)
  {
    if word.None? {
      VisitAdds(disk, rules, bundle, Lookup(doc, ACTION), "action_interface");
    } else {
      var changed := SetDeep(doc, Where("policy"), Str(word.value)).value;
      var overlaid := Overlay(disk, bundle, reference, "policy", word.value).value;
      VisitAdds(disk, rules, overlaid, Lookup(changed, ACTION), "action_interface");
    }
  }

  lemma ComponentAdds(
      disk: Disk, rules: Rules, word: Option<string>, bundle: Bundle, name: string, kind: string,
      experiment: seq<Field>)
    requires AddComponent(disk, rules, word, bundle, name, kind, experiment).Ok?
    ensures var after := AddComponent(disk, rules, word, bundle, name, kind, experiment).value;
            && bundle.files <= after.files
            && (name != "policy" ==> after.overlays == bundle.overlays)
            && (name == "policy" ==>
                  var overlaid := PolicyOverlay(disk, word, bundle, experiment);
                  overlaid.Some? && after.overlays == overlaid.value.overlays)
  {
    var reference := Lookup(experiment, ["components", name]);
    VisitAdds(disk, rules, bundle, reference, kind);
    if name == "policy" {
      var (visited, doc) := Visit(disk, rules, bundle, reference, kind).value;
      PolicyAdds(disk, rules, word, visited, reference.value.s, doc);
      if word.Some? {
      }
    }
  }

  /** Adding the policy's overlay again changes nothing. */
  lemma {:induction false} ComponentsAdd(
      disk: Disk, rules: Rules, word: Option<string>, bundle: Bundle, wanted: seq<(string, string)>,
      experiment: seq<Field>)
    requires AddComponents(disk, rules, word, bundle, wanted, experiment).Ok?
    ensures var after := AddComponents(disk, rules, word, bundle, wanted, experiment).value;
            && bundle.files <= after.files
            && (!Takes(wanted, "policy") ==> after.overlays == bundle.overlays)
            && (Takes(wanted, "policy") ==>
                  var overlaid := PolicyOverlay(disk, word, bundle, experiment);
                  overlaid.Some? && after.overlays == overlaid.value.overlays)
    decreases |wanted|
  {
    if wanted != [] {
      ComponentAdds(disk, rules, word, bundle, wanted[0].0, wanted[0].1, experiment);
      var added := AddComponent(disk, rules, word, bundle, wanted[0].0, wanted[0].1, experiment).value;
      ComponentsAdd(disk, rules, word, added, wanted[1..], experiment);
      TakesTail(wanted, "policy");
    }
  }

  lemma TakesTail(wanted: seq<(string, string)>, name: string)
    requires wanted != []
    ensures Takes(wanted, name) <==> wanted[0].0 == name || Takes(wanted[1..], name)
  {
    if Takes(wanted[1..], name) {
      var i :| 0 <= i < |wanted[1..]| && wanted[1..][i].0 == name;
      assert wanted[i + 1].0 == name;
    }
    if Takes(wanted, name) && wanted[0].0 != name {
      var i :| 0 <= i < |wanted| && wanted[i].0 == name;
      assert wanted[1..][i - 1].0 == name;
    }
  }

  // ----- one reference -----

  /** Every overlay reads as its file with the field of its kind set, and there is at most one of each kind. */
  ghost predicate Sealed(disk: Disk, bundle: Bundle, word: Option<string>) {
    && Portable(disk, bundle)
    && (forall p :: p in bundle.overlays ==> Reread(disk, bundle, word, p, KindIn(disk, p)))
    && (forall p, q :: p in bundle.overlays && q in bundle.overlays && KindIn(disk, p) == KindIn(disk, q) ==> p == q)
  }

  lemma VisitHermetic(
      disk: Disk, rules: Rules, bundle: Bundle, word: Option<string>, manifest: string,
      absolute: string -> Option<string>, kind: string, path: string)
    requires Sealed(disk, bundle, word) && Built(disk, rules, kind, path).Ok?
    requires Closure(disk, kind, path) <= bundle.files
    requires path in bundle.overlays <==> word.Some? && Where(kind) != []
    requires path in bundle.overlays ==>
               SetDefaultDeep(Built(disk, rules, kind, path).value, Where(kind), Str(word.value)).Ok?
    ensures Resolved(Boxed(disk, bundle, manifest, absolute), rules, kind, path)
         == if path in bundle.overlays
            then Overridden(ChecksOf(rules, kind), Resolved(disk, rules, kind, path), Where(kind), Str(word.value))
            else Resolved(disk, rules, kind, path)
    ensures Resolved(disk, rules, kind, path).Ok? ==>
              Resolved(disk, rules, kind, path) == Built(disk, rules, kind, path)
  {
    forall p | p in Closure(disk, kind, path)
      ensures KindIn(disk, p) == kind
    {
      ClosureKind(disk, kind, path, p);
    }
    assert path in Closure(disk, kind, path);
    if path in bundle.overlays {
      OverlaidHermetic(disk, rules, bundle, word, manifest, absolute, kind, path);
    } else {
      forall p | p in Closure(disk, kind, path)
        ensures p !in bundle.overlays
      {
        assert p in bundle.overlays ==> Reread(disk, bundle, word, p, KindIn(disk, p));
      }
      PlainHermetic(disk, rules, bundle, manifest, absolute, kind, path);
    }
    forall p | p in Closure(disk, kind, path)
      ensures SameFile(disk.tree, disk.tree, p) && Movable(disk, p)
    {
    }
    ResolvedIsLocal(disk, rules, disk.tree, absolute, kind, path);
  }

  /** A visited reference resolves in the box as on the host, and gives what the builder went on with. */
  lemma ReferenceHermetic(
      disk: Disk, rules: Rules, bundle: Bundle, word: Option<string>, manifest: string,
      absolute: string -> Option<string>, before: Bundle, reference: Option<Value>, kind: string)
    requires Sealed(disk, bundle, word) && Visit(disk, rules, before, reference, kind).Ok?
    requires Visit(disk, rules, before, reference, kind).value.0.files <= bundle.files
    requires var path := Locate(disk.layout, reference.value.s).value;
             path in bundle.overlays <==> word.Some? && Where(kind) != []
    requires word.Some? && Where(kind) != [] ==>
               SetDefaultDeep(Visit(disk, rules, before, reference, kind).value.1, Where(kind), Str(word.value)).Ok?
    ensures ResolveOne(Boxed(disk, bundle, manifest, absolute), rules, None, reference, kind)
         == ResolveOne(disk, rules, word, reference, kind)
    ensures var doc := Visit(disk, rules, before, reference, kind).value.1;
            var found := ResolveOne(disk, rules, word, reference, kind);
            found.Ok? ==>
              found.value == if word.None? || Where(kind) == [] then doc
                             else SetDefaultDeep(doc, Where(kind), Str(word.value)).value
  {
    VisitAdds(disk, rules, before, reference, kind);
    var path := Locate(disk.layout, reference.value.s).value;
    VisitHermetic(disk, rules, bundle, word, manifest, absolute, kind, path);
  }

  // ----- all of a run's documents -----

  /** The builder's visit to the policy fits the bundle: overlaid under its normalized path. */
  ghost predicate PolicyFits(disk: Disk, bundle: Bundle, word: Option<string>, experiment: seq<Field>) {
    var reference := PolicyReference(experiment);
    reference.Some? && Locate(disk.layout, reference.value).Some? ==>
      (Locate(disk.layout, reference.value).value in bundle.overlays <==> word.Some?)
  }

  lemma PlainReference(
      disk: Disk, rules: Rules, bundle: Bundle, word: Option<string>, manifest: string,
      absolute: string -> Option<string>, before: Bundle, reference: Option<Value>, kind: string)
    requires Sealed(disk, bundle, word) && Visit(disk, rules, before, reference, kind).Ok?
    requires Visit(disk, rules, before, reference, kind).value.0.files <= bundle.files && Where(kind) == []
    ensures ResolveOne(Boxed(disk, bundle, manifest, absolute), rules, None, reference, kind)
         == ResolveOne(disk, rules, word, reference, kind)
    ensures ResolveOne(disk, rules, word, reference, kind).Ok? ==>
              ResolveOne(disk, rules, word, reference, kind) == Ok(Visit(disk, rules, before, reference, kind).value.1)
  {
    VisitAdds(disk, rules, before, reference, kind);
    ReferenceHermetic(disk, rules, bundle, word, manifest, absolute, before, reference, kind);
  }

  lemma PolicyHermetic(
      disk: Disk, rules: Rules, bundle: Bundle, word: Option<string>, manifest: string,
      absolute: string -> Option<string>, before: Bundle, experiment: seq<Field>)
    requires Sealed(disk, bundle, word) && PolicyFits(disk, bundle, word, experiment)
    requires AddComponent(disk, rules, word, before, "policy", "policy", experiment).Ok?
    requires AddComponent(disk, rules, word, before, "policy", "policy", experiment).value.files <= bundle.files
    ensures ResolveComponent(Boxed(disk, bundle, manifest, absolute), rules, None, "policy", "policy", experiment)
         == ResolveComponent(disk, rules, word, "policy", "policy", experiment)
  {
    var reference := Lookup(experiment, ["components", "policy"]);
    VisitAdds(disk, rules, before, reference, "policy");
    var (after, doc) := Visit(disk, rules, before, reference, "policy").value;
    var changed, overlaid := doc, after;
    if word.Some? {
      SetDeepIsDefault(doc, Where("policy"), Str(word.value));
      changed := SetDeep(doc, Where("policy"), Str(word.value)).value;
      overlaid := Overlay(disk, after, reference.value.s, "policy", word.value).value;
    }
    VisitAdds(disk, rules, overlaid, Lookup(changed, ACTION), "action_interface");
    ReferenceHermetic(disk, rules, bundle, word, manifest, absolute, before, reference, "policy");
    PlainReference(
      disk, rules, bundle, word, manifest, absolute, overlaid, Lookup(changed, ACTION), "action_interface");
  }

  lemma ComponentHermetic(
      disk: Disk, rules: Rules, bundle: Bundle, word: Option<string>, manifest: string,
      absolute: string -> Option<string>, before: Bundle, name: string, kind: string, experiment: seq<Field>)
    requires Sealed(disk, bundle, word) && PolicyFits(disk, bundle, word, experiment)
    requires if name == "policy" then kind == "policy" else Where(kind) == []
    requires AddComponent(disk, rules, word, before, name, kind, experiment).Ok?
    requires AddComponent(disk, rules, word, before, name, kind, experiment).value.files <= bundle.files
    ensures ResolveComponent(Boxed(disk, bundle, manifest, absolute), rules, None, name, kind, experiment)
         == ResolveComponent(disk, rules, word, name, kind, experiment)
  {
    if name == "policy" {
      PolicyHermetic(disk, rules, bundle, word, manifest, absolute, before, experiment);
    } else {
      PlainReference(
        disk, rules, bundle, word, manifest, absolute, before, Lookup(experiment, ["components", name]), kind);
    }
  }

  ghost predicate Ordinary(wanted: seq<(string, string)>) {
    forall i :: 0 <= i < |wanted| ==>
      if wanted[i].0 == "policy" then wanted[i].1 == "policy" else Where(wanted[i].1) == []
  }

  lemma {:induction false} ComponentsHermetic(
      disk: Disk, rules: Rules, bundle: Bundle, word: Option<string>, manifest: string,
      absolute: string -> Option<string>, before: Bundle, wanted: seq<(string, string)>, experiment: seq<Field>)
    requires Sealed(disk, bundle, word) && PolicyFits(disk, bundle, word, experiment) && Ordinary(wanted)
    requires AddComponents(disk, rules, word, before, wanted, experiment).Ok?
    requires AddComponents(disk, rules, word, before, wanted, experiment).value.files <= bundle.files
    ensures ResolveComponents(Boxed(disk, bundle, manifest, absolute), rules, None, wanted, experiment)
         == ResolveComponents(disk, rules, word, wanted, experiment)
    decreases |wanted|
  {
    if wanted != [] {
      var added := AddComponent(disk, rules, word, before, wanted[0].0, wanted[0].1, experiment).value;
      ComponentsAdd(disk, rules, word, added, wanted[1..], experiment);
      ComponentHermetic(
        disk, rules, bundle, word, manifest, absolute, before, wanted[0].0, wanted[0].1, experiment);
      ComponentsHermetic(disk, rules, bundle, word, manifest, absolute, added, wanted[1..], experiment);
    }
  }

  /** Only what the experiment says under `components` matters to its components. */
  lemma {:induction false} ComponentsOnly(
      disk: Disk, rules: Rules, word: Option<string>, wanted: seq<(string, string)>, a: seq<Field>, b: seq<Field>)
    requires Get(a, "components") == Get(b, "components")
    ensures ResolveComponents(disk, rules, word, wanted, a) == ResolveComponents(disk, rules, word, wanted, b)
    decreases |wanted|
  {
    if wanted != [] {
      ComponentsOnly(disk, rules, word, wanted[1..], a, b);
      assert Lookup(a, ["components", wanted[0].0]) == Lookup(b, ["components", wanted[0].0]);
    }
  }

  // ----- the whole bundle -----

  /** The changed leaf prints to text that reads back as itself. */
  predicate Survives(disk: Disk, word: Option<string>, reference: string) {
    var kind := KindIn(disk, reference);
    word.Some? && Where(kind) != [] ==>
      var leaf := Requantized(disk, reference, kind, word.value);
      leaf.Ok? && disk.codec.write(leaf.value).Ok? ==>
        disk.codec.read(disk.codec.write(leaf.value).value) == leaf
  }

  /** Reading never gives a mapping with a repeated key. */
  ghost predicate TidyReader(codec: Codec) {
    forall text :: codec.read(text).Ok? ==> Tidy(codec.read(text).value)
  }

  /**
   * What a bundle needs beyond having been built: movable files, overlays asked for under normalized paths and
   * surviving their own printing, and a deployment whose `runtime` is a mapping or absent.
   */
  ghost predicate Deliverable(disk: Disk, rules: Rules, request: Request, bundle: Bundle) {
    && Portable(disk, bundle)
    && (forall r :: r in bundle.overlays ==>
          Locate(disk.layout, r) == Some(r) && Survives(disk, request.quantization, r))
    && (request.kind == "deployment" && Locate(disk.layout, request.experiment).Some? ==>
          Roomy(Built(disk, rules, request.kind, Locate(disk.layout, request.experiment).value)))
  }

  predicate Roomy(doc: Result<seq<Field>>) {
    doc.Ok? && Get(doc.value, "runtime").Some? ==> Get(doc.value, "runtime").value.Map?
  }

  function Started(disk: Disk, rules: Rules, request: Request): Result<(Bundle, seq<Field>)> {
    Visit(disk, rules, Bundle({}, map[]), Some(Str(request.experiment)), request.kind)
  }

  function Begun(disk: Disk, rules: Rules, request: Request): Result<Bundle> {
    var start :- Started(disk, rules, request);
    if request.kind == "deployment" && request.quantization.Some?
    then Overlay(disk, start.0, request.experiment, "deployment", request.quantization.value)
    else Ok(start.0)
  }

  function Equipped(disk: Disk, rules: Rules, request: Request): Result<Bundle> {
    var start :- Started(disk, rules, request);
    var begun :- Begun(disk, rules, request);
    AddComponents(disk, rules, request.quantization, begun, Components(request.kind), start.1)
  }

  /** The stages of a build that succeeds: files only grow, and the overlays are the deployment's and the policy's. */
  ghost predicate Staged(disk: Disk, rules: Rules, request: Request, bundle: Bundle) {
    && Started(disk, rules, request).Ok? && Begun(disk, rules, request).Ok? && Equipped(disk, rules, request).Ok?
    && var (first, doc) := Started(disk, rules, request).value;
    && var begun, equipped := Begun(disk, rules, request).value, Equipped(disk, rules, request).value;
    && first.overlays == map[] && first.files <= bundle.files && equipped.files <= bundle.files
    && PolicyOverlay(disk, request.quantization, begun, doc).Some?
    && bundle.overlays == PolicyOverlay(disk, request.quantization, begun, doc).value.overlays
  }

  lemma BuildStages(disk: Disk, rules: Rules, request: Request)
    requires Build(disk, rules, request).Ok?
    ensures Staged(disk, rules, request, Build(disk, rules, request).value)
  {
    var (first, doc) := Started(disk, rules, request).value;
    var begun, equipped := Begun(disk, rules, request).value, Equipped(disk, rules, request).value;
    VisitAdds(disk, rules, Bundle({}, map[]), Some(Str(request.experiment)), request.kind);
    ComponentsAdd(disk, rules, request.quantization, begun, Components(request.kind), doc);
    ComponentsOrdinary(request.kind);
    VisitAdds(disk, rules, equipped, Lookup(doc, REGISTRY), "resource_registry");
    if request.profile.Some? {
      var registered := Visit(disk, rules, equipped, Lookup(doc, REGISTRY), "resource_registry").value.0;
      VisitAdds(disk, rules, registered, Some(Str(request.profile.value)), "execution_profile");
    }
  }

  ghost predicate PolicyBuilt(disk: Disk, rules: Rules, experiment: seq<Field>) {
    var reference := PolicyReference(experiment);
    && reference.Some? && Locate(disk.layout, reference.value).Some?
    && Built(disk, rules, "policy", Locate(disk.layout, reference.value).value).Ok?
  }

  lemma {:induction false} PolicyVisited(
      disk: Disk, rules: Rules, word: Option<string>, before: Bundle, wanted: seq<(string, string)>,
      experiment: seq<Field>)
    requires Ordinary(wanted) && Takes(wanted, "policy")
    requires AddComponents(disk, rules, word, before, wanted, experiment).Ok?
    ensures PolicyBuilt(disk, rules, experiment)
    decreases |wanted|
  {
    if wanted[0].0 == "policy" {
      VisitAdds(disk, rules, before, Lookup(experiment, ["components", "policy"]), "policy");
    } else {
      TakesTail(wanted, "policy");
      var added := AddComponent(disk, rules, word, before, wanted[0].0, wanted[0].1, experiment).value;
      PolicyVisited(disk, rules, word, added, wanted[1..], experiment);
    }
  }

  lemma ComponentsOrdinary(kind: string)
    ensures Ordinary(Components(kind)) && Takes(Components(kind), "policy")
  {
    assert Components(kind)[if kind == "deployment" then 0 else 1].0 == "policy";
  }

  /** What a deliverable bundle promises about its overlays. */
  ghost predicate Fitting(disk: Disk, rules: Rules, request: Request, bundle: Bundle) {
    && Started(disk, rules, request).Ok? && Locate(disk.layout, request.experiment).Some?
    && Sealed(disk, bundle, request.quantization)
    && PolicyFits(disk, bundle, request.quantization, Started(disk, rules, request).value.1)
    && (Locate(disk.layout, request.experiment).value in bundle.overlays
        <==> request.quantization.Some? && Where(request.kind) != [])
  }

  predicate Ask(request: Request) {
    request.kind == "experiment" || request.kind == "deployment"
  }

  lemma PlainFitting(disk: Disk, rules: Rules, request: Request, bundle: Bundle)
    requires Ask(request) && Staged(disk, rules, request, bundle) && request.quantization.None?
    requires Deliverable(disk, rules, request, bundle)
    ensures Fitting(disk, rules, request, bundle)
  {
    VisitAdds(disk, rules, Bundle({}, map[]), Some(Str(request.experiment)), request.kind);
    assert bundle.overlays == map[];
  }

  lemma QuantizedFitting(disk: Disk, rules: Rules, request: Request, bundle: Bundle)
    requires Ask(request) && Staged(disk, rules, request, bundle) && request.quantization.Some?
    requires Deliverable(disk, rules, request, bundle) && TidyReader(disk.codec)
    ensures Fitting(disk, rules, request, bundle)
  {
    var begun, doc := Begun(disk, rules, request).value, Started(disk, rules, request).value.1;
    ComponentsOrdinary(request.kind);
    PolicyVisited(disk, rules, request.quantization, begun, Components(request.kind), doc);
    PolicyGiven(disk, rules, begun, bundle, doc, request.quantization);
    ExperimentKind(disk, rules, request);
    QuantizedSealed(disk, rules, request, bundle, begun, PolicyReference(doc).value);
  }

  lemma PolicyGiven(
      disk: Disk, rules: Rules, begun: Bundle, bundle: Bundle, experiment: seq<Field>, word: Option<string>)
    requires word.Some? && PolicyBuilt(disk, rules, experiment) && PolicyOverlay(disk, word, begun, experiment).Some?
    requires bundle.overlays == PolicyOverlay(disk, word, begun, experiment).value.overlays
    requires TidyReader(disk.codec)
    requires forall r :: r in bundle.overlays ==> Locate(disk.layout, r) == Some(r) && Survives(disk, word, r)
    ensures var policy := PolicyReference(experiment).value;
            && policy in bundle.overlays && Locate(disk.layout, policy) == Some(policy)
            && bundle.overlays == begun.overlays[policy := bundle.overlays[policy]]
            && KindIn(disk, policy) == "policy" && Reread(disk, bundle, word, policy, "policy")
  {
    assert PolicyReference(experiment).value in bundle.overlays;
  }

  lemma ExperimentKind(disk: Disk, rules: Rules, request: Request)
    requires Started(disk, rules, request).Ok?
    ensures Locate(disk.layout, request.experiment).Some?
    ensures KindIn(disk, Locate(disk.layout, request.experiment).value) == request.kind
  {
    VisitAdds(disk, rules, Bundle({}, map[]), Some(Str(request.experiment)), request.kind);
    var path := Locate(disk.layout, request.experiment).value;
    assert path in Closure(disk, request.kind, path);
    ClosureKind(disk, request.kind, path, path);
  }

  lemma QuantizedSealed(
      disk: Disk, rules: Rules, request: Request, bundle: Bundle, begun: Bundle, policy: string)
    requires Ask(request) && request.quantization.Some? && TidyReader(disk.codec)
    requires Deliverable(disk, rules, request, bundle) && Started(disk, rules, request).Ok?
    requires Begun(disk, rules, request) == Ok(begun)
    requires begun.overlays.Keys == if request.kind == "deployment" then {request.experiment} else {}
    requires policy in bundle.overlays && bundle.overlays == begun.overlays[policy := bundle.overlays[policy]]
    requires PolicyReference(Started(disk, rules, request).value.1) == Some(policy)
    requires KindIn(disk, policy) == "policy" && Reread(disk, bundle, request.quantization, policy, "policy")
    requires Locate(disk.layout, request.experiment).Some?
    requires KindIn(disk, Locate(disk.layout, request.experiment).value) == request.kind
    ensures Fitting(disk, rules, request, bundle)
  {
    if request.kind == "deployment" {
      assert request.experiment in bundle.overlays;
    }
  }

  lemma ExperimentHermetic(
      disk: Disk, rules: Rules, request: Request, bundle: Bundle, manifest: string,
      absolute: string -> Option<string>)
    requires Ask(request) && Fitting(disk, rules, request, bundle) && Deliverable(disk, rules, request, bundle)
    requires Started(disk, rules, request).value.0.files <= bundle.files
    ensures var reference := Some(Str(request.experiment));
            var found := ResolveOne(disk, rules, request.quantization, reference, request.kind);
            && ResolveOne(Boxed(disk, bundle, manifest, absolute), rules, None, reference, request.kind) == found
            && (found.Ok? ==>
                  && Get(found.value, "components") == Get(Started(disk, rules, request).value.1, "components")
                  && Get(found.value, "resources") == Get(Started(disk, rules, request).value.1, "resources"))
  {
    var doc := Started(disk, rules, request).value.1;
    var word := request.quantization;
    VisitAdds(disk, rules, Bundle({}, map[]), Some(Str(request.experiment)), request.kind);
    if word.Some? && Where(request.kind) != [] {
      assert SetDefaultDeep(doc, Where(request.kind), Str(word.value)).Ok?;
      SetDefaultFrame(doc, Where(request.kind), Str(word.value), ["components"]);
      SetDefaultFrame(doc, Where(request.kind), Str(word.value), ["resources"]);
      assert Lookup(doc, ["components"]) == Get(doc, "components")
          && Lookup(doc, ["resources"]) == Get(doc, "resources");
    }
    ReferenceHermetic(
      disk, rules, bundle, word, manifest, absolute, Bundle({}, map[]), Some(Str(request.experiment)), request.kind);
  }

  /** The last two steps of a build that succeeds: the registry, and the execution profile when there is one. */
  ghost predicate Finished(
      disk: Disk, rules: Rules, before: Bundle, registry: Option<Value>, profile: Option<string>, bundle: Bundle) {
    var found := Visit(disk, rules, before, registry, "resource_registry");
    && found.Ok? && found.value.0.files <= bundle.files
    && (profile.Some? ==> ProfileFound(disk, rules, found.value.0, profile.value, bundle))
  }

  ghost predicate ProfileFound(disk: Disk, rules: Rules, before: Bundle, profile: string, bundle: Bundle) {
    var found := Visit(disk, rules, before, Some(Str(profile)), "execution_profile");
    found.Ok? && found.value.0.files <= bundle.files
  }

  lemma BuildFinishes(disk: Disk, rules: Rules, request: Request)
    requires Build(disk, rules, request).Ok?
    ensures Started(disk, rules, request).Ok? && Equipped(disk, rules, request).Ok?
    ensures Finished(
              disk, rules, Equipped(disk, rules, request).value,
              Lookup(Started(disk, rules, request).value.1, REGISTRY), request.profile,
              Build(disk, rules, request).value)
  {
    var doc, equipped := Started(disk, rules, request).value.1, Equipped(disk, rules, request).value;
    VisitAdds(disk, rules, equipped, Lookup(doc, REGISTRY), "resource_registry");
    if request.profile.Some? {
      var registered := Visit(disk, rules, equipped, Lookup(doc, REGISTRY), "resource_registry").value.0;
      VisitAdds(disk, rules, registered, Some(Str(request.profile.value)), "execution_profile");
    }
  }

  lemma TailHermetic(
      disk: Disk, rules: Rules, bundle: Bundle, word: Option<string>, manifest: string,
      absolute: string -> Option<string>, before: Bundle, profile: Option<string>, registry: Option<Value>)
    requires Finished(disk, rules, before, registry, profile, bundle) && Sealed(disk, bundle, word)
    ensures ResolveTail(Boxed(disk, bundle, manifest, absolute), rules, None, profile, registry)
         == ResolveTail(disk, rules, word, profile, registry)
  {
    PlainReference(disk, rules, bundle, word, manifest, absolute, before, registry, "resource_registry");
    if profile.Some? {
      var registered := Visit(disk, rules, before, registry, "resource_registry").value.0;
      assert ProfileFound(disk, rules, registered, profile.value, bundle);
      PlainReference(
        disk, rules, bundle, word, manifest, absolute, registered, Some(Str(profile.value)), "execution_profile");
    }
  }

  lemma PartsHermetic(
      disk: Disk, rules: Rules, request: Request, bundle: Bundle, manifest: string,
      absolute: string -> Option<string>, experiment: seq<Field>)
    requires Staged(disk, rules, request, bundle) && Fitting(disk, rules, request, bundle)
    requires Get(experiment, "components") == Get(Started(disk, rules, request).value.1, "components")
    ensures ResolveComponents(
              Boxed(disk, bundle, manifest, absolute), rules, None, Components(request.kind), experiment)
         == ResolveComponents(disk, rules, request.quantization, Components(request.kind), experiment)
  {
    var doc := Started(disk, rules, request).value.1;
    ComponentsOrdinary(request.kind);
    ComponentsHermetic(
      disk, rules, bundle, request.quantization, manifest, absolute, Begun(disk, rules, request).value,
      Components(request.kind), doc);
    ComponentsOnly(
      Boxed(disk, bundle, manifest, absolute), rules, None, Components(request.kind), experiment, doc);
    ComponentsOnly(disk, rules, request.quantization, Components(request.kind), experiment, doc);
  }

  /**
   * The resolver in a container that holds nothing but the bundle, wherever it is mounted, finds the documents it would
   * find on the host with the override set in the resolved policy and deployment, and refuses when it would refuse
   * there.
   */
  lemma HermeticBundle(
      disk: Disk, rules: Rules, request: Request, manifest: string, absolute: string -> Option<string>)
    requires TidyReader(disk.codec) && Ask(request) && Build(disk, rules, request).Ok?
    requires Deliverable(disk, rules, request, Build(disk, rules, request).value)
    ensures var box := Boxed(disk, Build(disk, rules, request).value, manifest, absolute);
            Resolve(box, rules, None, request) == Resolve(disk, rules, request.quantization, request)
  {
    var bundle := Build(disk, rules, request).value;
    BuildStages(disk, rules, request);
    BuildFinishes(disk, rules, request);
    BundleFits(disk, rules, request, bundle);
    HermeticParts(disk, rules, request, bundle, manifest, absolute, Equipped(disk, rules, request).value);
  }

  lemma BundleFits(disk: Disk, rules: Rules, request: Request, bundle: Bundle)
    requires TidyReader(disk.codec) && Ask(request) && Deliverable(disk, rules, request, bundle)
    requires Staged(disk, rules, request, bundle)
    ensures Fitting(disk, rules, request, bundle)
  {
    if request.quantization.None? {
      PlainFitting(disk, rules, request, bundle);
    } else {
      QuantizedFitting(disk, rules, request, bundle);
    }
  }

  lemma HermeticParts(
      disk: Disk, rules: Rules, request: Request, bundle: Bundle, manifest: string,
      absolute: string -> Option<string>, equipped: Bundle)
    requires Ask(request) && Deliverable(disk, rules, request, bundle)
    requires Staged(disk, rules, request, bundle) && Fitting(disk, rules, request, bundle)
    requires Finished(
               disk, rules, equipped, Lookup(Started(disk, rules, request).value.1, REGISTRY), request.profile, bundle)
    ensures Resolve(Boxed(disk, bundle, manifest, absolute), rules, None, request)
         == Resolve(disk, rules, request.quantization, request)
  {
    ExperimentHermetic(disk, rules, request, bundle, manifest, absolute);
    var word := request.quantization;
    var found := ResolveOne(disk, rules, word, Some(Str(request.experiment)), request.kind);
    if found.Ok? {
      PartsHermetic(disk, rules, request, bundle, manifest, absolute, found.value);
      var registry := Lookup(Started(disk, rules, request).value.1, REGISTRY);
      assert Lookup(found.value, REGISTRY) == registry;
      TailHermetic(disk, rules, bundle, word, manifest, absolute, equipped, request.profile, registry);
    }
  }

  // ----- with the program's own reader and printer -----

  /** The changed leaf has finite floats, and no text that the line lexer refuses. */
  predicate Writable(disk: Disk, word: Option<string>, reference: string) {
    var kind := KindIn(disk, reference);
    word.Some? && Where(kind) != [] ==>
      var leaf := Requantized(disk, reference, kind, word.value);
      leaf.Ok? ==> Finite(Map(leaf.value)) && Lexable(Map(leaf.value))
  }

  /** An overlay that is printed survives exactly when its leaf is writable. */
  lemma SurvivesExact(disk: Disk, floats: FloatReader, word: string, reference: string)
    requires ReprReader(floats) && disk.codec == Yaml(floats) && Where(KindIn(disk, reference)) != []
    requires var leaf := Requantized(disk, reference, KindIn(disk, reference), word);
             leaf.Ok? && disk.codec.write(leaf.value).Ok?
    ensures Survives(disk, Some(word), reference) <==> Writable(disk, Some(word), reference)
  {
    var path := Locate(disk.layout, reference).value;
    OverlayRereads(floats, disk.tree[path], Where(KindIn(disk, reference)), word);
  }

  /** What a bundle needs when files are read and printed by the program itself. */
  ghost predicate YamlDeliverable(disk: Disk, rules: Rules, request: Request, bundle: Bundle) {
    && Portable(disk, bundle)
    && (forall r :: r in bundle.overlays ==>
          Locate(disk.layout, r) == Some(r) && Writable(disk, request.quantization, r))
    && (request.kind == "deployment" && Locate(disk.layout, request.experiment).Some? ==>
          Roomy(Built(disk, rules, request.kind, Locate(disk.layout, request.experiment).value)))
  }

  lemma WritableSurvives(disk: Disk, floats: FloatReader, word: Option<string>, reference: string)
    requires ReprReader(floats) && disk.codec == Yaml(floats) && Writable(disk, word, reference)
    ensures Survives(disk, word, reference)
  {
    var kind := KindIn(disk, reference);
    if word.Some? && Where(kind) != [] {
      var leaf := Requantized(disk, reference, kind, word.value);
      if leaf.Ok? && disk.codec.write(leaf.value).Ok? {
        SurvivesExact(disk, floats, word.value, reference);
      }
    }
  }

  /** The theorem for the program's own reader and printer, with nothing assumed about either. */
  lemma HermeticYaml(
      disk: Disk, rules: Rules, floats: FloatReader, request: Request, manifest: string,
      absolute: string -> Option<string>)
    requires ReprReader(floats) && disk.codec == Yaml(floats) && Ask(request) && Build(disk, rules, request).Ok?
    requires YamlDeliverable(disk, rules, request, Build(disk, rules, request).value)
    ensures var box := Boxed(disk, Build(disk, rules, request).value, manifest, absolute);
            Resolve(box, rules, None, request) == Resolve(disk, rules, request.quantization, request)
  {
    var bundle := Build(disk, rules, request).value;
    YamlTidy(floats);
    forall r | r in bundle.overlays
      ensures Survives(disk, request.quantization, r)
    {
      WritableSurvives(disk, floats, request.quantization, r);
    }
    HermeticBundle(disk, rules, request, manifest, absolute);
  }
}
