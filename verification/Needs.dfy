/** The documents a run needs, as the builder visits them and as the resolver asks for them. */
module Needs {
  import opened Results
  import opened Values
  import opened Composition
  import opened Chains
  import opened ConfigTree
  import opened Bundles
  import opened Hermetic

  /** A document asked for by reference. */
  datatype Need = Need(reference: Option<Value>, kind: string)

  function Found(disk: Disk, rules: Rules, word: Option<string>, need: Need): Result<seq<Field>> {
    ResolveOne(disk, rules, word, need.reference, need.kind)
  }

  /** The box gives, without being told of the override, what the host gives with it. */
  predicate Same(box: Disk, disk: Disk, rules: Rules, word: Option<string>, need: Need) {
    Found(box, rules, None, need) == Found(disk, rules, word, need)
  }

  ghost predicate AllSame(box: Disk, disk: Disk, rules: Rules, word: Option<string>, needs: seq<Need>) {
    forall need :: need in needs ==> Same(box, disk, rules, word, need)
  }

  function ComponentNeeds(
      disk: Disk, rules: Rules, word: Option<string>, name: string, kind: string, experiment: seq<Field>)
    : seq<Need>
    requires ResolveComponent(disk, rules, word, name, kind, experiment).Ok?
  {
    var component := Need(Lookup(experiment, ["components", name]), kind);
    if name != "policy" then [component]
    else [component, Need(Lookup(Found(disk, rules, word, component).value, ACTION), "action_interface")]
  }

  function PartsNeeds(
      disk: Disk, rules: Rules, word: Option<string>, wanted: seq<(string, string)>, experiment: seq<Field>): seq<Need>
    requires ResolveComponents(disk, rules, word, wanted, experiment).Ok?
  {
    if wanted == [] then []
    else
      ComponentNeeds(disk, rules, word, wanted[0].0, wanted[0].1, experiment)
      + PartsNeeds(disk, rules, word, wanted[1..], experiment)
  }

  function TailNeeds(profile: Option<string>, registry: Option<Value>): seq<Need> {
    [Need(registry, "resource_registry")]
    + if profile.None? then [] else [Need(Some(Str(profile.value)), "execution_profile")]
  }

  function Experiment(disk: Disk, rules: Rules, word: Option<string>, request: Request): Result<seq<Field>> {
    Found(disk, rules, word, Need(Some(Str(request.experiment)), request.kind))
  }

  function AllNeeds(disk: Disk, rules: Rules, word: Option<string>, request: Request): seq<Need>
    requires Resolve(disk, rules, word, request).Ok?
  {
    var experiment := Experiment(disk, rules, word, request).value;
    [Need(Some(Str(request.experiment)), request.kind)]
    + PartsNeeds(disk, rules, word, Components(request.kind), experiment)
    + TailNeeds(request.profile, Lookup(experiment, REGISTRY))
  }

  // ----- what the resolver asks for -----

  lemma ComponentSame(
      box: Disk, disk: Disk, rules: Rules, word: Option<string>, name: string, kind: string, experiment: seq<Field>)
    requires ResolveComponent(disk, rules, word, name, kind, experiment).Ok?
    ensures ResolveComponent(box, rules, None, name, kind, experiment)
            == ResolveComponent(disk, rules, word, name, kind, experiment)
       <==> AllSame(box, disk, rules, word, ComponentNeeds(disk, rules, word, name, kind, experiment))
    ensures ResolveComponent(box, rules, None, name, kind, experiment).Ok? ==>
              |ResolveComponent(box, rules, None, name, kind, experiment).value|
              == |ResolveComponent(disk, rules, word, name, kind, experiment).value|
  {
    var component := Need(Lookup(experiment, ["components", name]), kind);
    if name == "policy" {
      var action := Need(Lookup(Found(disk, rules, word, component).value, ACTION), "action_interface");
      SameBoth(box, disk, rules, word, component, action);
    } else {
      SameBoth(box, disk, rules, word, component, component);
    }
  }

  lemma PartsEqual<T>(a: seq<T>, b: seq<T>, c: seq<T>, d: seq<T>)
    requires |a| == |c|
    ensures a + b == c + d <==> a == c && b == d
  {
    if a + b == c + d {
      assert a == (a + b)[..|a|] == c && b == (a + b)[|a|..] == d;
    }
  }

  lemma {:induction false} ComponentsSame(
      box: Disk, disk: Disk, rules: Rules, word: Option<string>, wanted: seq<(string, string)>, experiment: seq<Field>)
    requires ResolveComponents(disk, rules, word, wanted, experiment).Ok?
    ensures ResolveComponents(box, rules, None, wanted, experiment)
            == ResolveComponents(disk, rules, word, wanted, experiment)
       <==> AllSame(box, disk, rules, word, PartsNeeds(disk, rules, word, wanted, experiment))
    ensures ResolveComponents(box, rules, None, wanted, experiment).Ok? ==>
              |ResolveComponents(box, rules, None, wanted, experiment).value|
              == |ResolveComponents(disk, rules, word, wanted, experiment).value|
    decreases |wanted|
  {
    if wanted != [] {
      ComponentSame(box, disk, rules, word, wanted[0].0, wanted[0].1, experiment);
      ComponentsSame(box, disk, rules, word, wanted[1..], experiment);
      var there := ResolveComponent(box, rules, None, wanted[0].0, wanted[0].1, experiment);
      var others := ResolveComponents(box, rules, None, wanted[1..], experiment);
      if there.Ok? && others.Ok? {
        PartsEqual(
          there.value, others.value,
          ResolveComponent(disk, rules, word, wanted[0].0, wanted[0].1, experiment).value,
          ResolveComponents(disk, rules, word, wanted[1..], experiment).value);
      }
    }
  }

  lemma SameBoth(box: Disk, disk: Disk, rules: Rules, word: Option<string>, a: Need, b: Need)
    ensures AllSame(box, disk, rules, word, [a]) <==> Same(box, disk, rules, word, a)
    ensures AllSame(box, disk, rules, word, [a, b]) <==>
            Same(box, disk, rules, word, a) && Same(box, disk, rules, word, b)
  {
    assert [a][0] == a && [a, b][0] == a && [a, b][1] == b;
  }

  lemma TailSame(
      box: Disk, disk: Disk, rules: Rules, word: Option<string>, profile: Option<string>, registry: Option<Value>)
    requires ResolveTail(disk, rules, word, profile, registry).Ok?
    ensures ResolveTail(box, rules, None, profile, registry) == ResolveTail(disk, rules, word, profile, registry)
       <==> AllSame(box, disk, rules, word, TailNeeds(profile, registry))
  {
    var first := Need(registry, "resource_registry");
    if profile.Some? {
      var second := Need(Some(Str(profile.value)), "execution_profile");
      SameBoth(box, disk, rules, word, first, second);
      assert TailNeeds(profile, registry) == [first, second];
      TailOfTwo(box, disk, rules, word, profile.value, registry);
    } else {
      SameBoth(box, disk, rules, word, first, first);
      assert TailNeeds(profile, registry) == [first];
    }
  }

  lemma TailOfTwo(
      box: Disk, disk: Disk, rules: Rules, word: Option<string>, profile: string, registry: Option<Value>)
    requires ResolveTail(disk, rules, word, Some(profile), registry).Ok?
    ensures ResolveTail(box, rules, None, Some(profile), registry)
            == ResolveTail(disk, rules, word, Some(profile), registry)
       <==> && Same(box, disk, rules, word, Need(registry, "resource_registry"))
            && Same(box, disk, rules, word, Need(Some(Str(profile)), "execution_profile"))
  {
  }

  lemma SameInTurn(
      box: Disk, disk: Disk, rules: Rules, word: Option<string>, first: Need, a: seq<Need>, b: seq<Need>)
    ensures AllSame(box, disk, rules, word, [first] + a + b) <==>
            && Same(box, disk, rules, word, first) && AllSame(box, disk, rules, word, a)
            && AllSame(box, disk, rules, word, b)
  {
    assert ([first] + a + b)[0] == first;
  }

  /** A box resolves a run as the host does exactly when it does so for each document the run needs. */
  lemma ResolveSame(box: Disk, disk: Disk, rules: Rules, word: Option<string>, request: Request)
    requires Resolve(disk, rules, word, request).Ok?
    ensures Resolve(box, rules, None, request) == Resolve(disk, rules, word, request)
       <==> AllSame(box, disk, rules, word, AllNeeds(disk, rules, word, request))
  {
    var experiment := Experiment(disk, rules, word, request).value;
    var registry := Lookup(experiment, REGISTRY);
    SameInTurn(
      box, disk, rules, word, Need(Some(Str(request.experiment)), request.kind),
      PartsNeeds(disk, rules, word, Components(request.kind), experiment), TailNeeds(request.profile, registry));
    ComponentsSame(box, disk, rules, word, Components(request.kind), experiment);
    TailSame(box, disk, rules, word, request.profile, registry);
    ResolveInTurn(box, disk, rules, word, request, experiment);
  }

  lemma ResolveInTurn(
      box: Disk, disk: Disk, rules: Rules, word: Option<string>, request: Request, experiment: seq<Field>)
    requires Resolve(disk, rules, word, request).Ok? && Experiment(disk, rules, word, request) == Ok(experiment)
    requires ResolveComponents(box, rules, None, Components(request.kind), experiment).Ok? ==>
               |ResolveComponents(box, rules, None, Components(request.kind), experiment).value|
               == |ResolveComponents(disk, rules, word, Components(request.kind), experiment).value|
    ensures Resolve(box, rules, None, request) == Resolve(disk, rules, word, request)
       <==> && Experiment(box, rules, None, request) == Ok(experiment)
            && ResolveComponents(box, rules, None, Components(request.kind), experiment)
               == ResolveComponents(disk, rules, word, Components(request.kind), experiment)
            && ResolveTail(box, rules, None, request.profile, Lookup(experiment, REGISTRY))
               == ResolveTail(disk, rules, word, request.profile, Lookup(experiment, REGISTRY))
  {
    var components := ResolveComponents(disk, rules, word, Components(request.kind), experiment).value;
    var tail := ResolveTail(disk, rules, word, request.profile, Lookup(experiment, REGISTRY)).value;
    if Resolve(box, rules, None, request) == Resolve(disk, rules, word, request) {
      var there := Experiment(box, rules, None, request).value;
      assert there == Resolve(box, rules, None, request).value[0] == experiment;
      var parts := ResolveComponents(box, rules, None, Components(request.kind), experiment).value;
      var rest := ResolveTail(box, rules, None, request.profile, Lookup(experiment, REGISTRY)).value;
      PartsEqual([experiment] + parts, rest, [experiment] + components, tail);
      PartsEqual([experiment], parts, [experiment], components);
    }
  }

  // ----- what the builder visits -----

  function PathOf(disk: Disk, need: Need): string {
    match Strict(disk.layout, need.reference)
    case Some(path) => path
    case None => ""
  }

  /** The builder has visited the document, and the host resolves it. */
  ghost predicate Visited(disk: Disk, rules: Rules, word: Option<string>, files: set<string>, need: Need) {
    var path := PathOf(disk, need);
    && Found(disk, rules, word, need).Ok? && Locate(disk.layout, need.reference.value.s) == Some(path)
    && Built(disk, rules, need.kind, path).Ok? && Resolved(disk, rules, need.kind, path).Ok?
    && Closure(disk, need.kind, path) <= files
  }

  ghost predicate AllVisited(disk: Disk, rules: Rules, word: Option<string>, files: set<string>, needs: seq<Need>) {
    forall need :: need in needs ==> Visited(disk, rules, word, files, need)
  }

  /** Every file selected on the way is on the chain of something that was needed. */
  ghost predicate Comes(disk: Disk, before: set<string>, after: set<string>, needs: seq<Need>) {
    && before <= after
    && forall p :: p in after ==> p in before || NeededBy(disk, needs, p)
  }

  ghost predicate NeededBy(disk: Disk, needs: seq<Need>, p: string) {
    exists need :: need in needs && p in Closure(disk, need.kind, PathOf(disk, need))
  }

  lemma HostAgrees(disk: Disk, rules: Rules, kind: string, path: string)
    requires Built(disk, rules, kind, path).Ok? && Resolved(disk, rules, kind, path).Ok?
    ensures Resolved(disk, rules, kind, path) == Built(disk, rules, kind, path)
  {
    var guide, one := ChartOf(disk, Builder(kind)), ChartOf(disk, Resolver(kind));
    forall p | p in Closure(disk, kind, path)
      ensures Alike(guide, one, one, p)
    {
      assert EntryFor(disk, Resolver(kind), p).Some? ==>
               EntryFor(disk, Resolver(kind), p) == EntryFor(disk, Builder(kind), p);
    }
    ComposeIsLocal(guide, one, one, ChecksOf(rules, kind), path, {});
  }

  lemma VisitNeed(disk: Disk, rules: Rules, word: Option<string>, before: Bundle, need: Need)
    requires Visit(disk, rules, before, need.reference, need.kind).Ok? && Found(disk, rules, word, need).Ok?
    ensures var (after, doc) := Visit(disk, rules, before, need.reference, need.kind).value;
            && Visited(disk, rules, word, after.files, need)
            && Comes(disk, before.files, after.files, [need])
            && Found(disk, rules, word, need)
               == if word.None? || Where(need.kind) == [] then Ok(doc)
                  else SetDefaultDeep(doc, Where(need.kind), Str(word.value))
  {
    HostAgrees(disk, rules, need.kind, PathOf(disk, need));
    assert [need][0] == need;
  }

  lemma ComesInTurn(disk: Disk, a: set<string>, b: set<string>, c: set<string>, first: seq<Need>, second: seq<Need>)
    requires Comes(disk, a, b, first) && Comes(disk, b, c, second)
    ensures Comes(disk, a, c, first + second)
  {
    forall p | p in c && p !in a
      ensures NeededBy(disk, first + second, p)
    {
      if p in b {
        assert NeededBy(disk, first, p);
        var need :| need in first && p in Closure(disk, need.kind, PathOf(disk, need));
        assert need in first + second;
      } else {
        assert NeededBy(disk, second, p);
        var need :| need in second && p in Closure(disk, need.kind, PathOf(disk, need));
        assert need in first + second;
      }
    }
  }

  lemma VisitedInTurn(
      disk: Disk, rules: Rules, word: Option<string>, b: set<string>, c: set<string>, first: seq<Need>,
      second: seq<Need>)
    requires AllVisited(disk, rules, word, b, first) && AllVisited(disk, rules, word, c, second) && b <= c
    ensures AllVisited(disk, rules, word, c, first + second)
  {
    forall need | need in first + second
      ensures Visited(disk, rules, word, c, need)
    {
      assert need in first || need in second;
    }
  }

  /** What a step of the build leaves: it has visited these documents, and selected files for no others. */
  ghost predicate Steps(
      disk: Disk, rules: Rules, word: Option<string>, before: set<string>, after: set<string>, needs: seq<Need>)
  {
    AllVisited(disk, rules, word, after, needs) && Comes(disk, before, after, needs)
  }

  lemma StepsInTurn(
      disk: Disk, rules: Rules, word: Option<string>, a: set<string>, b: set<string>, c: set<string>,
      first: seq<Need>, second: seq<Need>)
    requires Steps(disk, rules, word, a, b, first) && Steps(disk, rules, word, b, c, second)
    ensures Steps(disk, rules, word, a, c, first + second)
  {
    ComesInTurn(disk, a, b, c, first, second);
    VisitedInTurn(disk, rules, word, b, c, first, second);
  }

  lemma VisitSteps(disk: Disk, rules: Rules, word: Option<string>, before: Bundle, need: Need)
    requires Visit(disk, rules, before, need.reference, need.kind).Ok? && Found(disk, rules, word, need).Ok?
    ensures var after := Visit(disk, rules, before, need.reference, need.kind).value.0;
            Steps(disk, rules, word, before.files, after.files, [need])
  {
    VisitNeed(disk, rules, word, before, need);
  }

  lemma ComponentSteps(
      disk: Disk, rules: Rules, word: Option<string>, before: Bundle, name: string, kind: string,
      experiment: seq<Field>)
    requires if name == "policy" then kind == "policy" else Where(kind) == []
    requires AddComponent(disk, rules, word, before, name, kind, experiment).Ok?
    requires ResolveComponent(disk, rules, word, name, kind, experiment).Ok?
    ensures Steps(
              disk, rules, word, before.files,
              AddComponent(disk, rules, word, before, name, kind, experiment).value.files,
              ComponentNeeds(disk, rules, word, name, kind, experiment))
  {
    var component := Need(Lookup(experiment, ["components", name]), kind);
    VisitNeed(disk, rules, word, before, component);
    VisitSteps(disk, rules, word, before, component);
    if name == "policy" {
      var (visited, doc) := Visit(disk, rules, before, component.reference, kind).value;
      PolicySteps(disk, rules, word, visited, component.reference.value.s, doc);
      var action := Need(Lookup(Found(disk, rules, word, component).value, ACTION), "action_interface");
      StepsInTurn(
        disk, rules, word, before.files, visited.files,
        AddPolicy(disk, rules, word, visited, component.reference.value.s, doc).value.files, [component], [action]);
      assert [component] + [action] == [component, action];
    }
  }

  /** The action interface the builder follows is the one the resolver finds in the changed policy. */
  lemma PolicySteps(
      disk: Disk, rules: Rules, word: Option<string>, visited: Bundle, reference: string, doc: seq<Field>)
    requires AddPolicy(disk, rules, word, visited, reference, doc).Ok?
    requires word.Some? ==> SetDefaultDeep(doc, Where("policy"), Str(word.value)).Ok?
    requires var changed := if word.None? then doc else SetDefaultDeep(doc, Where("policy"), Str(word.value)).value;
             Found(disk, rules, word, Need(Lookup(changed, ACTION), "action_interface")).Ok?
    ensures var changed := if word.None? then doc else SetDefaultDeep(doc, Where("policy"), Str(word.value)).value;
            Steps(
              disk, rules, word, visited.files, AddPolicy(disk, rules, word, visited, reference, doc).value.files,
              [Need(Lookup(changed, ACTION), "action_interface")])
  {
    if word.None? {
      VisitSteps(disk, rules, word, visited, Need(Lookup(doc, ACTION), "action_interface"));
    } else {
      SetDeepIsDefault(doc, Where("policy"), Str(word.value));
      var changed := SetDeep(doc, Where("policy"), Str(word.value)).value;
      var overlaid := Overlay(disk, visited, reference, "policy", word.value).value;
      VisitSteps(disk, rules, word, overlaid, Need(Lookup(changed, ACTION), "action_interface"));
    }
  }

  lemma {:induction false} PartsSteps(
      disk: Disk, rules: Rules, word: Option<string>, before: Bundle, wanted: seq<(string, string)>,
      experiment: seq<Field>)
    requires Ordinary(wanted) && AddComponents(disk, rules, word, before, wanted, experiment).Ok?
    requires ResolveComponents(disk, rules, word, wanted, experiment).Ok?
    ensures Steps(
              disk, rules, word, before.files,
              AddComponents(disk, rules, word, before, wanted, experiment).value.files,
              PartsNeeds(disk, rules, word, wanted, experiment))
    decreases |wanted|
  {
    if wanted != [] {
      ComponentSteps(disk, rules, word, before, wanted[0].0, wanted[0].1, experiment);
      var added := AddComponent(disk, rules, word, before, wanted[0].0, wanted[0].1, experiment).value;
      PartsSteps(disk, rules, word, added, wanted[1..], experiment);
      StepsInTurn(
        disk, rules, word, before.files, added.files,
        AddComponents(disk, rules, word, added, wanted[1..], experiment).value.files,
        ComponentNeeds(disk, rules, word, wanted[0].0, wanted[0].1, experiment),
        PartsNeeds(disk, rules, word, wanted[1..], experiment));
    }
  }

  /** Only what the experiment says under `components` matters to what its components need. */
  lemma {:induction false} PartsOnly(
      disk: Disk, rules: Rules, word: Option<string>, wanted: seq<(string, string)>, a: seq<Field>, b: seq<Field>)
    requires Get(a, "components") == Get(b, "components") && ResolveComponents(disk, rules, word, wanted, a).Ok?
    ensures ResolveComponents(disk, rules, word, wanted, b).Ok?
    ensures PartsNeeds(disk, rules, word, wanted, a) == PartsNeeds(disk, rules, word, wanted, b)
    decreases |wanted|
  {
    ComponentsOnly(disk, rules, word, wanted, a, b);
    if wanted != [] {
      assert Lookup(a, ["components", wanted[0].0]) == Lookup(b, ["components", wanted[0].0]);
      PartsOnly(disk, rules, word, wanted[1..], a, b);
    }
  }

  /** The override does not touch what the experiment says about its components and resources. */
  lemma ExperimentAgrees(disk: Disk, rules: Rules, word: Option<string>, request: Request)
    requires Ask(request) && Started(disk, rules, request).Ok? && Experiment(disk, rules, word, request).Ok?
    ensures var doc, found := Started(disk, rules, request).value.1, Experiment(disk, rules, word, request).value;
            && Get(found, "components") == Get(doc, "components") && Get(found, "resources") == Get(doc, "resources")
  {
    var need := Need(Some(Str(request.experiment)), request.kind);
    VisitNeed(disk, rules, word, Bundle({}, map[]), need);
    var doc := Started(disk, rules, request).value.1;
    if word.Some? && Where(request.kind) != [] {
      SetDefaultFrame(doc, Where(request.kind), Str(word.value), ["components"]);
      SetDefaultFrame(doc, Where(request.kind), Str(word.value), ["resources"]);
      var found := SetDefaultDeep(doc, Where(request.kind), Str(word.value)).value;
      assert Lookup(found, ["components"]) == Get(found, "components")
          && Lookup(found, ["resources"]) == Get(found, "resources");
    }
  }

  lemma TailSteps(
      disk: Disk, rules: Rules, word: Option<string>, before: Bundle, profile: Option<string>,
      registry: Option<Value>)
    requires ResolveTail(disk, rules, word, profile, registry).Ok?
    requires Visit(disk, rules, before, registry, "resource_registry").Ok?
    requires profile.Some? ==>
               Visit(disk, rules, Visit(disk, rules, before, registry, "resource_registry").value.0,
                     Some(Str(profile.value)), "execution_profile").Ok?
    ensures var registered := Visit(disk, rules, before, registry, "resource_registry").value.0;
            var after := if profile.None? then registered
                         else Visit(disk, rules, registered, Some(Str(profile.value)), "execution_profile").value.0;
            Steps(disk, rules, word, before.files, after.files, TailNeeds(profile, registry))
  {
    var first := Need(registry, "resource_registry");
    VisitSteps(disk, rules, word, before, first);
    if profile.Some? {
      var registered := Visit(disk, rules, before, registry, "resource_registry").value.0;
      var second := Need(Some(Str(profile.value)), "execution_profile");
      VisitSteps(disk, rules, word, registered, second);
      StepsInTurn(
        disk, rules, word, before.files, registered.files,
        Visit(disk, rules, registered, second.reference, second.kind).value.0.files, [first], [second]);
    } else {
      assert TailNeeds(profile, registry) == [first];
    }
  }

  /**
   * A build and a host resolution that both succeed go through the same documents, and the files selected are those of
   * their chains.
   */
  lemma BuildSteps(disk: Disk, rules: Rules, request: Request)
    requires Ask(request) && Build(disk, rules, request).Ok?
    requires Resolve(disk, rules, request.quantization, request).Ok?
    ensures Steps(
              disk, rules, request.quantization, {}, Build(disk, rules, request).value.files,
              AllNeeds(disk, rules, request.quantization, request))
  {
    BuildStages(disk, rules, request);
    PartsBuilt(disk, rules, request);
    TailBuilt(disk, rules, request);
    var word := request.quantization;
    var found := Experiment(disk, rules, word, request).value;
    var first := Need(Some(Str(request.experiment)), request.kind);
    var parts := PartsNeeds(disk, rules, word, Components(request.kind), found);
    var begun, equipped := Begun(disk, rules, request).value, Equipped(disk, rules, request).value;
    VisitSteps(disk, rules, word, Bundle({}, map[]), first);
    StepsInTurn(disk, rules, word, {}, begun.files, equipped.files, [first], parts);
    StepsInTurn(
      disk, rules, word, {}, equipped.files, Build(disk, rules, request).value.files, [first] + parts,
      TailNeeds(request.profile, Lookup(found, REGISTRY)));
  }

  lemma PartsBuilt(disk: Disk, rules: Rules, request: Request)
    requires Ask(request) && Started(disk, rules, request).Ok? && Equipped(disk, rules, request).Ok?
    requires Resolve(disk, rules, request.quantization, request).Ok?
    ensures var word := request.quantization;
            Steps(
              disk, rules, word, Begun(disk, rules, request).value.files, Equipped(disk, rules, request).value.files,
              PartsNeeds(
                disk, rules, word, Components(request.kind), Experiment(disk, rules, word, request).value))
  {
    var word := request.quantization;
    var doc, found := Started(disk, rules, request).value.1, Experiment(disk, rules, word, request).value;
    ExperimentAgrees(disk, rules, word, request);
    PartsOnly(disk, rules, word, Components(request.kind), found, doc);
    ComponentsOrdinary(request.kind);
    PartsSteps(disk, rules, word, Begun(disk, rules, request).value, Components(request.kind), doc);
  }

  lemma TailBuilt(disk: Disk, rules: Rules, request: Request)
    requires Ask(request) && Build(disk, rules, request).Ok? && Started(disk, rules, request).Ok?
    requires Equipped(disk, rules, request).Ok? && Resolve(disk, rules, request.quantization, request).Ok?
    ensures var word := request.quantization;
            Steps(
              disk, rules, word, Equipped(disk, rules, request).value.files,
              Build(disk, rules, request).value.files,
              TailNeeds(request.profile, Lookup(Experiment(disk, rules, word, request).value, REGISTRY)))
  {
    var word := request.quantization;
    ExperimentAgrees(disk, rules, word, request);
    var doc := Started(disk, rules, request).value.1;
    assert Lookup(Experiment(disk, rules, word, request).value, REGISTRY) == Lookup(doc, REGISTRY);
    TailSteps(
      disk, rules, word, Equipped(disk, rules, request).value, request.profile, Lookup(doc, REGISTRY));
  }

  // ----- the documents by name -----

  lemma {:induction false} PartsInTurn(
      disk: Disk, rules: Rules, word: Option<string>, name: string, kind: string, rest: seq<(string, string)>,
      experiment: seq<Field>)
    requires ResolveComponents(disk, rules, word, [(name, kind)] + rest, experiment).Ok?
    ensures ResolveComponent(disk, rules, word, name, kind, experiment).Ok?
    ensures ResolveComponents(disk, rules, word, rest, experiment).Ok?
    ensures PartsNeeds(disk, rules, word, [(name, kind)] + rest, experiment)
         == ComponentNeeds(disk, rules, word, name, kind, experiment) + PartsNeeds(disk, rules, word, rest, experiment)
  {
    var wanted := [(name, kind)] + rest;
    assert wanted[0] == (name, kind) && wanted[1..] == rest;
  }

  /** The component an experiment names under a key. */
  function Named(experiment: seq<Field>, name: string, kind: string): Need {
    Need(Lookup(experiment, ["components", name]), kind)
  }

  lemma NamedFirst(
      disk: Disk, rules: Rules, word: Option<string>, name: string, kind: string, rest: seq<(string, string)>,
      experiment: seq<Field>)
    requires name != "policy" && ResolveComponents(disk, rules, word, [(name, kind)] + rest, experiment).Ok?
    ensures ResolveComponents(disk, rules, word, rest, experiment).Ok?
    ensures PartsNeeds(disk, rules, word, [(name, kind)] + rest, experiment)
         == [Named(experiment, name, kind)] + PartsNeeds(disk, rules, word, rest, experiment)
  {
    PartsInTurn(disk, rules, word, name, kind, rest, experiment);
  }

  lemma PolicyComponent(disk: Disk, rules: Rules, word: Option<string>, experiment: seq<Field>)
    requires ResolveComponent(disk, rules, word, "policy", "policy", experiment).Ok?
    ensures Found(disk, rules, word, Named(experiment, "policy", "policy")).Ok?
    ensures ComponentNeeds(disk, rules, word, "policy", "policy", experiment)
         == [Named(experiment, "policy", "policy"),
             Need(
               Lookup(
                 Found(disk, rules, word, Named(experiment, "policy", "policy")).value,
                 ["settings", "action", "action_interface"]),
               "action_interface")]
  {
  }

  const LAST := [("metrics", "metric_set"), ("protocol", "protocol"), ("artifacts", "artifact_store")]

  lemma LastParts(disk: Disk, rules: Rules, word: Option<string>, experiment: seq<Field>)
    requires ResolveComponents(disk, rules, word, LAST, experiment).Ok?
    ensures PartsNeeds(disk, rules, word, LAST, experiment)
         == [Named(experiment, "metrics", "metric_set"), Named(experiment, "protocol", "protocol"),
             Named(experiment, "artifacts", "artifact_store")]
  {
    var one := [("artifacts", "artifact_store")];
    var two := [("protocol", "protocol")] + one;
    assert LAST == [("metrics", "metric_set")] + two;
    NamedFirst(disk, rules, word, "metrics", "metric_set", two, experiment);
    NamedFirst(disk, rules, word, "protocol", "protocol", one, experiment);
    assert one == one + [];
    NamedFirst(disk, rules, word, "artifacts", "artifact_store", [], experiment);
  }

  lemma ListedParts(disk: Disk, rules: Rules, word: Option<string>, experiment: seq<Field>)
    requires ResolveComponents(disk, rules, word, Components("experiment"), experiment).Ok?
    ensures ResolveComponent(disk, rules, word, "policy", "policy", experiment).Ok?
    ensures ResolveComponents(disk, rules, word, LAST, experiment).Ok?
    ensures PartsNeeds(disk, rules, word, Components("experiment"), experiment)
         == [Named(experiment, "benchmark", "benchmark")]
            + (ComponentNeeds(disk, rules, word, "policy", "policy", experiment)
               + PartsNeeds(disk, rules, word, LAST, experiment))
  {
    assert Components("experiment") == [("benchmark", "benchmark")] + ([("policy", "policy")] + LAST);
    NamedFirst(disk, rules, word, "benchmark", "benchmark", [("policy", "policy")] + LAST, experiment);
    PartsInTurn(disk, rules, word, "policy", "policy", LAST, experiment);
  }

  lemma PolicyParts(disk: Disk, rules: Rules, word: Option<string>, experiment: seq<Field>)
    requires ResolveComponents(disk, rules, word, Components("deployment"), experiment).Ok?
    ensures ResolveComponent(disk, rules, word, "policy", "policy", experiment).Ok?
    ensures PartsNeeds(disk, rules, word, Components("deployment"), experiment)
         == ComponentNeeds(disk, rules, word, "policy", "policy", experiment)
  {
    assert Components("deployment") == [("policy", "policy")] + [];
    PartsInTurn(disk, rules, word, "policy", "policy", [], experiment);
  }

  /**
   * The documents of a run: the experiment or deployment itself; of an experiment its benchmark, metrics, protocol and
   * artifact store; of both the policy with the action interface its settings name.
   */
  function Equipment(kind: string, experiment: seq<Field>, policy: seq<Field>): seq<Need> {
    var pair := [
      Named(experiment, "policy", "policy"),
      Need(Lookup(policy, ["settings", "action", "action_interface"]), "action_interface")];
    if kind == "deployment" then pair
    else
      [Named(experiment, "benchmark", "benchmark")]
      + (pair
         + [Named(experiment, "metrics", "metric_set"), Named(experiment, "protocol", "protocol"),
            Named(experiment, "artifacts", "artifact_store")])
  }

  lemma EquipmentByName(disk: Disk, rules: Rules, word: Option<string>, kind: string, experiment: seq<Field>)
    requires kind == "experiment" || kind == "deployment"
    requires ResolveComponents(disk, rules, word, Components(kind), experiment).Ok?
    ensures Found(disk, rules, word, Named(experiment, "policy", "policy")).Ok?
    ensures PartsNeeds(disk, rules, word, Components(kind), experiment)
         == Equipment(kind, experiment, Found(disk, rules, word, Named(experiment, "policy", "policy")).value)
  {
    if kind == "deployment" {
      PolicyParts(disk, rules, word, experiment);
      PolicyComponent(disk, rules, word, experiment);
    } else {
      ListedParts(disk, rules, word, experiment);
      LastParts(disk, rules, word, experiment);
      PolicyComponent(disk, rules, word, experiment);
    }
  }

  /** What a run needs, by name; besides its equipment, the resource registry, and a profile when one is asked for. */
  lemma NeedsByName(disk: Disk, rules: Rules, word: Option<string>, request: Request)
    requires Resolve(disk, rules, word, request).Ok?
    requires request.kind == "experiment" || request.kind == "deployment"
    ensures var experiment := Experiment(disk, rules, word, request).value;
            var policy := Found(disk, rules, word, Named(experiment, "policy", "policy"));
            && policy.Ok?
            && AllNeeds(disk, rules, word, request)
               == [Need(Some(Str(request.experiment)), request.kind)]
                  + Equipment(request.kind, experiment, policy.value)
                  + ([Need(Lookup(experiment, ["resources", "registry"]), "resource_registry")]
                     + if request.profile.None? then []
                       else [Need(Some(Str(request.profile.value)), "execution_profile")])
  {
    EquipmentByName(disk, rules, word, request.kind, Experiment(disk, rules, word, request).value);
  }
}
