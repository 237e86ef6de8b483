/**
 * Deployments whose files have no parents: whatever their documents say, if the program itself printed the files, an
 * override arrives in the container.
 */
module Standalone {
  import opened Results
  import opened Values
  import opened Scalars
  import opened Blocks
  import opened Documents
  import opened RoundTrip
  import opened Reloading
  import opened Composition
  import opened Chains
  import opened Loaded
  import opened ConfigTree
  import opened Bundles
  import opened YamlFiles
  import opened Hermetic
  import opened Needs
  import opened HermeticExact

  // ----- documents that print, and read back as they are -----

  predicate Plain(fields: seq<Field>, floats: FloatReader) {
    && FieldsPrintable(fields) && FieldsGenuine(fields, floats) && FieldsFinite(fields) && FieldsLexable(fields, false)
  }

  predicate PlainField(key: string, value: Value, floats: FloatReader) {
    && SafeKey(key) && !Marked(key)
    && Printable(value) && Genuine(value, floats) && Finite(value) && Lexable(value)
  }

  lemma PlainMore(key: string, value: Value, rest: seq<Field>, floats: FloatReader)
    requires Plain(rest, floats) && PlainField(key, value, floats)
    ensures Plain([Field(key, value)] + rest, floats)
  {
    var all := [Field(key, value)] + rest;
    assert all[1..] == rest;
  }

  lemma {:induction false} PutPlain(fields: seq<Field>, key: string, value: Value, floats: FloatReader)
    requires Plain(fields, floats) && PlainField(key, value, floats)
    ensures Plain(Put(fields, key, value), floats)
  {
    if fields == [] {
      PlainMore(key, value, [], floats);
      assert Put(fields, key, value) == [Field(key, value)] + [];
    } else if fields[0].key == key {
      PlainMore(key, value, fields[1..], floats);
    } else {
      PutPlain(fields[1..], key, value, floats);
      PlainMore(fields[0].key, fields[0].value, Put(fields[1..], key, value), floats);
    }
  }

  lemma {:induction false} GetPlain(fields: seq<Field>, key: string, floats: FloatReader)
    requires Plain(fields, floats) && Get(fields, key).Some? && Get(fields, key).value.Map?
    ensures Plain(Get(fields, key).value.fields, floats) && UniqueKeys(Get(fields, key).value.fields)
  {
    if fields[0].key != key {
      GetPlain(fields[1..], key, floats);
    } else {
      var v := fields[0].value;
      assert Printable(v) && Genuine(v, floats) && Finite(v) && Lexable(v);
    }
  }

  /** Setting an unbroken word below safe keys keeps a document plain. */
  lemma {:induction false} SetPlain(fields: seq<Field>, path: seq<string>, word: string, floats: FloatReader)
    requires Plain(fields, floats) && UniqueKeys(fields) && Unbroken(word)
    requires path != [] && (forall i :: 0 <= i < |path| ==> SafeKey(path[i]) && !Marked(path[i]))
    requires SetDefaultDeep(fields, path, Str(word)).Ok?
    ensures var changed := SetDefaultDeep(fields, path, Str(word)).value;
            Plain(changed, floats) && UniqueKeys(changed)
    decreases path
  {
    if |path| == 1 {
      PutPlain(fields, path[0], Str(word), floats);
      PutUnique(fields, path[0], Str(word));
    } else {
      var inner: seq<Field> := [];
      if Get(fields, path[0]).Some? {
        GetPlain(fields, path[0], floats);
        inner := Get(fields, path[0]).value.fields;
      }
      SetPlain(inner, path[1..], word, floats);
      var changed := SetDefaultDeep(inner, path[1..], Str(word)).value;
      PutPlain(fields, path[0], Map(changed), floats);
      PutUnique(fields, path[0], Map(changed));
    }
  }

  lemma WhereSafe(kind: string)
    ensures forall i :: 0 <= i < |Where(kind)| ==> SafeKey(Where(kind)[i]) && !Marked(Where(kind)[i])
  {
    LettersSafe("settings");
    LettersSafe("runtime");
    LettersSafe("quantization");
  }

  /** Lower-case words are safe keys and no document markers. */
  lemma LettersSafe(s: string)
    requires s != "" && forall i :: 0 <= i < |s| ==> 'a' <= s[i] <= 'z'
    ensures SafeKey(s) && !Marked(s)
  {
    assert "---"[0] == '-' && "..."[0] == '.' && "%YAML"[0] == '%' && "%TAG"[0] == '%';
  }

  // ----- one file -----

  /** A document without a parent, in a file that the program printed, under its own path. */
  predicate Stands(disk: Disk, rules: Rules, floats: FloatReader, path: string, kind: string, doc: seq<Field>) {
    && Plain(doc, floats) && UniqueKeys(doc) && rules.valid(doc, kind)
    && Get(doc, VERSION) == Some(Str(VersionFor(kind))) && Get(doc, KIND) == Some(Str(kind))
    && Get(doc, EXTENDS).None?
    && path in disk.tree && Dumps(Map(doc)) == Ok(disk.tree[path])
    && path != "" && !Absolute(path) && disk.layout.below(path) == Some(path)
  }

  /** What both loaders make of it. */
  predicate Loads(disk: Disk, rules: Rules, path: string, kind: string, doc: seq<Field>) {
    && path in disk.tree && disk.codec.read(disk.tree[path]) == Ok(doc) && KindIn(disk, path) == kind
    && Strict(disk.layout, Some(Str(path))) == Some(path) && Locate(disk.layout, path) == Some(path)
    && Built(disk, rules, kind, path) == Ok(doc) && Resolved(disk, rules, kind, path) == Ok(doc)
    && Closure(disk, kind, path) == {path} && Movable(disk, path)
  }

  lemma StandsLoads(disk: Disk, rules: Rules, floats: FloatReader, path: string, kind: string, doc: seq<Field>)
    requires disk.codec == Yaml(floats) && Stands(disk, rules, floats, path, kind, doc)
    ensures Loads(disk, rules, path, kind, doc)
  {
    RoundTripExact(Map(doc), floats);
    var built, resolved := ChartOf(disk, Builder(kind)), ChartOf(disk, Resolver(kind));
    assert EntryFor(disk, Builder(kind), path) == Some(Chains.Entry(doc, Root));
    assert EntryFor(disk, Resolver(kind), path) == Some(Chains.Entry(doc, Root));
    assert path in built && built[path].link == Root && path in resolved && resolved[path].link == Root;
  }

  /** The word can be set in the document, and what that gives is accepted, printed and read back. */
  predicate Sets(disk: Disk, rules: Rules, doc: seq<Field>, kind: string, word: string, changed: seq<Field>) {
    && Where(kind) != [] && SetDefaultDeep(doc, Where(kind), Str(word)) == Ok(changed)
    && rules.valid(changed, kind) && disk.codec.write(changed).Ok? && Finite(Map(changed)) && Lexable(Map(changed))
  }

  lemma SetsThere(
      disk: Disk, rules: Rules, floats: FloatReader, doc: seq<Field>, kind: string, word: string, changed: seq<Field>)
    requires disk.codec == Yaml(floats) && Plain(doc, floats) && UniqueKeys(doc) && Unbroken(word)
    requires Where(kind) != [] && SetDefaultDeep(doc, Where(kind), Str(word)) == Ok(changed)
    requires rules.valid(changed, kind)
    ensures Sets(disk, rules, doc, kind, word, changed)
  {
    WhereSafe(kind);
    SetPlain(doc, Where(kind), word, floats);
    RoundTripExact(Map(changed), floats);
  }

  // ----- four files -----

  /** The paths and documents of a deployment: itself, its policy, that policy's action interface, the registry. */
  datatype Four = Four(
    deployment: string, d: seq<Field>, policy: string, p: seq<Field>, action: string, a: seq<Field>,
    registry: string, r: seq<Field>)

  predicate FourLoad(disk: Disk, rules: Rules, four: Four) {
    && Loads(disk, rules, four.deployment, "deployment", four.d) && Loads(disk, rules, four.policy, "policy", four.p)
    && Loads(disk, rules, four.action, "action_interface", four.a)
    && Loads(disk, rules, four.registry, "resource_registry", four.r)
  }

  predicate FourRefer(four: Four) {
    && Lookup(four.d, ["components", "policy"]) == Some(Str(four.policy))
    && Lookup(four.d, REGISTRY) == Some(Str(four.registry)) && Lookup(four.p, ACTION) == Some(Str(four.action))
  }

  function Asked(four: Four, word: string): Request {
    Request(four.deployment, None, Some(word), "deployment")
  }

  lemma FoundPlain(disk: Disk, rules: Rules, word: string, path: string, kind: string, doc: seq<Field>)
    requires Loads(disk, rules, path, kind, doc) && Where(kind) == []
    ensures Found(disk, rules, Some(word), Need(Some(Str(path)), kind)) == Ok(doc)
  {
  }

  lemma FoundChanged(
      disk: Disk, rules: Rules, word: string, path: string, kind: string, doc: seq<Field>, changed: seq<Field>)
    requires Loads(disk, rules, path, kind, doc) && Sets(disk, rules, doc, kind, word, changed)
    ensures Found(disk, rules, Some(word), Need(Some(Str(path)), kind)) == Ok(changed)
  {
  }

  lemma PolicyStep(disk: Disk, rules: Rules, four: Four, word: string, changed: seq<Field>, bundle: Bundle)
    requires FourLoad(disk, rules, four) && FourRefer(four)
    requires Sets(disk, rules, four.p, "policy", word, changed)
    requires SetDeep(four.p, Where("policy"), Str(word)) == Ok(changed)
    ensures AddComponent(disk, rules, Some(word), bundle, "policy", "policy", four.d).Ok?
    ensures ResolveComponent(disk, rules, Some(word), "policy", "policy", four.d) == Ok([changed, four.a])
    ensures ComponentNeeds(disk, rules, Some(word), "policy", "policy", four.d)
         == [Need(Some(Str(four.policy)), "policy"), Need(Some(Str(four.action)), "action_interface")]
  {
    SetDefaultFrame(four.p, Where("policy"), Str(word), ACTION);
    FoundChanged(disk, rules, word, four.policy, "policy", four.p, changed);
    FoundPlain(disk, rules, word, four.action, "action_interface", four.a);
  }

  lemma OnlyPolicy(disk: Disk, rules: Rules, word: Option<string>, bundle: Bundle, d: seq<Field>)
    requires AddComponent(disk, rules, word, bundle, "policy", "policy", d).Ok?
    requires ResolveComponent(disk, rules, word, "policy", "policy", d).Ok?
    ensures AddComponents(disk, rules, word, bundle, Components("deployment"), d).Ok?
    ensures ResolveComponents(disk, rules, word, Components("deployment"), d)
         == ResolveComponent(disk, rules, word, "policy", "policy", d)
    ensures PartsNeeds(disk, rules, word, Components("deployment"), d)
         == ComponentNeeds(disk, rules, word, "policy", "policy", d)
  {
    var wanted := Components("deployment");
    assert wanted == [("policy", "policy")] && wanted[1..] == [];
    assert ResolveComponents(disk, rules, word, wanted[1..], d) == Ok([]);
    var found := ResolveComponent(disk, rules, word, "policy", "policy", d).value;
    assert found + [] == found;
  }

  lemma RegistryStep(disk: Disk, rules: Rules, four: Four, word: string, bundle: Bundle)
    requires FourLoad(disk, rules, four) && FourRefer(four)
    ensures Visit(disk, rules, bundle, Lookup(four.d, REGISTRY), "resource_registry").Ok?
    ensures ResolveTail(disk, rules, Some(word), None, Lookup(four.d, REGISTRY)) == Ok([four.r])
  {
    FoundPlain(disk, rules, word, four.registry, "resource_registry", four.r);
  }

  lemma DeploymentStep(disk: Disk, rules: Rules, four: Four, word: string, changed: seq<Field>)
    requires Loads(disk, rules, four.deployment, "deployment", four.d)
    requires Sets(disk, rules, four.d, "deployment", word, changed)
    ensures var request := Asked(four, word);
            && Started(disk, rules, request).Ok? && Started(disk, rules, request).value.1 == four.d
            && Begun(disk, rules, request).Ok?
  {
    assert Overlay(
        disk, Started(disk, rules, Asked(four, word)).value.0, four.deployment, "deployment", word).Ok?;
  }

  lemma DeploymentFound(disk: Disk, rules: Rules, four: Four, word: string, changed: seq<Field>)
    requires Loads(disk, rules, four.deployment, "deployment", four.d)
    requires Sets(disk, rules, four.d, "deployment", word, changed)
    ensures Experiment(disk, rules, Some(word), Asked(four, word)) == Ok(changed)
  {
    FoundChanged(disk, rules, word, four.deployment, "deployment", four.d, changed);
  }

  /** The word set in the deployment and in the policy gives these two documents. */
  predicate FourSet(disk: Disk, rules: Rules, four: Four, word: string, d: seq<Field>, p: seq<Field>) {
    && FourLoad(disk, rules, four) && FourRefer(four)
    && Sets(disk, rules, four.d, "deployment", word, d) && Sets(disk, rules, four.p, "policy", word, p)
    && SetDeep(four.p, Where("policy"), Str(word)) == Ok(p)
  }

  lemma FourBuild(disk: Disk, rules: Rules, four: Four, word: string, d: seq<Field>, p: seq<Field>)
    requires FourSet(disk, rules, four, word, d, p)
    ensures Build(disk, rules, Asked(four, word)).Ok?
  {
    DeploymentStep(disk, rules, four, word, d);
    var begun := Begun(disk, rules, Asked(four, word)).value;
    PolicyStep(disk, rules, four, word, p, begun);
    OnlyPolicy(disk, rules, Some(word), begun, four.d);
    RegistryStep(
      disk, rules, four, word, AddComponents(disk, rules, Some(word), begun, Components("deployment"), four.d).value);
  }

  /** The components, from the changed deployment as from the deployment itself. */
  lemma FourParts(disk: Disk, rules: Rules, four: Four, word: string, d: seq<Field>, p: seq<Field>)
    requires FourSet(disk, rules, four, word, d, p)
    ensures Experiment(disk, rules, Some(word), Asked(four, word)) == Ok(d)
    ensures Lookup(d, REGISTRY) == Lookup(four.d, REGISTRY)
    ensures ResolveComponents(disk, rules, Some(word), Components("deployment"), d) == Ok([p, four.a])
    ensures PartsNeeds(disk, rules, Some(word), Components("deployment"), d)
         == [Need(Some(Str(four.policy)), "policy"), Need(Some(Str(four.action)), "action_interface")]
  {
    DeploymentStep(disk, rules, four, word, d);
    DeploymentFound(disk, rules, four, word, d);
    ExperimentAgrees(disk, rules, Some(word), Asked(four, word));
    var begun := Begun(disk, rules, Asked(four, word)).value;
    PolicyStep(disk, rules, four, word, p, begun);
    OnlyPolicy(disk, rules, Some(word), begun, four.d);
    ComponentsOnly(disk, rules, Some(word), Components("deployment"), d, four.d);
    PartsOnly(disk, rules, Some(word), Components("deployment"), four.d, d);
  }

  lemma FourResolve(disk: Disk, rules: Rules, four: Four, word: string, d: seq<Field>, p: seq<Field>)
    requires FourSet(disk, rules, four, word, d, p)
    ensures Resolve(disk, rules, Some(word), Asked(four, word)) == Ok([d] + [p, four.a] + [four.r])
    ensures AllNeeds(disk, rules, Some(word), Asked(four, word))
         == [Need(Some(Str(four.deployment)), "deployment")]
            + [Need(Some(Str(four.policy)), "policy"), Need(Some(Str(four.action)), "action_interface")]
            + [Need(Some(Str(four.registry)), "resource_registry")]
  {
    FourParts(disk, rules, four, word, d, p);
    RegistryStep(disk, rules, four, word, Bundle({}, map[]));
    InTurn(
      disk, rules, Asked(four, word), word, d, [p, four.a], [four.r], Str(four.registry),
      [Need(Some(Str(four.policy)), "policy"), Need(Some(Str(four.action)), "action_interface")]);
  }

  lemma InTurn(
      disk: Disk, rules: Rules, request: Request, word: string, d: seq<Field>, parts: seq<seq<Field>>,
      tail: seq<seq<Field>>, registry: Value, needs: seq<Need>)
    requires request.profile.None? && Experiment(disk, rules, Some(word), request) == Ok(d)
    requires ResolveComponents(disk, rules, Some(word), Components(request.kind), d) == Ok(parts)
    requires PartsNeeds(disk, rules, Some(word), Components(request.kind), d) == needs
    requires Lookup(d, REGISTRY) == Some(registry)
    requires ResolveTail(disk, rules, Some(word), None, Some(registry)) == Ok(tail)
    ensures Resolve(disk, rules, Some(word), request) == Ok([d] + parts + tail)
    ensures AllNeeds(disk, rules, Some(word), request)
         == [Need(Some(Str(request.experiment)), request.kind)] + needs + [Need(Some(registry), "resource_registry")]
  {
  }

  lemma OneCarried(disk: Disk, rules: Rules, path: string, kind: string, doc: seq<Field>)
    requires Loads(disk, rules, path, kind, doc) && path != MANIFEST
    ensures Carried(disk, kind, PathOf(disk, Need(Some(Str(path)), kind)))
  {
  }

  lemma FourCarried(disk: Disk, rules: Rules, request: Request, a: Need, b: Need, c: Need, d: Need)
    requires Ask(request) && Build(disk, rules, request).Ok?
    requires Resolve(disk, rules, request.quantization, request).Ok?
    requires AllNeeds(disk, rules, request.quantization, request) == [a] + [b, c] + [d]
    requires Carried(disk, a.kind, PathOf(disk, a)) && Carried(disk, b.kind, PathOf(disk, b))
    requires Carried(disk, c.kind, PathOf(disk, c)) && Carried(disk, d.kind, PathOf(disk, d))
    ensures Portable(disk, Build(disk, rules, request).value)
  {
    forall need | need in AllNeeds(disk, rules, request.quantization, request)
      ensures Carried(disk, need.kind, PathOf(disk, need))
    {
      assert need == a || need == b || need == c || need == d;
    }
    CarriedPortable(disk, rules, request);
  }

  /** Every chain is one file, which can be moved. */
  lemma FourPortable(disk: Disk, rules: Rules, four: Four, word: string, d: seq<Field>, p: seq<Field>)
    requires FourSet(disk, rules, four, word, d, p) && Build(disk, rules, Asked(four, word)).Ok?
    requires MANIFEST !in {four.deployment, four.policy, four.action, four.registry}
    ensures Portable(disk, Build(disk, rules, Asked(four, word)).value)
  {
    FourResolve(disk, rules, four, word, d, p);
    OneCarried(disk, rules, four.deployment, "deployment", four.d);
    OneCarried(disk, rules, four.policy, "policy", four.p);
    OneCarried(disk, rules, four.action, "action_interface", four.a);
    OneCarried(disk, rules, four.registry, "resource_registry", four.r);
    FourCarried(
      disk, rules, Asked(four, word),
      Need(Some(Str(four.deployment)), "deployment"), Need(Some(Str(four.policy)), "policy"),
      Need(Some(Str(four.action)), "action_interface"), Need(Some(Str(four.registry)), "resource_registry"));
  }

  lemma RoomyThere(disk: Disk, rules: Rules, path: string, doc: seq<Field>, word: string, changed: seq<Field>)
    requires Loads(disk, rules, path, "deployment", doc) && Sets(disk, rules, doc, "deployment", word, changed)
    ensures Roomy(Built(disk, rules, "deployment", path))
  {
  }

  lemma LeafWritable(
      disk: Disk, rules: Rules, path: string, kind: string, doc: seq<Field>, word: string, changed: seq<Field>)
    requires Loads(disk, rules, path, kind, doc) && Sets(disk, rules, doc, kind, word, changed)
    ensures Writable(disk, Some(word), path)
  {
  }

  lemma TwoDeliver(disk: Disk, rules: Rules, request: Request, bundle: Bundle, policy: string)
    requires Portable(disk, bundle) && bundle.overlays.Keys == {policy} + {request.experiment}
    requires Locate(disk.layout, policy) == Some(policy) && Writable(disk, request.quantization, policy)
    requires Locate(disk.layout, request.experiment) == Some(request.experiment)
    requires Writable(disk, request.quantization, request.experiment)
    requires Roomy(Built(disk, rules, request.kind, request.experiment))
    ensures YamlDeliverable(disk, rules, request, bundle)
  {
  }

  lemma FourDelivers(disk: Disk, rules: Rules, four: Four, word: string, d: seq<Field>, p: seq<Field>)
    requires FourSet(disk, rules, four, word, d, p) && Build(disk, rules, Asked(four, word)).Ok?
    requires MANIFEST !in {four.deployment, four.policy, four.action, four.registry}
    ensures YamlDeliverable(disk, rules, Asked(four, word), Build(disk, rules, Asked(four, word)).value)
  {
    FourPortable(disk, rules, four, word, d, p);
    RoomyThere(disk, rules, four.deployment, four.d, word, d);
    FourOverlays(disk, rules, four, word, d);
    LeafWritable(disk, rules, four.deployment, "deployment", four.d, word, d);
    LeafWritable(disk, rules, four.policy, "policy", four.p, word, p);
    TwoDeliver(disk, rules, Asked(four, word), Build(disk, rules, Asked(four, word)).value, four.policy);
  }

  lemma FourOverlays(disk: Disk, rules: Rules, four: Four, word: string, d: seq<Field>)
    requires FourLoad(disk, rules, four) && FourRefer(four) && Sets(disk, rules, four.d, "deployment", word, d)
    requires Build(disk, rules, Asked(four, word)).Ok?
    ensures Build(disk, rules, Asked(four, word)).value.overlays.Keys == {four.policy} + {four.deployment}
  {
    DeploymentStep(disk, rules, four, word, d);
    OverlayKeys(disk, rules, Asked(four, word), four.policy);
  }

  lemma OverlayKeys(disk: Disk, rules: Rules, request: Request, policy: string)
    requires request.kind == "deployment" && request.quantization.Some? && Build(disk, rules, request).Ok?
    requires Started(disk, rules, request).Ok?
    requires Lookup(Started(disk, rules, request).value.1, ["components", "policy"]) == Some(Str(policy))
    ensures Build(disk, rules, request).value.overlays.Keys == {policy} + {request.experiment}
  {
    BuildOverlays(disk, rules, request);
  }

  /**
   * A deployment of four files without parents, which the program printed, is built, and its container, told nothing
   * of the override, finds the deployment and the policy with the word set and the other two as they are, wherever the
   * bundle is mounted.
   */
  lemma OverrideArrives(
      disk: Disk, rules: Rules, floats: FloatReader, four: Four, word: string, manifest: string,
      absolute: string -> Option<string>)
    requires ReprReader(floats) && disk.codec == Yaml(floats) && Unbroken(word)
    requires Stands(disk, rules, floats, four.deployment, "deployment", four.d)
    requires Stands(disk, rules, floats, four.policy, "policy", four.p)
    requires Stands(disk, rules, floats, four.action, "action_interface", four.a)
    requires Stands(disk, rules, floats, four.registry, "resource_registry", four.r) && FourRefer(four)
    requires MANIFEST !in {four.deployment, four.policy, four.action, four.registry}
    requires var d, p := SetDefaultDeep(four.d, Where("deployment"), Str(word)),
                         SetDeep(four.p, Where("policy"), Str(word));
             d.Ok? && p.Ok? && rules.valid(d.value, "deployment") && rules.valid(p.value, "policy")
    ensures var d, p := SetDefaultDeep(four.d, Where("deployment"), Str(word)).value,
                        SetDeep(four.p, Where("policy"), Str(word)).value;
            var build := Build(disk, rules, Asked(four, word));
            && build.Ok? && build.value.files <= disk.tree.Keys
            && Resolve(Boxed(disk, build.value, manifest, absolute), rules, None, Asked(four, word))
               == Ok([d] + [p, four.a] + [four.r])
  {
    var d, p := SetDefaultDeep(four.d, Where("deployment"), Str(word)).value,
                SetDeep(four.p, Where("policy"), Str(word)).value;
    StandsLoads(disk, rules, floats, four.deployment, "deployment", four.d);
    StandsLoads(disk, rules, floats, four.policy, "policy", four.p);
    StandsLoads(disk, rules, floats, four.action, "action_interface", four.a);
    StandsLoads(disk, rules, floats, four.registry, "resource_registry", four.r);
    SetDeepIsDefault(four.p, Where("policy"), Str(word));
    SetsThere(disk, rules, floats, four.d, "deployment", word, d);
    SetsThere(disk, rules, floats, four.p, "policy", word, p);
    FourArrives(disk, rules, floats, four, word, d, p, manifest, absolute);
  }

  lemma FourArrives(
      disk: Disk, rules: Rules, floats: FloatReader, four: Four, word: string, d: seq<Field>, p: seq<Field>,
      manifest: string, absolute: string -> Option<string>)
    requires ReprReader(floats) && disk.codec == Yaml(floats) && FourSet(disk, rules, four, word, d, p)
    requires MANIFEST !in {four.deployment, four.policy, four.action, four.registry}
    ensures var build := Build(disk, rules, Asked(four, word));
            && build.Ok? && build.value.files <= disk.tree.Keys
            && Resolve(Boxed(disk, build.value, manifest, absolute), rules, None, Asked(four, word))
               == Ok([d] + [p, four.a] + [four.r])
  {
    FourBuild(disk, rules, four, word, d, p);
    FourResolve(disk, rules, four, word, d, p);
    FourDelivers(disk, rules, four, word, d, p);
    HermeticYaml(disk, rules, floats, Asked(four, word), manifest, absolute);
  }
}
