/** The bundle builder as it runs: one selection and one table of overlays, filled while the chains are resolved. */
module BundleBuilder {
  import opened Results
  import opened Values
  import opened Composition
  import opened Chains
  import opened ConfigTree
  import opened Bundles

  class ConfigBundleBuilder {
    const disk: Disk
    const rules: Rules
    var selected: set<string>
    var overlays: map<string, string>

    constructor (disk: Disk, rules: Rules)
      ensures this.disk == disk && this.rules == rules
    {
      this.disk, this.rules := disk, rules;
      selected, overlays := {}, map[];
    }

    function State(): Bundle
      reads this
    {
      Bundle(selected, overlays)
    }

    /** `_extends_closure`, once the path is known. */
    method ExtendsClosure(path: string, kind: string, stack: set<string>) returns (r: Result<seq<Field>>)
      modifies this`selected
      ensures r == Compose(ChartOf(disk, Builder(kind)), ChecksOf(rules, kind), path, stack)
      ensures old(selected) <= selected
      ensures r.Ok? ==> selected == old(selected) + Chain(ChartOf(disk, Builder(kind)), path, stack)
      decreases disk.tree.Keys - stack
    {
      ghost var chart := ChartOf(disk, Builder(kind));
      if path in stack || path !in disk.tree {
        return Err;
      }
      var document := disk.codec.read(disk.tree[path]);
      if document.Err? || Get(document.value, KIND) != Some(Str(kind)) {
        return Err;
      }
      var raw := document.value;
      assert EntryFor(disk, Builder(kind), path) == Some(chart[path]);
      selected := selected + {path};
      var resolved := raw;
      match LinkOf(disk.layout, Builder(kind), path, raw) {
        case Broken =>
          return Err;
        case Root =>
        case Parent(next) =>
          var parent := ExtendsClosure(next, kind, stack + {path});
          if parent.Err? || !rules.same(GetOrNull(raw, TYPE), GetOrNull(parent.value, TYPE)) {
            return Err;
          }
          resolved := MergeDocuments(parent.value, raw);
      }
      return if rules.valid(resolved, kind) then Ok(resolved) else Err;
    }

    /** One document asked for by reference; its files join the selection. */
    method Collect(reference: Option<Value>, kind: string) returns (r: Result<seq<Field>>)
      modifies this`selected
      ensures var visit := Visit(disk, rules, old(State()), reference, kind);
              && (r.Ok? <==> visit.Ok?)
              && (r.Ok? ==> State() == visit.value.0 && r.value == visit.value.1)
    {
      if reference.None? || !reference.value.Str? {
        return Err;
      }
      var path := Locate(disk.layout, reference.value.s);
      if path.None? {
        return Err;
      }
      r := ExtendsClosure(path.value, kind, {});
    }

    /** Load the leaf again, set the field, and file the printed text under the reference. */
    method OverlayLeaf(reference: string, kind: string, word: string) returns (ok: bool)
      requires Where(kind) != []
      modifies this`overlays
      ensures var overlaid := Overlay(disk, old(State()), reference, kind, word);
              && (ok <==> overlaid.Ok?) && (ok ==> State() == overlaid.value)
    {
      var leaf := Requantized(disk, reference, kind, word);
      if leaf.Err? {
        return false;
      }
      var text := disk.codec.write(leaf.value);
      if text.Err? {
        return false;
      }
      overlays := overlays[reference := text.value];
      return true;
    }

    /**
     * The policy's own steps: override and check the resolved policy, overlay its leaf, follow its action interface.
     */
    method AddPolicyParts(reference: string, component: seq<Field>, word: Option<string>) returns (ok: bool)
      modifies this
      ensures var added := AddPolicy(disk, rules, word, old(State()), reference, component);
              && (ok <==> added.Ok?) && (ok ==> State() == added.value)
    {
      var settled := component;
      if word.Some? {
        var changed := SetDeep(component, Where("policy"), Str(word.value));
        if changed.Err? || !rules.valid(changed.value, "policy") {
          return false;
        }
        settled := changed.value;
        var overlaid := OverlayLeaf(reference, "policy", word.value);
        if !overlaid {
          return false;
        }
      }
      var action := Collect(Lookup(settled, ACTION), "action_interface");
      return action.Ok?;
    }

    method AddAll(wanted: seq<(string, string)>, experiment: seq<Field>, word: Option<string>) returns (ok: bool)
      modifies this
      ensures var added := AddComponents(disk, rules, word, old(State()), wanted, experiment);
              && (ok <==> added.Ok?) && (ok ==> State() == added.value)
    {
      assert wanted[0..] == wanted;
      for i := 0 to |wanted|
        invariant AddComponents(disk, rules, word, State(), wanted[i..], experiment)
               == AddComponents(disk, rules, word, old(State()), wanted, experiment)
      {
        assert wanted[i..][0] == wanted[i] && wanted[i..][1..] == wanted[i + 1..];
        var (name, kind) := wanted[i];
        var reference := Lookup(experiment, ["components", name]);
        var component := Collect(reference, kind);
        if component.Err? {
          return false;
        }
        if name == "policy" {
          var added := AddPolicyParts(reference.value.s, component.value, word);
          if !added {
            return false;
          }
        }
      }
      return true;
    }

    /** `build`: what it selects and overlays, whatever an earlier build left behind. */
    method BuildBundle(request: Request) returns (r: Result<Bundle>)
      modifies this
      ensures r == Build(disk, rules, request)
    {
      selected, overlays := {}, map[];
      var experiment := Collect(Some(Str(request.experiment)), request.kind);
      if experiment.Err? {
        return Err;
      }
      if request.kind == "deployment" && request.quantization.Some? {
        var overlaid := OverlayLeaf(request.experiment, "deployment", request.quantization.value);
        if !overlaid {
          return Err;
        }
      }
      var added := AddAll(Components(request.kind), experiment.value, request.quantization);
      if !added {
        return Err;
      }
      var registry := Collect(Lookup(experiment.value, REGISTRY), "resource_registry");
      if registry.Err? {
        return Err;
      }
      if request.profile.Some? {
        var profile := Collect(Some(Str(request.profile.value)), "execution_profile");
        if profile.Err? {
          return Err;
        }
      }
      return Ok(State());
    }
  }

  /** `materialize`: write each selected file, its overlay where there is one, and the manifest last. */
  method Materialize(tree: Tree, bundle: Bundle, manifest: string) returns (root: Tree)
    requires bundle.files <= tree.Keys
    ensures root == Materialized(tree, bundle, manifest)
    ensures ".ovlab-bundle.json" in root && root[".ovlab-bundle.json"] == manifest
  {
    root := map[];
    var left := bundle.files;
    while left != {}
      invariant left <= bundle.files && root.Keys == bundle.files - left
      invariant forall p :: p in root ==> root[p] == if p in bundle.overlays then bundle.overlays[p] else tree[p]
      decreases left
    {
      var relative :| relative in left;
      root := root[relative := if relative in bundle.overlays then bundle.overlays[relative] else tree[relative]];
      left := left - {relative};
    }
    root := root[MANIFEST := manifest];
  }
}
