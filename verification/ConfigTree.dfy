/** Configuration files on disk, and the three loaders that resolve `extends` chains over them. */
module ConfigTree {
  import opened Results
  import opened Values
  import opened Composition
  import opened Chains

  /** The regular files below the configuration root, by normalized path, and their text. */
  type Tree = map<string, string>

  /** What a reference means: beside a file, below the root, or absolute. The last depends on where the root is. */
  datatype Layout = Layout(
    beside: (string, string) -> Option<string>,
    below: string -> Option<string>,
    absolute: string -> Option<string>)

  /** What the loaders rely on and do not define: Python's `==`, and the schema. */
  datatype Rules = Rules(same: (Value, Value) -> bool, valid: (seq<Field>, string) -> bool)

  /** Reading a document's fields from text, and printing them; `Yaml` in YamlFiles is the program's own. */
  datatype Codec = Codec(read: string -> Result<seq<Field>>, write: seq<Field> -> Result<string>)

  /** A configuration root: its files, where they are, and how they read. */
  datatype Disk = Disk(tree: Tree, layout: Layout, codec: Codec)

  /** `resolver.py`, `config_bundle.py` and `training_composition.py`. */
  datatype Loader = Resolver(kind: string) | Builder(kind: string) | Training

  const KIND := "kind"
  const TYPE := "type"
  const VERSION := "schema_version"

  predicate Absolute(reference: string) {
    "/" <= reference
  }

  function GetOrNull(fields: seq<Field>, key: string): Value {
    if Get(fields, key).None? then Null else Get(fields, key).value
  }

  function VersionFor(kind: string): string {
    if kind == "deployment" then "ovlab.deployment/v1" else "0.1.0"
  }

  /** The header a loader asks for before it looks at `extends`. */
  predicate Admits(loader: Loader, raw: seq<Field>) {
    match loader
    case Resolver(kind) => Get(raw, VERSION) == Some(Str(VersionFor(kind))) && Get(raw, KIND) == Some(Str(kind))
    case Builder(kind) => Get(raw, KIND) == Some(Str(kind))
    case Training => true
  }

  function ChecksOf(rules: Rules, kind: string): Checks {
    Checks((raw, parent) => rules.same(GetOrNull(raw, TYPE), GetOrNull(parent, TYPE)), doc => rules.valid(doc, kind))
  }

  function TrainingChecks(rules: Rules): Checks {
    Checks(
      (raw, parent) => Get(raw, VERSION).Some? ==> rules.same(Get(raw, VERSION).value, GetOrNull(parent, VERSION)),
      doc => true)
  }

  function LinkOf(layout: Layout, loader: Loader, path: string, raw: seq<Field>): Link {
    match Get(raw, EXTENDS)
    case None => Root
    case Some(Null) => Root
    case Some(Str(reference)) =>
      if reference == "" || (loader.Training? && Absolute(reference)) then Broken
      else
        var found := if Absolute(reference) then layout.absolute(reference) else layout.beside(path, reference);
        if found.None? then Broken else Parent(found.value)
    case _ => Broken
  }

  /** What a loader makes of one file's text. */
  function EntryFor(disk: Disk, loader: Loader, path: string): Option<Entry> {
    if path !in disk.tree then None
    else
      var raw := disk.codec.read(disk.tree[path]);
      if raw.Ok? && Admits(loader, raw.value) then Some(Entry(raw.value, LinkOf(disk.layout, loader, path, raw.value)))
      else None
  }

  function ChartOf(disk: Disk, loader: Loader): (chart: Chart)
    ensures forall p :: p in chart <==> EntryFor(disk, loader, p).Some?
    ensures forall p :: p in chart ==> EntryFor(disk, loader, p) == Some(chart[p]) && p in disk.tree
  {
    map p | p in disk.tree && EntryFor(disk, loader, p).Some? :: EntryFor(disk, loader, p).value
  }

  /** `_load_composed(path, kind)` of the resolver. */
  function Resolved(disk: Disk, rules: Rules, kind: string, path: string): Result<seq<Field>> {
    Compose(ChartOf(disk, Resolver(kind)), ChecksOf(rules, kind), path, {})
  }

  /** `_extends_closure(path, kind)` of the bundle builder, and the files it selects. */
  function Built(disk: Disk, rules: Rules, kind: string, path: string): Result<seq<Field>> {
    Compose(ChartOf(disk, Builder(kind)), ChecksOf(rules, kind), path, {})
  }

  function Closure(disk: Disk, kind: string, path: string): set<string> {
    Chain(ChartOf(disk, Builder(kind)), path, {})
  }

  /** `load_training_document(path)`. */
  function TrainingDocument(disk: Disk, rules: Rules, path: string): Result<seq<Field>> {
    Compose(ChartOf(disk, Training), TrainingChecks(rules), path, {})
  }

  /**
   * What a training document's chain of files makes of it: from the root ancestor on, each document keeps the schema
   * version it finds below it if it states one, and is merged over what is there. Nothing else resolves.
   */
  lemma TrainingIsFold(disk: Disk, rules: Rules, path: string, doc: seq<Field>)
    ensures TrainingDocument(disk, rules, path) == Ok(doc)
       <==> exists ps :: Composes(ChartOf(disk, Training), TrainingChecks(rules), path, ps, doc)
  {
    ComposeIsFold(ChartOf(disk, Training), TrainingChecks(rules), path, doc);
  }

  // ----- moving a configuration root -----

  /** A file whose `extends` does not depend on where the root is. */
  predicate Movable(disk: Disk, path: string) {
    path in disk.tree && disk.codec.read(disk.tree[path]).Ok? ==>
      match Get(disk.codec.read(disk.tree[path]).value, EXTENDS)
      case Some(Str(reference)) => !Absolute(reference)
      case _ => true
  }

  /** The same root mounted elsewhere, holding other files: absolute references mean something else there. */
  function Mounted(disk: Disk, tree: Tree, absolute: string -> Option<string>): Disk {
    Disk(tree, disk.layout.(absolute := absolute), disk.codec)
  }

  predicate SameFile(tree: Tree, other: Tree, path: string) {
    path in tree && path in other && tree[path] == other[path]
  }

  lemma EntryMoves(disk: Disk, tree: Tree, absolute: string -> Option<string>, kind: string, path: string)
    requires SameFile(disk.tree, tree, path) && Movable(disk, path)
    ensures Alike(
              ChartOf(disk, Builder(kind)), ChartOf(disk, Resolver(kind)),
              ChartOf(Mounted(disk, tree, absolute), Resolver(kind)), path)
  {
    var there := Mounted(disk, tree, absolute);
    assert EntryFor(there, Resolver(kind), path) == EntryFor(disk, Resolver(kind), path);
    if EntryFor(disk, Resolver(kind), path).Some? {
      assert EntryFor(disk, Builder(kind), path) == EntryFor(disk, Resolver(kind), path);
    }
  }

  ghost predicate Carries(disk: Disk, tree: Tree, files: set<string>) {
    forall p :: p in files ==> SameFile(disk.tree, tree, p) && Movable(disk, p)
  }

  /**
   * What the builder has resolved, the resolver resolves the same way, or refuses the same way, from any mounted copy
   * of just the files the builder selected.
   */
  lemma ResolvedIsLocal(
      disk: Disk, rules: Rules, tree: Tree, absolute: string -> Option<string>, kind: string, path: string)
    requires Built(disk, rules, kind, path).Ok? && Carries(disk, tree, Closure(disk, kind, path))
    ensures Resolved(Mounted(disk, tree, absolute), rules, kind, path) == Resolved(disk, rules, kind, path)
    ensures Resolved(disk, rules, kind, path).Ok? ==>
              Resolved(disk, rules, kind, path) == Built(disk, rules, kind, path)
  {
    var guide, one := ChartOf(disk, Builder(kind)), ChartOf(disk, Resolver(kind));
    var other := ChartOf(Mounted(disk, tree, absolute), Resolver(kind));
    forall p | p in Closure(disk, kind, path)
      ensures Alike(guide, one, other, p)
    {
      EntryMoves(disk, tree, absolute, kind, p);
    }
    ComposeIsLocal(guide, one, other, ChecksOf(rules, kind), path, {});
  }

  /** Every file the builder selects for a kind says it is of that kind. */
  lemma ClosureKind(disk: Disk, kind: string, path: string, file: string)
    requires file in Closure(disk, kind, path)
    ensures file in disk.tree && disk.codec.read(disk.tree[file]).Ok?
    ensures Get(disk.codec.read(disk.tree[file]).value, KIND) == Some(Str(kind))
  {
    ChainFiles(ChartOf(disk, Builder(kind)), path, {});
    assert EntryFor(disk, Builder(kind), file).Some?;
  }

  /** An absolute `extends` that resolves in place and is refused once the same files are mounted elsewhere. */
  lemma AbsoluteExtendsStays(
      disk: Disk, rules: Rules, tree: Tree, absolute: string -> Option<string>, kind: string, path: string,
      reference: string)
    requires path in tree && disk.codec.read(tree[path]).Ok?
    requires Get(disk.codec.read(tree[path]).value, EXTENDS) == Some(Str(reference))
    requires Absolute(reference) && absolute(reference).None?
    ensures Resolved(Mounted(disk, tree, absolute), rules, kind, path).Err?
  {
    var there := Mounted(disk, tree, absolute);
    var chart := ChartOf(there, Resolver(kind));
    if path in chart {
      assert EntryFor(there, Resolver(kind), path) == Some(chart[path]);
      assert chart[path].link == Broken;
    }
  }
}
