/** Chains of `extends`. */
module Chains {
  // A document is resolved by merging it over its resolved parent, with a stack against cycles.

  import opened Results
  import opened Values
  import opened Composition

  /** What a document's `extends` says: nothing, another file, or something refused. */
  datatype Link = Root | Parent(path: string) | Broken

  datatype Entry = Entry(raw: seq<Field>, link: Link)

  /** The files that load and carry the header the loader asks for. */
  type Chart = map<string, Entry>

  /** What a loader checks of a document against its resolved parent, and of the merged result. */
  datatype Checks = Checks(fits: (seq<Field>, seq<Field>) -> bool, accepts: seq<Field> -> bool)

  /** The recursion of all three loaders; `stack` holds the files being resolved. */
  function Compose(chart: Chart, checks: Checks, path: string, stack: set<string>): Result<seq<Field>>
    decreases chart.Keys - stack
  {
    if path in stack || path !in chart then Err
    else
      var raw := chart[path].raw;
      match chart[path].link
      case Broken => Err
      case Root => if checks.accepts(raw) then Ok(raw) else Err
      case Parent(next) =>
        var parent :- Compose(chart, checks, next, stack + {path});
        var doc := Merge(parent, raw);
        if checks.fits(raw, parent) && checks.accepts(doc) then Ok(doc) else Err
  }

  // ----- the chain a document stands on -----

  predicate Linked(chart: Chart, ps: seq<string>, i: nat)
    requires i < |ps|
  {
    ps[i] in chart && chart[ps[i]].link == if i == 0 then Root else Parent(ps[i - 1])
  }

  /** The files of a chain, the root ancestor first: each one's parent is the one before it. */
  ghost predicate Lineage(chart: Chart, ps: seq<string>) {
    ps != [] && forall i :: 0 <= i < |ps| ==> Linked(chart, ps, i)
  }

  function Raws(chart: Chart, ps: seq<string>): (raws: seq<seq<Field>>)
    requires forall i :: 0 <= i < |ps| ==> ps[i] in chart
    ensures |raws| == |ps| && forall i :: 0 <= i < |raws| ==> raws[i] == chart[ps[i]].raw
  {
    if ps == [] then [] else [chart[ps[0]].raw] + Raws(chart, ps[1..])
  }

  /** The left fold of merges, each document over the result so far. */
  function Folded(base: seq<Field>, over: seq<seq<Field>>): seq<Field>
    decreases |over|
  {
    if over == [] then base else Folded(Merge(base, over[0]), over[1..])
  }

  function Composite(raws: seq<seq<Field>>): seq<Field>
    requires raws != []
  {
    Folded(raws[0], raws[1..])
  }

  /** The document after the first `i` of a chain passes the checks against what is below it. */
  predicate CheckedAt(checks: Checks, raws: seq<seq<Field>>, i: nat)
    requires i < |raws|
  {
    (i > 0 ==> checks.fits(raws[i], Composite(raws[..i]))) && checks.accepts(Composite(raws[..i + 1]))
  }

  ghost predicate Checked(checks: Checks, raws: seq<seq<Field>>) {
    forall i :: 0 <= i < |raws| ==> CheckedAt(checks, raws, i)
  }

  lemma {:induction false} FoldedLast(base: seq<Field>, over: seq<seq<Field>>, last: seq<Field>)
    ensures Folded(base, over + [last]) == Merge(Folded(base, over), last)
    decreases |over|
  {
    if over == [] {
      assert over + [last] == [last];
    } else {
      assert (over + [last])[1..] == over[1..] + [last];
      FoldedLast(Merge(base, over[0]), over[1..], last);
    }
  }

  lemma LineagePrefix(chart: Chart, ps: seq<string>, n: nat)
    requires Lineage(chart, ps) && 0 < n <= |ps|
    ensures Lineage(chart, ps[..n])
  {
    forall i | 0 <= i < n
      ensures Linked(chart, ps[..n], i)
    {
      assert Linked(chart, ps, i);
    }
  }

  /** A file has at most one lineage. */
  lemma {:induction false} SameLineage(chart: Chart, ps: seq<string>, qs: seq<string>)
    requires Lineage(chart, ps) && Lineage(chart, qs) && ps[|ps| - 1] == qs[|qs| - 1]
    ensures ps == qs
    decreases |ps|
  {
    assert Linked(chart, ps, |ps| - 1) && Linked(chart, qs, |qs| - 1);
    if |ps| > 1 && |qs| > 1 {
      LineagePrefix(chart, ps, |ps| - 1);
      LineagePrefix(chart, qs, |qs| - 1);
      SameLineage(chart, ps[..|ps| - 1], qs[..|qs| - 1]);
      assert ps == ps[..|ps| - 1] + [ps[|ps| - 1]] && qs == qs[..|qs| - 1] + [qs[|qs| - 1]];
    }
  }

  lemma LineageDistinct(chart: Chart, ps: seq<string>, i: nat, j: nat)
    requires Lineage(chart, ps) && i < j < |ps|
    ensures ps[i] != ps[j]
  {
    if ps[i] == ps[j] {
      LineagePrefix(chart, ps, i + 1);
      LineagePrefix(chart, ps, j + 1);
      SameLineage(chart, ps[..i + 1], ps[..j + 1]);
    }
  }

  ghost predicate Avoids(ps: seq<string>, stack: set<string>) {
    forall i :: 0 <= i < |ps| ==> ps[i] !in stack
  }

  ghost predicate Charted(chart: Chart, ps: seq<string>) {
    forall i :: 0 <= i < |ps| ==> ps[i] in chart
  }

  /** `ps` is the chain below `path`, every prefix passes the checks, and merging it gives `doc`. */
  ghost predicate Composes(chart: Chart, checks: Checks, path: string, ps: seq<string>, doc: seq<Field>) {
    && Lineage(chart, ps) && ps[|ps| - 1] == path && Charted(chart, ps)
    && Checked(checks, Raws(chart, ps)) && Composite(Raws(chart, ps)) == doc
  }

  lemma RawsGrow(chart: Chart, base: seq<string>, path: string)
    requires Charted(chart, base) && path in chart
    ensures Charted(chart, base + [path])
    ensures Raws(chart, base + [path]) == Raws(chart, base) + [chart[path].raw]
  {
  }

  lemma LineageGrows(chart: Chart, base: seq<string>, path: string)
    requires base != [] && path in chart && chart[path].link == Parent(base[|base| - 1])
    ensures Lineage(chart, base) <==> Lineage(chart, base + [path])
  {
    var all := base + [path];
    assert Linked(chart, all, |base|);
    assert forall i :: 0 <= i < |base| ==> Linked(chart, all, i) == Linked(chart, base, i);
    if Lineage(chart, all) {
      forall i | 0 <= i < |base|
        ensures Linked(chart, base, i)
      {
        assert Linked(chart, all, i);
      }
    }
  }

  lemma CheckedGrows(checks: Checks, raws: seq<seq<Field>>, raw: seq<Field>)
    requires raws != []
    ensures Composite(raws + [raw]) == Merge(Composite(raws), raw)
    ensures Checked(checks, raws + [raw])
       <==> Checked(checks, raws) && checks.fits(raw, Composite(raws)) && checks.accepts(Merge(Composite(raws), raw))
  {
    var all := raws + [raw];
    assert all[1..] == raws[1..] + [raw];
    FoldedLast(raws[0], raws[1..], raw);
    assert all[..|raws|] == raws && all[..|raws| + 1] == all;
    forall i | 0 <= i < |raws|
      ensures CheckedAt(checks, all, i) == CheckedAt(checks, raws, i)
    {
      assert all[..i] == raws[..i] && all[..i + 1] == raws[..i + 1];
    }
    if Checked(checks, all) {
      assert CheckedAt(checks, all, |raws|);
      forall i | 0 <= i < |raws|
        ensures CheckedAt(checks, raws, i)
      {
        assert CheckedAt(checks, all, i);
      }
    }
  }

  lemma CheckedOne(checks: Checks, raw: seq<Field>)
    ensures Composite([raw]) == raw && (Checked(checks, [raw]) <==> checks.accepts(raw))
  {
    assert [raw][..1] == [raw];
    if Checked(checks, [raw]) {
      assert CheckedAt(checks, [raw], 0);
    }
  }

  lemma {:induction false} ComposeWalks(chart: Chart, checks: Checks, path: string, stack: set<string>)
    returns (ps: seq<string>)
    requires Compose(chart, checks, path, stack).Ok?
    ensures Avoids(ps, stack)
    ensures Composes(chart, checks, path, ps, Compose(chart, checks, path, stack).value)
    decreases chart.Keys - stack
  {
    match chart[path].link
    case Root =>
      ps := [path];
      assert Linked(chart, ps, 0);
      CheckedOne(checks, chart[path].raw);
    case Parent(next) =>
      var base := ComposeWalks(chart, checks, next, stack + {path});
      ps := base + [path];
      LineageGrows(chart, base, path);
      RawsGrow(chart, base, path);
      CheckedGrows(checks, Raws(chart, base), chart[path].raw);
  }

  lemma {:induction false} LineageComposes(chart: Chart, checks: Checks, ps: seq<string>, stack: set<string>)
    requires Lineage(chart, ps) && Charted(chart, ps) && Avoids(ps, stack) && Checked(checks, Raws(chart, ps))
    ensures Compose(chart, checks, ps[|ps| - 1], stack) == Ok(Composite(Raws(chart, ps)))
    decreases |ps|
  {
    var n := |ps| - 1;
    assert Linked(chart, ps, n);
    var base, last := ps[..n], ps[n];
    assert ps == base + [last];
    assert last !in stack;
    if n == 0 {
      assert Raws(chart, ps) == [chart[last].raw];
      CheckedOne(checks, chart[last].raw);
    } else {
      assert chart[last].link == Parent(base[n - 1]);
      LineageGrows(chart, base, last);
      RawsGrow(chart, base, last);
      CheckedGrows(checks, Raws(chart, base), chart[last].raw);
      forall i | 0 <= i < n
        ensures base[i] !in stack + {last}
      {
        LineageDistinct(chart, ps, i, n);
      }
      LineageComposes(chart, checks, base, stack + {last});
    }
  }

  /**
   * Resolving a document succeeds exactly when its chain of parents ends in a root and every prefix passes the checks,
   * and then the result is the left fold of merges from the root ancestor to the leaf.
   */
  lemma ComposeIsFold(chart: Chart, checks: Checks, path: string, doc: seq<Field>)
    ensures Compose(chart, checks, path, {}) == Ok(doc) <==> exists ps :: Composes(chart, checks, path, ps, doc)
  {
    if Compose(chart, checks, path, {}) == Ok(doc) {
      var ps := ComposeWalks(chart, checks, path, {});
    }
    if ps :| Composes(chart, checks, path, ps, doc) {
      LineageComposes(chart, checks, ps, {});
    }
  }

  /** A walk from a file up its chain. */
  ghost predicate Climbs(chart: Chart, ws: seq<string>) {
    forall i :: 0 <= i < |ws| - 1 ==> ClimbsAt(chart, ws, i)
  }

  predicate ClimbsAt(chart: Chart, ws: seq<string>, i: nat)
    requires i < |ws| - 1
  {
    ws[i] in chart && chart[ws[i]].link == Parent(ws[i + 1])
  }

  lemma {:induction false} ClimbMeetsLineage(chart: Chart, ws: seq<string>, ps: seq<string>, k: nat)
    requires Lineage(chart, ps) && Climbs(chart, ws) && k < |ws| && ws[0] == ps[|ps| - 1]
    ensures k < |ps| && ws[k] == ps[|ps| - 1 - k]
    decreases k
  {
    if k > 0 {
      ClimbMeetsLineage(chart, ws, ps, k - 1);
      assert ClimbsAt(chart, ws, k - 1) && Linked(chart, ps, |ps| - k);
    }
  }

  /** A chain that comes back to one of its files is refused, whatever it holds. */
  lemma CycleRefused(chart: Chart, checks: Checks, ws: seq<string>, i: nat, j: nat, stack: set<string>)
    requires Climbs(chart, ws) && i < j < |ws| && ws[i] == ws[j]
    ensures Compose(chart, checks, ws[0], stack).Err?
  {
    if Compose(chart, checks, ws[0], stack).Ok? {
      var ps := ComposeWalks(chart, checks, ws[0], stack);
      ClimbMeetsLineage(chart, ws, ps, i);
      ClimbMeetsLineage(chart, ws, ps, j);
      LineageDistinct(chart, ps, |ps| - 1 - j, |ps| - 1 - i);
    }
  }

  // ----- which files a document depends on -----

  /** The files resolving one document visits. */
  function Chain(chart: Chart, path: string, stack: set<string>): set<string>
    decreases chart.Keys - stack
  {
    if path in stack || path !in chart then {}
    else
      match chart[path].link
      case Parent(next) => {path} + Chain(chart, next, stack + {path})
      case _ => {path}
  }

  lemma {:induction false} ChainFiles(chart: Chart, path: string, stack: set<string>)
    ensures Chain(chart, path, stack) !! stack && Chain(chart, path, stack) <= chart.Keys
    decreases chart.Keys - stack
  {
    if path !in stack && path in chart && chart[path].link.Parent? {
      ChainFiles(chart, chart[path].link.path, stack + {path});
    }
  }

  /** Two charts agree on a file, and list it only as `guide` does. */
  predicate Alike(guide: Chart, one: Chart, other: Chart, p: string) {
    && (p in one <==> p in other)
    && (p in one ==> p in guide && one[p] == other[p] == guide[p])
  }

  ghost predicate AlikeOn(guide: Chart, one: Chart, other: Chart, files: set<string>) {
    forall p :: p in files ==> Alike(guide, one, other, p)
  }

  /**
   * Once a document has resolved, a stricter loader gives the same answer, refusals included, from every two charts
   * that agree on the files of its chain; and when it does not refuse, its answer is the one already found.
   */
  lemma {:induction false} ComposeIsLocal(
      guide: Chart, one: Chart, other: Chart, checks: Checks, path: string, stack: set<string>)
    requires Compose(guide, checks, path, stack).Ok? && AlikeOn(guide, one, other, Chain(guide, path, stack))
    ensures Compose(one, checks, path, stack) == Compose(other, checks, path, stack)
    ensures Compose(one, checks, path, stack).Ok? ==>
              Compose(one, checks, path, stack) == Compose(guide, checks, path, stack)
    decreases guide.Keys - stack
  {
    assert Alike(guide, one, other, path);
    if guide[path].link.Parent? {
      var next := guide[path].link.path;
      assert forall p :: p in Chain(guide, next, stack + {path}) ==> Alike(guide, one, other, p);
      ComposeIsLocal(guide, one, other, checks, next, stack + {path});
    }
  }

  // ----- a field set in the leaf -----

  /** `other` lists `path` as `one` does, with one field set; both list it only as `guide` does. */
  ghost predicate Differs(
      guide: Chart, one: Chart, other: Chart, path: string, where: seq<string>, value: Value)
    requires where != []
  {
    && (path in one <==> path in other)
    && (path in one ==>
        && path in guide && one[path] == guide[path] && other[path].link == one[path].link
        && SetDefaultDeep(one[path].raw, where, value) == Ok(other[path].raw))
  }

  /** What setting the field in a resolved document gives, checks included. */
  function Overridden(checks: Checks, doc: Result<seq<Field>>, where: seq<string>, value: Value): Result<seq<Field>>
    requires where != []
  {
    var fields :- doc;
    var changed :- SetDefaultDeep(fields, where, value);
    if checks.accepts(changed) then Ok(changed) else Err
  }

  /**
   * Setting a field in the leaf file and resolving again is resolving first and setting the field in the result, for
   * chains of any length.
   */
  lemma OverlayResolves(
      guide: Chart, one: Chart, other: Chart, checks: Checks, path: string, where: seq<string>, value: Value)
    requires where != [] && EXTENDS !in where && !value.Map?
    requires Compose(guide, checks, path, {}).Ok? && Tidy(guide[path].raw)
    requires SetDefaultDeep(Compose(guide, checks, path, {}).value, where, value).Ok?
    requires Differs(guide, one, other, path, where, value)
    requires AlikeOn(guide, one, other, Chain(guide, path, {}) - {path})
    requires path in other ==>
               forall parent :: checks.fits(other[path].raw, parent) == checks.fits(guide[path].raw, parent)
    ensures Compose(other, checks, path, {}) == Overridden(checks, Compose(one, checks, path, {}), where, value)
  {
    if path in one && guide[path].link.Parent? {
      var next := guide[path].link.path;
      ChainFiles(guide, next, {path});
      assert {path} == {} + {path};
      assert AlikeOn(guide, one, other, Chain(guide, next, {path})) by {
        assert Chain(guide, next, {path}) <= Chain(guide, path, {}) - {path};
      }
      ComposeIsLocal(guide, one, other, checks, next, {path});
      if Compose(one, checks, next, {path}).Ok? {
        OverlayCommutes(Compose(one, checks, next, {path}).value, guide[path].raw, where, value);
      }
    }
  }

  // ----- the same document from two charts -----

  lemma {:induction false} ComposeTidy(chart: Chart, checks: Checks, path: string, stack: set<string>)
    requires forall p :: p in chart ==> Tidy(chart[p].raw)
    requires Compose(chart, checks, path, stack).Ok?
    ensures Tidy(Compose(chart, checks, path, stack).value)
    decreases chart.Keys - stack
  {
    if chart[path].link.Parent? {
      var next := chart[path].link.path;
      ComposeTidy(chart, checks, next, stack + {path});
      MergeTidy(Compose(chart, checks, next, stack + {path}).value, chart[path].raw);
    }
  }

  predicate Agrees(guide: Chart, other: Chart, p: string) {
    p in guide && p in other && other[p] == guide[p]
  }

  /** `other` lists a file as `guide` does, or with a link that is refused, or not at all. */
  predicate AgreesOrBroken(guide: Chart, other: Chart, p: string) {
    p in other ==> other[p].link == Broken || Agrees(guide, other, p)
  }

  /** If a document also resolves from such a chart, every file of its chain is there and the same. */
  lemma {:induction false} ComposeConfirms(
      guide: Chart, other: Chart, checks: Checks, path: string, stack: set<string>)
    requires Compose(guide, checks, path, stack).Ok? && Compose(other, checks, path, stack).Ok?
    requires forall p :: p in Chain(guide, path, stack) ==> AgreesOrBroken(guide, other, p)
    ensures forall p :: p in Chain(guide, path, stack) ==> Agrees(guide, other, p)
    ensures Compose(other, checks, path, stack) == Compose(guide, checks, path, stack)
    decreases guide.Keys - stack
  {
    assert AgreesOrBroken(guide, other, path);
    if guide[path].link.Parent? {
      var next := guide[path].link.path;
      assert forall p :: p in Chain(guide, next, stack + {path}) ==> AgreesOrBroken(guide, other, p);
      ComposeConfirms(guide, other, checks, next, stack + {path});
    }
  }

  /** The resolved parent of a document that resolves, if it has one. */
  function ParentOf(chart: Chart, checks: Checks, path: string): Option<seq<Field>>
    requires Compose(chart, checks, path, {}).Ok?
  {
    match chart[path].link
    case Parent(next) => Some(Compose(chart, checks, next, {} + {path}).value)
    case _ => None
  }

  /** One document over its resolved parent. */
  function Layered(checks: Checks, parent: Option<seq<Field>>, raw: seq<Field>): Result<seq<Field>> {
    match parent
    case None => if checks.accepts(raw) then Ok(raw) else Err
    case Some(older) =>
      if checks.fits(raw, older) && checks.accepts(Merge(older, raw)) then Ok(Merge(older, raw)) else Err
  }

  /** Two charts that differ in one file resolve it over the same parent. */
  lemma ComposeLayers(guide: Chart, other: Chart, checks: Checks, path: string)
    requires Compose(guide, checks, path, {}).Ok?
    requires path in other && other[path].link == guide[path].link
    requires forall p :: p in Chain(guide, path, {}) - {path} ==> Agrees(guide, other, p)
    ensures Compose(other, checks, path, {}) == Layered(checks, ParentOf(guide, checks, path), other[path].raw)
  {
    assert {} + {path} == {path};
    if guide[path].link.Parent? {
      var next := guide[path].link.path;
      ChainFiles(guide, next, {path});
      assert Chain(guide, next, {path}) <= Chain(guide, path, {}) - {path};
      forall p | p in Chain(guide, next, {path})
        ensures Alike(guide, guide, other, p)
      {
        ChainFiles(guide, path, {});
      }
      ComposeIsLocal(guide, guide, other, checks, next, {path});
    }
  }

  /** A document that resolves from a chart which may differ in its own file has its parents confirmed. */
  lemma LayerConfirms(guide: Chart, other: Chart, checks: Checks, path: string)
    requires Compose(guide, checks, path, {}).Ok? && Compose(other, checks, path, {}).Ok?
    requires other[path].link == Broken || other[path].link == guide[path].link
    requires forall p :: p in Chain(guide, path, {}) - {path} ==> AgreesOrBroken(guide, other, p)
    ensures other[path].link == guide[path].link
    ensures forall p :: p in Chain(guide, path, {}) - {path} ==> Agrees(guide, other, p)
  {
    assert {} + {path} == {path};
    if guide[path].link.Parent? {
      var next := guide[path].link.path;
      ChainFiles(guide, next, {path});
      assert Chain(guide, path, {}) - {path} == Chain(guide, next, {path});
      ComposeConfirms(guide, other, checks, next, {path});
    }
  }
}
