/** What an artifact reference may mean. */
module Artifacts {
  // Names, hashes, artifacts in two layouts, and what selecting everything refuses.

  import opened Results
  import opened Lists
  import opened RunReferences
  import opened DataLayout
  import opened DataSelection
  import opened RootOverlap

  // ----- references -----

  /** The same digits, in either case. */
  predicate SameDigits(a: string, b: string) {
    |a| == |b| && forall i :: 0 <= i < |a| ==> Lower([a[i]]) == Lower([b[i]])
  }

  lemma {:induction false} LowerDigits(a: string, b: string)
    requires SameDigits(a, b)
    ensures Lower(a) == Lower(b)
    decreases |a|
  {
    if a != "" {
      assert Lower([a[0]]) == Lower([b[0]]) && [a[0]][1..] == "" && [b[0]][1..] == "";
      assert Lower([a[0]])[0] == Lower([b[0]])[0];
      assert SameDigits(a[1..], b[1..]);
      LowerDigits(a[1..], b[1..]);
    }
  }

  lemma DigitInEitherCase(a: char, b: char)
    requires Lower([a]) == Lower([b]) && Hex(a)
    ensures Hex(b)
  {
    assert [a][1..] == "" && [b][1..] == "";
    assert Lower([a])[0] == Lower([b])[0];
  }

  /** The letters of a hash may be written in either case. */
  lemma HashCase(files: Files, roots: seq<Path>, a: string, b: string)
    requires IsHash(a) && SameDigits(a, b)
    requires forall i :: 0 <= i < |roots| ==> !files.Has(roots[i], a) && !files.Has(roots[i], b)
    ensures IsHash(b) && Resolve(files, roots, a) == Resolve(files, roots, b)
  {
    forall i | 0 <= i < 8
      ensures Hex(b[i])
    {
      DigitInEitherCase(a[i], b[i]);
    }
    LowerDigits(a, b);
    NoExact(files, roots, a);
    NoExact(files, roots, b);
    HashIsName(a);
    HashIsName(b);
  }

  lemma HashIsName(a: string)
    requires IsHash(a)
    ensures OnePart(a)
  {
    assert forall i :: 0 <= i < |a| ==> Hex(a[i]) && a[i] != '/';
  }

  /** Nothing that leads elsewhere resolves. */
  lemma PathsRefused(files: Files, roots: seq<Path>, reference: string)
    requires reference in {"", ".", ".."} || '/' in reference
    ensures Resolve(files, roots, reference).Unavailable?
  {
    assert !OnePart(reference);
  }

  // ----- the same artifact in two layouts -----

  /** What a reference picks in one root: the directory of that name, or, where there is none, one with that hash. */
  predicate PickedIn(files: Files, root: Path, reference: string, g: Found) {
    && files.Has(root, g.name) && g.path == root + [g.name]
    && (g.name == reference
        || (!files.Has(root, reference) && IsHash(reference) && SameHash(files.hash(g.name), reference)))
  }

  lemma PickedAlone(files: Files, root: Path, reference: string, g: Found)
    requires files.Valid() && OnePart(reference) && PickedIn(files, root, reference, g)
    ensures Resolve(files, [root], reference) == Match(g) || Resolve(files, [root], reference).Ambiguous?
  {
    assert [root][0] == root;
    if files.Has(root, reference) {
      Alone(files, root, reference);
    } else {
      assert Carries(files, [root], reference, g);
      ResolveHashed(files, [root], reference, g);
    }
  }

  lemma {:induction false} EachPicks(files: Files, roots: seq<Path>, reference: string, root: Path, g: Found)
    requires files.Valid() && OnePart(reference) && Each(files, roots, reference).Ok?
    requires Contains(roots, root) && PickedIn(files, root, reference, g)
    ensures g in Each(files, roots, reference).value
    decreases |roots|
  {
    if roots[0] == root {
      PickedAlone(files, root, reference, g);
    } else {
      var i :| 0 <= i < |roots| && roots[i] == root;
      assert roots[1..][i - 1] == root;
      EachPicks(files, roots[1..], reference, root, g);
    }
  }

  /** An artifact found in several roots has one name in all of them. */
  lemma ArtifactHasOneName(files: Files, roots: seq<Path>, reference: string, f: Found, root: Path, g: Found)
    requires files.Valid() && OnePart(reference) && Resolve(files, roots, reference).Ambiguous?
    requires Artifact(files, roots, reference) == Ok(f)
    requires Contains(roots, root) && PickedIn(files, root, reference, g)
    ensures g.name == f.name
  {
    EachPicks(files, roots, reference, root, g);
    var matches := Each(files, roots, reference).value;
    var i :| 0 <= i < |matches| && matches[i] == g;
    assert matches[i].name == matches[0].name;
  }

  // ----- selecting everything -----

  /** Selecting everything succeeds exactly when everything can be listed, something is, and nothing of it is active. */
  lemma SelectsAll(files: Files, layout: Layout, settled: Path -> bool, targets: seq<Target>)
    ensures SelectAll(files, layout, settled) == Ok(targets)
       <==> && ListAll(files, layout, Places()) == Ok(targets) && targets != []
            && forall t :: t in targets ==> settled(t.path)
  {
    if ListAll(files, layout, Places()) == Ok(targets) && !(forall t :: t in targets ==> settled(t.path)) {
      var t :| t in targets && !settled(t.path);
      var i :| 0 <= i < |targets| && targets[i] == t;
    }
  }

  /** A directory that is listed and active refuses the whole selection. */
  lemma ActiveRefuses(files: Files, layout: Layout, settled: Path -> bool, place: Place, name: string)
    requires files.Valid() && Names(files, layout) && Contains(Places(), place)
    requires files.Has(Root(layout, place), name) && !Skipped(layout, place, name)
    requires !settled(Root(layout, place) + [name])
    ensures SelectAll(files, layout, settled).Err?
  {
    if SelectAll(files, layout, settled).Ok? {
      AllFrom(files, layout, Places());
      EntriesListed(files, layout);
      var entries := AllEntries(files, layout, Places());
      EntryThere(files, layout, Places(), place, name);
      var i :| 0 <= i < |entries| && entries[i] == (place, name);
      EntryShelved(files, layout, place, name);
    }
  }
}
