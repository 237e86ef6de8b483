/** Looking up a run by its ID or its short hash, across several roots. */
module RunReferences {
  import opened Lists

  type Path = seq<string>

  /** Directories as listings see them: the directory names below a path, each once; and the short hash of a name. */
  datatype Files = Files(children: Path -> seq<string>, hash: string -> string)
  {
    ghost predicate Valid() {
      forall path :: forall i, j :: 0 <= i < j < |children(path)| ==> children(path)[i] != children(path)[j]
    }

    predicate Has(root: Path, name: string) {
      exists i :: 0 <= i < |children(root)| && children(root)[i] == name
    }
  }

  predicate Hex(c: char) {
    '0' <= c <= '9' || 'a' <= c <= 'f' || 'A' <= c <= 'F'
  }

  predicate IsHash(reference: string) {
    |reference| == 8 && forall i :: 0 <= i < 8 ==> Hex(reference[i])
  }

  function Lower(w: string): string {
    if w == "" then ""
    else [if 'A' <= w[0] <= 'F' then (w[0] as int + 32) as char else w[0]] + Lower(w[1..])
  }

  /** One path component, and not a way up. */
  predicate OnePart(reference: string) {
    reference != "" && reference != "." && reference != ".." && forall i :: 0 <= i < |reference| ==> reference[i] != '/'
  }

  datatype Found = Found(name: string, path: Path)

  function Exact(files: Files, roots: seq<Path>, reference: string): seq<Found> {
    if roots == [] then []
    else
      var n := |roots| - 1;
      Exact(files, roots[..n], reference)
      + if files.Has(roots[n], reference) then [Found(reference, roots[n] + [reference])] else []
  }

  function HashedIn(files: Files, root: Path, names: seq<string>, hash: string): seq<Found> {
    if names == [] then []
    else
      var n := |names| - 1;
      HashedIn(files, root, names[..n], hash)
      + if files.hash(names[n]) == hash then [Found(names[n], root + [names[n]])] else []
  }

  function Hashed(files: Files, roots: seq<Path>, hash: string): seq<Found> {
    if roots == [] then []
    else
      var n := |roots| - 1;
      Hashed(files, roots[..n], hash) + HashedIn(files, roots[n], files.children(roots[n]), hash)
  }

  /** Ambiguous and unavailable references raise different errors. */
  datatype Lookup = Match(found: Found) | Ambiguous | Unavailable

  function Only(matches: seq<Found>): Lookup {
    if |matches| == 1 then Match(matches[0]) else if matches == [] then Unavailable else Ambiguous
  }

  /** `resolve_run_reference_across`: an exact ID wins; a hash must match one directory; anything else is refused. */
  function Resolve(files: Files, roots: seq<Path>, reference: string): Lookup {
    var paths := Deduped(roots);
    if !OnePart(reference) then Unavailable
    else
      var exact := Exact(files, paths, reference);
      if exact != [] || !IsHash(reference) then Only(exact) else Only(Hashed(files, paths, Lower(reference)))
  }

  /** The same as the program runs it: two loops over the roots. */
  method ResolveAcross(files: Files, roots: seq<Path>, reference: string) returns (r: Lookup)
    ensures r == Resolve(files, roots, reference)
  {
    var paths: seq<Path> := [];
    for i := 0 to |roots|
      invariant paths == Deduped(roots[..i])
    {
      assert roots[..i + 1][..i] == roots[..i];
      var seen := Contains(roots[..i], roots[i]);
      if !seen {
        paths := paths + [roots[i]];
      }
    }
    assert roots[..|roots|] == roots;
    if !OnePart(reference) {
      return Unavailable;
    }
    var exact: seq<Found> := [];
    for i := 0 to |paths|
      invariant exact == Exact(files, paths[..i], reference)
    {
      assert paths[..i + 1][..i] == paths[..i];
      if files.Has(paths[i], reference) {
        exact := exact + [Found(reference, paths[i] + [reference])];
      }
    }
    assert paths[..|paths|] == paths;
    if exact != [] || !IsHash(reference) {
      return Only(exact);
    }
    var matches: seq<Found> := [];
    for i := 0 to |paths|
      invariant matches == Hashed(files, paths[..i], Lower(reference))
    {
      assert paths[..i + 1][..i] == paths[..i];
      var names := files.children(paths[i]);
      var here: seq<Found> := [];
      for j := 0 to |names|
        invariant here == HashedIn(files, paths[i], names[..j], Lower(reference))
      {
        assert names[..j + 1][..j] == names[..j];
        if files.hash(names[j]) == Lower(reference) {
          here := here + [Found(names[j], paths[i] + [names[j]])];
        }
      }
      assert names[..|names|] == names;
      matches := matches + here;
    }
    return Only(matches);
  }

  // ----- what resolving means -----

  lemma {:induction false} ExactFound(files: Files, roots: seq<Path>, reference: string, f: Found)
    ensures f in Exact(files, roots, reference) <==>
            exists i :: 0 <= i < |roots| && files.Has(roots[i], reference)
                && f == Found(reference, roots[i] + [reference])
  {
    if roots != [] {
      var n := |roots| - 1;
      ExactFound(files, roots[..n], reference, f);
      assert forall i :: 0 <= i < n ==> roots[..n][i] == roots[i];
    }
  }

  /** Two different roots that both have the reference make it ambiguous. */
  lemma {:induction false} ExactTwo(files: Files, roots: seq<Path>, reference: string, i: nat, j: nat)
    requires i < j < |roots| && files.Has(roots[i], reference) && files.Has(roots[j], reference)
    ensures |Exact(files, roots, reference)| >= 2
  {
    var n := |roots| - 1;
    if j < n {
      ExactTwo(files, roots[..n], reference, i, j);
    } else {
      ExactFound(files, roots[..n], reference, Found(reference, roots[i] + [reference]));
      assert roots[..n][i] == roots[i];
    }
  }

  /**
   * An ID that is a directory under some root resolves exactly when it is one under no other root, and then to that
   * directory.
   */
  lemma ResolveListed(files: Files, roots: seq<Path>, reference: string, root: Path)
    requires OnePart(reference) && Contains(roots, root) && files.Has(root, reference)
    ensures Resolve(files, roots, reference).Match? <==>
            forall other :: Contains(roots, other) && files.Has(other, reference) ==> other == root
    ensures Resolve(files, roots, reference).Match? ==>
              Resolve(files, roots, reference) == Match(Found(reference, root + [reference]))
    ensures !Resolve(files, roots, reference).Unavailable?
  {
    var paths := Deduped(roots);
    DedupedSame(roots);
    assert Contains(paths, root);
    var k :| 0 <= k < |paths| && paths[k] == root;
    var exact := Exact(files, paths, reference);
    var here := Found(reference, root + [reference]);
    ExactFound(files, paths, reference, here);
    assert here in exact;
    if |exact| == 1 {
      assert exact[0] == here;
      forall other | Contains(roots, other) && files.Has(other, reference)
        ensures other == root
      {
        assert Contains(paths, other);
        var i :| 0 <= i < |paths| && paths[i] == other;
        if i < k {
          ExactTwo(files, paths, reference, i, k);
        } else if k < i {
          ExactTwo(files, paths, reference, k, i);
        }
      }
    }
    if forall other :: Contains(roots, other) && files.Has(other, reference) ==> other == root {
      forall i | 0 <= i < |paths| && files.Has(paths[i], reference)
        ensures i == k
      {
        assert Contains(paths, paths[i]);
      }
      ExactOne(files, paths, reference, k);
    }
  }

  lemma {:induction false} ExactNone(files: Files, roots: seq<Path>, reference: string)
    requires forall i :: 0 <= i < |roots| ==> !files.Has(roots[i], reference)
    ensures Exact(files, roots, reference) == []
  {
    if roots != [] {
      ExactNone(files, roots[..|roots| - 1], reference);
    }
  }

  lemma {:induction false} ExactOne(files: Files, roots: seq<Path>, reference: string, k: nat)
    requires k < |roots| && files.Has(roots[k], reference)
    requires forall i :: 0 <= i < |roots| && files.Has(roots[i], reference) ==> i == k
    ensures |Exact(files, roots, reference)| == 1
  {
    var n := |roots| - 1;
    assert forall i :: 0 <= i < n ==> roots[..n][i] == roots[i];
    if k < n {
      ExactOne(files, roots[..n], reference, k);
    } else {
      ExactNone(files, roots[..n], reference);
    }
  }

  lemma {:induction false} HashedInFound(files: Files, root: Path, names: seq<string>, hash: string, f: Found)
    ensures f in HashedIn(files, root, names, hash) <==>
            exists i :: 0 <= i < |names| && files.hash(names[i]) == hash && f == Found(names[i], root + [names[i]])
  {
    if names != [] {
      var n := |names| - 1;
      HashedInFound(files, root, names[..n], hash, f);
      assert forall i :: 0 <= i < n ==> names[..n][i] == names[i];
    }
  }

  lemma {:induction false} HashedFound(files: Files, roots: seq<Path>, hash: string, f: Found)
    ensures f in Hashed(files, roots, hash) <==>
            exists i :: 0 <= i < |roots| && files.Has(roots[i], f.name) && files.hash(f.name) == hash
                        && f.path == roots[i] + [f.name]
  {
    if roots != [] {
      var n := |roots| - 1;
      HashedFound(files, roots[..n], hash, f);
      HashedInFound(files, roots[n], files.children(roots[n]), hash, f);
      assert forall i :: 0 <= i < n ==> roots[..n][i] == roots[i];
    }
  }

  /** A directory listed under one of the roots. */
  predicate Listed(files: Files, roots: seq<Path>, f: Found) {
    exists i :: 0 <= i < |roots| && files.Has(roots[i], f.name) && f.path == roots[i] + [f.name]
  }

  lemma ListedDeduped(files: Files, roots: seq<Path>, f: Found)
    ensures Listed(files, Deduped(roots), f) <==> Listed(files, roots, f)
  {
    var paths := Deduped(roots);
    DedupedSame(roots);
    if Listed(files, paths, f) {
      var i :| 0 <= i < |paths| && files.Has(paths[i], f.name) && f.path == paths[i] + [f.name];
      assert Contains(paths, paths[i]);
      assert Contains(roots, paths[i]);
    }
    if Listed(files, roots, f) {
      var i :| 0 <= i < |roots| && files.Has(roots[i], f.name) && f.path == roots[i] + [f.name];
      assert Contains(roots, roots[i]);
      assert Contains(paths, roots[i]);
    }
  }

  /** What a reference picks out: everything with that ID if there is anything, otherwise everything with that hash. */
  predicate Picks(files: Files, roots: seq<Path>, reference: string, f: Found) {
    && Listed(files, roots, f)
    && (f.name == reference
        || (Exact(files, Deduped(roots), reference) == [] && files.hash(f.name) == Lower(reference)))
  }

  lemma PicksMatch(files: Files, roots: seq<Path>, reference: string, f: Found)
    ensures f in Exact(files, Deduped(roots), reference) <==> Listed(files, roots, f) && f.name == reference
    ensures f in Hashed(files, Deduped(roots), Lower(reference)) <==>
            Listed(files, roots, f) && files.hash(f.name) == Lower(reference)
  {
    ListedDeduped(files, roots, f);
    ExactFound(files, Deduped(roots), reference, f);
    HashedFound(files, Deduped(roots), Lower(reference), f);
  }

  lemma OnlyOne(matches: seq<Found>, f: Found)
    requires Only(matches) == Match(f)
    ensures f in matches && forall other :: other in matches ==> other == f
  {
  }

  /** What a reference resolves to, it picks out, and nothing else. */
  lemma ResolveSound(files: Files, roots: seq<Path>, reference: string, f: Found, other: Found)
    requires Resolve(files, roots, reference) == Match(f)
    ensures Picks(files, roots, reference, f)
    ensures Picks(files, roots, reference, other) ==> other == f
  {
    var exact := Exact(files, Deduped(roots), reference);
    PicksMatch(files, roots, reference, f);
    PicksMatch(files, roots, reference, other);
    if exact != [] {
      OnlyOne(exact, f);
    } else {
      NotExact(files, roots, reference, f);
      NotExact(files, roots, reference, other);
      OnlyOne(Hashed(files, Deduped(roots), Lower(reference)), f);
    }
  }

  lemma NotExact(files: Files, roots: seq<Path>, reference: string, f: Found)
    requires Exact(files, Deduped(roots), reference) == []
    ensures !(Listed(files, roots, f) && f.name == reference)
  {
    PicksMatch(files, roots, reference, f);
  }

  // ----- looking up a hash -----

  /** A short hash is compared without regard to the case of its letters. */
  predicate SameHash(hash: string, reference: string) {
    |hash| == |reference|
    && forall i :: 0 <= i < |hash| ==>
         hash[i] == if 'A' <= reference[i] <= 'F' then (reference[i] as int + 32) as char else reference[i]
  }

  lemma {:induction false} LowerIsSame(hash: string, reference: string)
    ensures hash == Lower(reference) <==> SameHash(hash, reference)
    decreases |reference|
  {
    if reference != "" && hash != "" {
      LowerIsSame(hash[1..], reference[1..]);
      assert hash == [hash[0]] + hash[1..];
      if SameHash(hash[1..], reference[1..]) && [hash[0]] == Lower([reference[0]]) {
        forall i | 0 <= i < |hash|
          ensures hash[i] == if 'A' <= reference[i] <= 'F' then (reference[i] as int + 32) as char else reference[i]
        {
          assert i > 0 ==> hash[i] == hash[1..][i - 1] && reference[i] == reference[1..][i - 1];
        }
      }
      if SameHash(hash, reference) {
        assert SameHash(hash[1..], reference[1..]);
      }
    }
  }

  lemma {:induction false} HashedInOnce(files: Files, root: Path, names: seq<string>, hash: string)
    requires forall i, j :: 0 <= i < j < |names| ==> names[i] != names[j]
    ensures Distinct(HashedIn(files, root, names, hash))
  {
    if names != [] {
      var n := |names| - 1;
      HashedInOnce(files, root, names[..n], hash);
      HashedInFound(files, root, names[..n], hash, Found(names[n], root + [names[n]]));
    }
  }

  lemma SameEnd(a: Path, b: Path, x: string, y: string)
    requires a + [x] == b + [y]
    ensures a == b
  {
    assert a == (a + [x])[..|a|] && b == (b + [y])[..|b|];
  }

  lemma DistinctJoin(a: seq<Found>, b: seq<Found>)
    requires Distinct(a) && Distinct(b) && forall f :: f in a ==> f !in b
    ensures Distinct(a + b)
  {
    forall i, j | 0 <= i < j < |a + b|
      ensures (a + b)[i] != (a + b)[j]
    {
      if i < |a| <= j {
        assert (a + b)[i] in a && (a + b)[j] in b;
      }
    }
  }

  lemma {:induction false} HashedOnce(files: Files, roots: seq<Path>, hash: string)
    requires files.Valid() && Distinct(roots)
    ensures Distinct(Hashed(files, roots, hash))
  {
    if roots != [] {
      var n := |roots| - 1;
      HashedOnce(files, roots[..n], hash);
      HashedInOnce(files, roots[n], files.children(roots[n]), hash);
      forall f | f in Hashed(files, roots[..n], hash)
        ensures f !in HashedIn(files, roots[n], files.children(roots[n]), hash)
      {
        HashedFound(files, roots[..n], hash, f);
        HashedInFound(files, roots[n], files.children(roots[n]), hash, f);
        var i :| 0 <= i < n && f.path == roots[..n][i] + [f.name];
        if f.path == roots[n] + [f.name] {
          SameEnd(roots[i], roots[n], f.name, f.name);
        }
      }
      DistinctJoin(Hashed(files, roots[..n], hash), HashedIn(files, roots[n], files.children(roots[n]), hash));
    }
  }

  lemma OnlyIfOne(matches: seq<Found>, f: Found)
    requires Distinct(matches) && f in matches
    ensures Only(matches) == Match(f) <==> forall other :: other in matches ==> other == f
    ensures Only(matches).Match? ==> Only(matches) == Match(f)
    ensures !Only(matches).Unavailable?
  {
    if |matches| > 1 {
      assert matches[0] != matches[1] && matches[0] in matches && matches[1] in matches;
    }
  }

  /** A directory listed under one of the roots with this short hash. */
  predicate Carries(files: Files, roots: seq<Path>, reference: string, f: Found) {
    Listed(files, roots, f) && SameHash(files.hash(f.name), reference)
  }

  /**
   * Eight hexadecimal digits that are no run's ID resolve exactly when one listed directory alone carries that hash,
   * and then to that directory; when several do, the reference is ambiguous.
   */
  lemma ResolveHashed(files: Files, roots: seq<Path>, reference: string, f: Found)
    requires files.Valid() && OnePart(reference) && IsHash(reference)
    requires forall i :: 0 <= i < |roots| ==> !files.Has(roots[i], reference)
    requires Carries(files, roots, reference, f)
    ensures Resolve(files, roots, reference) == Match(f)
       <==> forall other :: Carries(files, roots, reference, other) ==> other == f
    ensures Resolve(files, roots, reference).Match? ==> Resolve(files, roots, reference) == Match(f)
    ensures !Resolve(files, roots, reference).Unavailable?
  {
    var paths := Deduped(roots);
    var matches := Hashed(files, paths, Lower(reference));
    NoExact(files, roots, reference);
    DedupedSame(roots);
    HashedOnce(files, paths, Lower(reference));
    forall other
      ensures other in matches <==> Carries(files, roots, reference, other)
    {
      PicksMatch(files, roots, reference, other);
      LowerIsSame(files.hash(other.name), reference);
    }
    OnlyIfOne(matches, f);
  }

  lemma NoExact(files: Files, roots: seq<Path>, reference: string)
    requires forall i :: 0 <= i < |roots| ==> !files.Has(roots[i], reference)
    ensures Exact(files, Deduped(roots), reference) == []
  {
    var paths := Deduped(roots);
    DedupedSame(roots);
    forall i | 0 <= i < |paths|
      ensures !files.Has(paths[i], reference)
    {
      assert Contains(paths, paths[i]);
      assert Contains(roots, paths[i]);
    }
    ExactNone(files, paths, reference);
  }

  /** A reference is unavailable exactly when it is no single name, or no listed directory has it as ID or as hash. */
  lemma ResolveNothing(files: Files, roots: seq<Path>, reference: string)
    ensures Resolve(files, roots, reference).Unavailable?
       <==> !OnePart(reference)
            || forall f :: Listed(files, roots, f) ==>
                 f.name != reference && !(IsHash(reference) && SameHash(files.hash(f.name), reference))
  {
    var exact, hashed := Exact(files, Deduped(roots), reference), Hashed(files, Deduped(roots), Lower(reference));
    forall f
      ensures f in exact <==> Listed(files, roots, f) && f.name == reference
      ensures f in hashed <==> Listed(files, roots, f) && SameHash(files.hash(f.name), reference)
    {
      PicksMatch(files, roots, reference, f);
      LowerIsSame(files.hash(f.name), reference);
    }
    if exact != [] {
      assert exact[0] in exact;
    }
    if hashed != [] {
      assert hashed[0] in hashed;
    }
  }
}
