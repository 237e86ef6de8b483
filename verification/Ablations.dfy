/** Ablation suites: variants may differ from the base only inside the declared factors. */
module Ablations {
  import opened Results
  import opened Values
  import opened Composition

  type Path = seq<string>

  // ----- Python's `==` on documents -----

  /** Dictionaries are equal whatever their key order, lists element by element, everything else as it is. */
  predicate Same(v: Value, w: Value)
    decreases v, 1
  {
    if v.Map? && w.Map? then SameMaps(v.fields, w.fields)
    else if v.List? && w.List? then SameLists(v.items, w.items)
    else v == w
  }

  predicate SameLists(a: seq<Value>, b: seq<Value>)
    decreases a, 0
  {
    |a| == |b| && forall i :: 0 <= i < |a| ==> Same(a[i], b[i])
  }

  predicate SameMaps(a: seq<Field>, b: seq<Field>)
    decreases a, 0
  {
    && (forall i :: 0 <= i < |a| ==> Get(b, a[i].key).Some? && Same(a[i].value, Get(b, a[i].key).value))
    && forall j :: 0 <= j < |b| ==> Get(a, b[j].key).Some?
  }

  // ----- the differences of two documents -----

  function Prefixed(key: string, paths: set<Path>): set<Path> {
    set p | p in paths :: [key] + p
  }

  /** `_differences`, as sequences of keys. */
  function DifferencesOf(v: Value, w: Value): set<Path>
    decreases v, 1
  {
    if v.Map? && w.Map? then Differences(v.fields, w.fields) else if Same(v, w) then {} else {[]}
  }

  function Differences(a: seq<Field>, b: seq<Field>): set<Path>
    decreases a, 0
  {
    (set i, p | 0 <= i < |a| && p in At(a[i], b) :: p)
    + (set j | 0 <= j < |b| && Get(a, b[j].key).None? :: [b[j].key])
  }

  /** One key of the first document against the second. */
  function At(field: Field, b: seq<Field>): set<Path>
    decreases field, 2
  {
    match Get(b, field.key)
    case None => {[field.key]}
    case Some(w) => Prefixed(field.key, DifferencesOf(field.value, w))
  }

  // ----- erasing factors -----

  /** `_drop`: remove what is at the end of a path of mappings, if it is there. */
  function Drop(fields: seq<Field>, path: Path): seq<Field>
    requires path != []
    decreases |path|, |fields|
  {
    if fields == [] then []
    else if fields[0].key != path[0] then [fields[0]] + Drop(fields[1..], path)
    else if |path| == 1 then fields[1..]
    else if fields[0].value.Map? then [Field(path[0], Map(Drop(fields[0].value.fields, path[1..])))] + fields[1..]
    else fields
  }

  /** The factors below one key. */
  function Rest(factors: set<Path>, key: string): set<Path> {
    set f | f in factors && |f| > 1 && f[0] == key :: f[1..]
  }

  function PurgeValue(v: Value, factors: set<Path>): Value
    decreases v, 1
  {
    if v.Map? then Map(Purge(v.fields, factors)) else v
  }

  /** Every factor erased at once. */
  function Purge(fields: seq<Field>, factors: set<Path>): seq<Field>
    decreases fields, 0
  {
    if fields == [] then []
    else
      (if [fields[0].key] in factors then []
       else [Field(fields[0].key, PurgeValue(fields[0].value, Rest(factors, fields[0].key)))])
      + Purge(fields[1..], factors)
  }

  lemma {:induction false} PurgeNothing(fields: seq<Field>)
    ensures Purge(fields, {}) == fields
    decreases fields
  {
    if fields != [] {
      PurgeNothing(fields[1..]);
      assert Rest({}, fields[0].key) == {};
      if fields[0].value.Map? {
        PurgeNothing(fields[0].value.fields);
      }
      assert [fields[0]] + fields[1..] == fields;
    }
  }

  lemma {:induction false} PurgeElsewhere(fields: seq<Field>, path: Path)
    requires path != [] && Lacks(fields, path[0])
    ensures Purge(fields, {path}) == fields
    decreases |fields|
  {
    if fields != [] {
      assert Lacks(fields[1..], path[0]);
      PurgeElsewhere(fields[1..], path);
      assert Rest({path}, fields[0].key) == {};
      if fields[0].value.Map? {
        PurgeNothing(fields[0].value.fields);
      }
      assert [fields[0].key] != path by {
        assert [fields[0].key][0] != path[0];
      }
      assert [fields[0]] + fields[1..] == fields;
    }
  }

  /** Dropping one path is erasing one factor. */
  lemma {:induction false} DropIsPurge(fields: seq<Field>, path: Path)
    requires path != [] && Tidy(fields)
    ensures Drop(fields, path) == Purge(fields, {path})
    decreases |path|, |fields|
  {
    if fields != [] {
      UniqueTail(fields);
      var key := fields[0].key;
      if key != path[0] {
        DropIsPurge(fields[1..], path);
        assert Rest({path}, key) == {};
        if fields[0].value.Map? {
          PurgeNothing(fields[0].value.fields);
        }
        assert [key] != path by {
          assert [key][0] != path[0];
        }
      } else {
        PurgeElsewhere(fields[1..], path);
        if |path| == 1 {
          assert path == [key];
        } else {
          assert [key] != path;
          assert Rest({path}, key) == {path[1..]};
          if fields[0].value.Map? {
            DropIsPurge(fields[0].value.fields, path[1..]);
          }
          assert [fields[0]] + fields[1..] == fields;
        }
      }
    }
  }

  /** Erasing in two rounds is erasing everything at once, so the order of the factors does not matter. */
  lemma {:induction false} PurgeTwice(fields: seq<Field>, first: set<Path>, second: set<Path>)
    ensures Purge(Purge(fields, first), second) == Purge(fields, first + second)
    decreases fields
  {
    if fields != [] {
      PurgeTwice(fields[1..], first, second);
      var key := fields[0].key;
      RestOfBoth(first, second, key);
      if [key] !in first && fields[0].value.Map? {
        PurgeTwice(fields[0].value.fields, Rest(first, key), Rest(second, key));
      }
      var tail := Purge(fields[1..], first);
      if [key] !in first {
        var head := Field(key, PurgeValue(fields[0].value, Rest(first, key)));
        assert Purge(fields, first) == [head] + tail && ([head] + tail)[1..] == tail;
        assert [] + Purge(tail, second) == Purge(tail, second);
      } else {
        assert Purge(fields, first) == tail;
      }
    }
  }

  lemma RestOfBoth(first: set<Path>, second: set<Path>, key: string)
    ensures Rest(first + second, key) == Rest(first, key) + Rest(second, key)
  {
  }

  lemma {:induction false} PurgeTidy(fields: seq<Field>, factors: set<Path>)
    requires Tidy(fields)
    ensures Tidy(Purge(fields, factors))
    ensures forall key :: Lacks(fields, key) ==> Lacks(Purge(fields, factors), key)
    decreases fields
  {
    if fields != [] {
      UniqueTail(fields);
      PurgeTidy(fields[1..], factors);
      if fields[0].value.Map? {
        PurgeTidy(fields[0].value.fields, Rest(factors, fields[0].key));
      }
      forall key | Lacks(fields, key)
        ensures Lacks(fields[1..], key) && fields[0].key != key
      {
      }
    }
  }

  /** Erasures commute, whatever the two factors are. */
  lemma DropsCommute(fields: seq<Field>, f: Path, g: Path)
    requires f != [] && g != [] && Tidy(fields)
    ensures Drop(Drop(fields, f), g) == Drop(Drop(fields, g), f)
  {
    DropIsPurge(fields, f);
    DropIsPurge(fields, g);
    PurgeTidy(fields, {f});
    PurgeTidy(fields, {g});
    DropIsPurge(Drop(fields, f), g);
    DropIsPurge(Drop(fields, g), f);
    PurgeTwice(fields, {f}, {g});
    PurgeTwice(fields, {g}, {f});
    assert {f} + {g} == {g} + {f};
  }

  /** `common`: the base document without its `id` and the factors, popped one after the other. */
  method CommonOf(base: seq<Field>, factors: seq<Path>) returns (common: seq<Field>)
    requires Tidy(base) && forall i :: 0 <= i < |factors| ==> factors[i] != []
    ensures common == Purge(base, {["id"]} + set i | 0 <= i < |factors| :: factors[i])
  {
    common := Drop(base, ["id"]);
    DropIsPurge(base, ["id"]);
    ghost var gone: set<Path> := {["id"]};
    for n := 0 to |factors|
      invariant gone == {["id"]} + set i | 0 <= i < n :: factors[i]
      invariant common == Purge(base, gone)
    {
      PurgeTidy(base, gone);
      DropIsPurge(common, factors[n]);
      PurgeTwice(base, gone, {factors[n]});
      common := Drop(common, factors[n]);
      gone := gone + {factors[n]};
    }
  }

  // ----- differences and factors -----

  /** At or below a declared factor. */
  predicate Under(path: Path, factors: set<Path>) {
    exists n :: 0 <= n <= |path| && path[..n] in factors
  }

  ghost predicate AllUnder(paths: set<Path>, factors: set<Path>) {
    forall p :: p in paths ==> Under(p, factors)
  }

  lemma UnderRest(key: string, p: Path, factors: set<Path>)
    requires [] !in factors
    ensures Under([key] + p, factors) <==> [key] in factors || Under(p, Rest(factors, key))
  {
    var path := [key] + p;
    if Under(path, factors) && [key] !in factors {
      var n :| 0 <= n <= |path| && path[..n] in factors;
      assert n > 1 by {
        assert path[..0] == [] && path[..1] == [key];
      }
      assert p[..n - 1] == path[..n][1..];
      assert path[..n][1..] in Rest(factors, key);
    }
    if [key] in factors {
      assert path[..1] == [key];
    }
    if Under(p, Rest(factors, key)) {
      var n :| 0 <= n <= |p| && p[..n] in Rest(factors, key);
      var f :| f in factors && |f| > 1 && f[0] == key && f[1..] == p[..n];
      assert f == [key] + p[..n] == path[..n + 1];
    }
  }

  lemma {:induction false} PurgeGet(fields: seq<Field>, factors: set<Path>, key: string)
    requires UniqueKeys(fields)
    ensures Get(Purge(fields, factors), key)
         == if [key] in factors || Get(fields, key).None? then None
            else Some(PurgeValue(Get(fields, key).value, Rest(factors, key)))
    decreases |fields|
  {
    if fields != [] {
      UniqueTail(fields);
      PurgeGet(fields[1..], factors, key);
      if fields[0].key == key {
        GetLacks(fields[1..], key);
      }
      var tail := Purge(fields[1..], factors);
      if [fields[0].key] !in factors {
        var head := Field(fields[0].key, PurgeValue(fields[0].value, Rest(factors, fields[0].key)));
        assert Purge(fields, factors) == [head] + tail && ([head] + tail)[1..] == tail;
      } else {
        assert Purge(fields, factors) == tail;
      }
    }
  }

  /** Erasing makes two values the same exactly when they differ only at or below the factors. */
  lemma {:induction false} ValueSound(v: Value, w: Value, factors: set<Path>)
    requires (v.Map? ==> Tidy(v.fields)) && (w.Map? ==> Tidy(w.fields)) && [] !in factors
    ensures Same(PurgeValue(v, factors), PurgeValue(w, factors)) <==> AllUnder(DifferencesOf(v, w), factors)
    decreases v, 1
  {
    if v.Map? && w.Map? {
      AblationExact(v.fields, w.fields, factors);
    } else if !Same(v, w) {
      assert [] in DifferencesOf(v, w) && !Under([], factors);
    }
  }

  /** The key-by-key reading of two erased documents being the same. */
  ghost predicate SameAt(a: seq<Field>, b: seq<Field>, factors: set<Path>, key: string) {
    [key] in factors
    || (Get(a, key).None? && Get(b, key).None?)
    || (Get(a, key).Some? && Get(b, key).Some?
        && Same(PurgeValue(Get(a, key).value, Rest(factors, key)), PurgeValue(Get(b, key).value, Rest(factors, key))))
  }

  /** Two documents hold the same under one key. */
  predicate AgreeOn(a: seq<Field>, b: seq<Field>, key: string) {
    match (Get(a, key), Get(b, key))
    case (None, None) => true
    case (Some(v), Some(w)) => Same(v, w)
    case _ => false
  }

  lemma SameMapsByKey(a: seq<Field>, b: seq<Field>)
    requires UniqueKeys(a) && UniqueKeys(b)
    ensures SameMaps(a, b) <==> forall key :: AgreeOn(a, b, key)
  {
    forall i | 0 <= i < |a|
      ensures Get(a, a[i].key) == Some(a[i].value)
    {
      GetAt(a, i);
    }
    forall j | 0 <= j < |b|
      ensures Get(b, b[j].key) == Some(b[j].value)
    {
      GetAt(b, j);
    }
    if SameMaps(a, b) {
      forall key
        ensures AgreeOn(a, b, key)
      {
        GetLacks(a, key);
        GetLacks(b, key);
      }
    }
    if forall key :: AgreeOn(a, b, key) {
      forall i | 0 <= i < |a|
        ensures Get(b, a[i].key).Some? && Same(a[i].value, Get(b, a[i].key).value)
      {
        assert AgreeOn(a, b, a[i].key);
      }
      forall j | 0 <= j < |b|
        ensures Get(a, b[j].key).Some?
      {
        assert AgreeOn(a, b, b[j].key);
      }
    }
  }

  lemma PurgedByKey(a: seq<Field>, b: seq<Field>, factors: set<Path>)
    requires Tidy(a) && Tidy(b)
    ensures SameMaps(Purge(a, factors), Purge(b, factors)) <==> forall key :: SameAt(a, b, factors, key)
  {
    PurgeTidy(a, factors);
    PurgeTidy(b, factors);
    var p, q := Purge(a, factors), Purge(b, factors);
    SameMapsByKey(p, q);
    forall key
      ensures SameAt(a, b, factors, key) <==> AgreeOn(p, q, key)
    {
      PurgeGet(a, factors, key);
      PurgeGet(b, factors, key);
    }
    if forall key :: SameAt(a, b, factors, key) {
      forall key
        ensures AgreeOn(p, q, key)
      {
        assert SameAt(a, b, factors, key);
      }
    }
    if forall key :: AgreeOn(p, q, key) {
      forall key
        ensures SameAt(a, b, factors, key)
      {
        assert AgreeOn(p, q, key);
      }
    }
  }

  /** One listed field's differences, and what erasing makes of its key. */
  lemma {:induction false} FieldSound(a: seq<Field>, b: seq<Field>, factors: set<Path>, i: nat)
    requires Tidy(a) && Tidy(b) && [] !in factors && i < |a|
    ensures SameAt(a, b, factors, a[i].key) <==> AllUnder(At(a[i], b), factors)
    decreases a, 0
  {
    var key := a[i].key;
    GetAt(a, i);
    GetTidy(b, key);
    match Get(b, key)
    case None =>
      UnderRest(key, [], factors);
      assert [key] + [] == [key];
      assert !Under([], Rest(factors, key));
    case Some(w) =>
      ValueSound(a[i].value, w, Rest(factors, key));
      forall p
        ensures [key] + p in At(a[i], b) <==> p in DifferencesOf(a[i].value, w)
      {
        if [key] + p in At(a[i], b) {
          var q :| q in DifferencesOf(a[i].value, w) && [key] + q == [key] + p;
          assert q == ([key] + q)[1..] == p;
        }
      }
      forall p | p in DifferencesOf(a[i].value, w)
        ensures Under([key] + p, factors) <==> [key] in factors || Under(p, Rest(factors, key))
      {
        UnderRest(key, p, factors);
      }
  }

  lemma NewKeySound(a: seq<Field>, b: seq<Field>, factors: set<Path>, j: nat)
    requires Tidy(a) && Tidy(b) && [] !in factors && j < |b| && Get(a, b[j].key).None?
    ensures SameAt(a, b, factors, b[j].key) <==> Under([b[j].key], factors)
  {
    GetAt(b, j);
    UnderRest(b[j].key, [], factors);
    assert [b[j].key] + [] == [b[j].key] && !Under([], Rest(factors, b[j].key));
  }

  /**
   * A variant and the base agree on everything but the factors, whatever the key order, exactly when every difference
   * reported lies at or below a declared factor.
   */
  lemma {:induction false} AblationExact(a: seq<Field>, b: seq<Field>, factors: set<Path>)
    requires Tidy(a) && Tidy(b) && [] !in factors
    ensures SameMaps(Purge(a, factors), Purge(b, factors)) <==> AllUnder(Differences(a, b), factors)
    decreases a, 2
  {
    PurgedByKey(a, b, factors);
    forall i | 0 <= i < |a|
      ensures SameAt(a, b, factors, a[i].key) <==> AllUnder(At(a[i], b), factors)
    {
      FieldSound(a, b, factors, i);
    }
    forall j | 0 <= j < |b| && Get(a, b[j].key).None?
      ensures SameAt(a, b, factors, b[j].key) <==> Under([b[j].key], factors)
    {
      NewKeySound(a, b, factors, j);
    }
    if forall key :: SameAt(a, b, factors, key) {
    }
    if AllUnder(Differences(a, b), factors) {
      forall key
        ensures SameAt(a, b, factors, key)
      {
        KeyUnder(a, b, factors, key);
      }
    }
  }

  lemma KeyUnder(a: seq<Field>, b: seq<Field>, factors: set<Path>, key: string)
    requires AllUnder(Differences(a, b), factors)
    requires forall i :: 0 <= i < |a| && AllUnder(At(a[i], b), factors) ==> SameAt(a, b, factors, a[i].key)
    requires forall j :: 0 <= j < |b| && Get(a, b[j].key).None? && Under([b[j].key], factors) ==>
               SameAt(a, b, factors, b[j].key)
    ensures SameAt(a, b, factors, key)
  {
    GetLacks(a, key);
    GetLacks(b, key);
    if !Lacks(a, key) {
      var i :| 0 <= i < |a| && a[i].key == key;
      forall p | p in At(a[i], b)
        ensures Under(p, factors)
      {
        assert p in Differences(a, b);
      }
    } else if !Lacks(b, key) {
      var j :| 0 <= j < |b| && b[j].key == key;
      assert [b[j].key] in Differences(a, b);
    }
  }

  // ----- dotted names -----

  predicate DotFree(key: string) {
    forall i :: 0 <= i < |key| ==> key[i] != '.'
  }

  /** How a path is written: its keys with dots between. */
  function Dotted(path: Path): string {
    if path == [] then "" else if |path| == 1 then path[0] else path[0] + "." + Dotted(path[1..])
  }

  ghost predicate DotFreePath(path: Path) {
    forall i :: 0 <= i < |path| ==> DotFree(path[i])
  }

  function UpToDot(w: string): (first: string)
    ensures |first| <= |w|
  {
    if w == "" || w[0] == '.' then "" else [w[0]] + UpToDot(w[1..])
  }

  lemma {:induction false} DotEnds(a: string, x: string)
    requires DotFree(a)
    ensures UpToDot(a + "." + x) == a && UpToDot(a) == a
  {
    if a == "" {
      assert a + "." + x == "." + x;
    } else {
      assert a + "." + x == [a[0]] + (a[1..] + "." + x) && a == [a[0]] + a[1..];
      DotEnds(a[1..], x);
    }
  }

  lemma FirstDot(a: string, x: string, b: string, y: string)
    requires DotFree(a) && DotFree(b) && a + "." + x == b + "." + y
    ensures a == b && x == y
  {
    var w := a + "." + x;
    DotEnds(a, x);
    DotEnds(b, y);
    assert x == w[|a| + 1..] && y == w[|b| + 1..];
  }

  lemma DottedFirst(path: Path)
    requires path != [] && DotFreePath(path)
    ensures UpToDot(Dotted(path)) == path[0]
  {
    DotEnds(path[0], Dotted(path[1..]));
  }

  /** The textual test of `training_ablations.py` is the prefix test, for keys without dots. */
  lemma {:induction false} DottedUnder(path: Path, factor: Path)
    requires path != [] && factor != [] && DotFreePath(path) && DotFreePath(factor)
    ensures Dotted(path) == Dotted(factor) || Dotted(factor) + "." <= Dotted(path) <==> factor <= path
    decreases |factor|
  {
    if |factor| == 1 {
      OneFactor(path, factor[0]);
      assert factor <= path <==> path[0] == factor[0];
    } else if |path| == 1 {
      OnePart(path[0], factor);
    } else {
      assert path == [path[0]] + path[1..] && factor == [factor[0]] + factor[1..];
      DottedUnder(path[1..], factor[1..]);
      LaterDots(path, factor);
    }
  }

  lemma OnePart(key: string, factor: Path)
    requires DotFree(key) && |factor| > 1
    ensures key != Dotted(factor) && !(Dotted(factor) + "." <= key)
  {
    var f := Dotted(factor);
    assert f[|factor[0]|] == '.';
    assert (f + ".")[|factor[0]|] == '.';
  }

  lemma OneFactor(path: Path, key: string)
    requires path != [] && DotFreePath(path) && DotFree(key)
    ensures Dotted(path) == key || key + "." <= Dotted(path) <==> path[0] == key
  {
    var p := Dotted(path);
    DottedFirst(path);
    DotEnds(key, "");
    if key + "." <= p {
      DotEnds(key, p[|key| + 1..]);
      assert p == key + "." + p[|key| + 1..];
    }
  }

  lemma LaterDots(path: Path, factor: Path)
    requires |path| > 1 && |factor| > 1 && DotFreePath(path) && DotFreePath(factor)
    ensures Dotted(path) == Dotted(factor) || Dotted(factor) + "." <= Dotted(path)
       <==> path[0] == factor[0]
            && (Dotted(path[1..]) == Dotted(factor[1..]) || Dotted(factor[1..]) + "." <= Dotted(path[1..]))
  {
    var x, y := Dotted(path[1..]), Dotted(factor[1..]);
    EqualSplit(path[0], x, factor[0], y);
    PrefixSplit(path[0], x, factor[0], y);
  }

  lemma EqualSplit(a: string, x: string, b: string, y: string)
    requires DotFree(a) && DotFree(b)
    ensures a + "." + x == b + "." + y <==> a == b && x == y
  {
    if a + "." + x == b + "." + y {
      FirstDot(a, x, b, y);
    }
  }

  lemma PrefixSplit(a: string, x: string, b: string, y: string)
    requires DotFree(a) && DotFree(b)
    ensures b + "." + y + "." <= a + "." + x <==> a == b && y + "." <= x
  {
    var p, f := a + "." + x, b + "." + y;
    if f + "." <= p {
      var rest := p[|f| + 1..];
      assert p == f + "." + rest == b + "." + (y + "." + rest);
      FirstDot(a, x, b, y + "." + rest);
    }
    if a == b && y + "." <= x {
      var rest := x[|y| + 1..];
      assert x == y + "." + rest;
      assert p == f + "." + rest;
    }
  }

  /** `dotted.split(".")` */
  function Parts(w: string): (path: Path)
    ensures path != []
    decreases |w|
  {
    var n := |UpToDot(w)|;
    if n == |w| then [w] else [w[..n]] + Parts(w[n + 1..])
  }

  lemma {:induction false} UpToDotSplits(w: string)
    ensures var n := |UpToDot(w)|;
            n <= |w| && w[..n] == UpToDot(w) && DotFree(w[..n]) && (n < |w| ==> w[n] == '.')
  {
    if w != "" && w[0] != '.' {
      UpToDotSplits(w[1..]);
      assert w == [w[0]] + w[1..];
    }
  }

  lemma {:induction false} PartsDotted(w: string)
    ensures Dotted(Parts(w)) == w && DotFreePath(Parts(w))
    decreases |w|
  {
    UpToDotSplits(w);
    var n := |UpToDot(w)|;
    if n < |w| {
      PartsDotted(w[n + 1..]);
      assert Parts(w)[1..] == Parts(w[n + 1..]);
      assert w == w[..n] + "." + w[n + 1..];
    } else {
      assert w[..n] == w;
    }
  }

  // ----- the constructor's test -----

  /** Keys are not empty and hold no dots, in every mapping. */
  predicate Plain(fields: seq<Field>)
    decreases fields
  {
    forall i :: 0 <= i < |fields| ==>
      fields[i].key != "" && DotFree(fields[i].key) && (fields[i].value.Map? ==> Plain(fields[i].value.fields))
  }

  lemma GetPlain(fields: seq<Field>, key: string)
    requires Plain(fields) && Get(fields, key).Some? && Get(fields, key).value.Map?
    ensures Plain(Get(fields, key).value.fields)
  {
    GetLacks(fields, key);
  }

  lemma {:induction false} PlainDifferences(a: seq<Field>, b: seq<Field>, p: Path)
    requires Plain(a) && Plain(b) && p in Differences(a, b)
    ensures p != [] && DotFreePath(p)
    decreases a
  {
    if i :| 0 <= i < |a| && p in At(a[i], b) {
      if Get(b, a[i].key).Some? {
        var w := Get(b, a[i].key).value;
        var rest :| rest in DifferencesOf(a[i].value, w) && p == [a[i].key] + rest;
        if a[i].value.Map? && w.Map? {
          GetPlain(b, a[i].key);
          PlainDifferences(a[i].value.fields, w.fields, rest);
        }
      }
    }
  }

  /** `path == factor or path.startswith(factor + ".")` for one of the factors. */
  predicate Declared(written: string, factors: set<string>) {
    exists factor :: factor in factors && (written == factor || factor + "." <= written)
  }

  /** What the constructor accepts: each difference, as written, is the ID or at or below a declared factor. */
  predicate VariantAccepted(base: seq<Field>, variant: seq<Field>, factors: set<string>) {
    forall p :: p in Differences(base, variant) ==> Dotted(p) == "id" || Declared(Dotted(p), factors)
  }

  /** What is erased: the ID and the factors. */
  function Erased(factors: set<string>): set<Path> {
    {["id"]} + set factor | factor in factors :: Parts(factor)
  }

  lemma DeclaredUnder(p: Path, factors: set<string>)
    requires p != [] && DotFreePath(p)
    ensures Under(p, Erased(factors)) <==> p[0] == "id" || Declared(Dotted(p), factors)
  {
    if Under(p, Erased(factors)) {
      var n :| 0 <= n <= |p| && p[..n] in Erased(factors);
      if p[..n] == ["id"] {
        assert p[..n][0] == p[0];
      } else {
        var factor :| factor in factors && Parts(factor) == p[..n];
        PartsDotted(factor);
        DottedUnder(p, Parts(factor));
      }
    }
    if p[0] == "id" {
      assert p[..1] == ["id"];
    }
    if factor :| factor in factors && (Dotted(p) == factor || factor + "." <= Dotted(p)) {
      PartsDotted(factor);
      DottedUnder(p, Parts(factor));
      assert p[..|Parts(factor)|] == Parts(factor);
    }
  }

  /** A difference below the ID is the ID itself, unless both IDs are mappings. */
  lemma IdAlone(base: seq<Field>, variant: seq<Field>, p: Path)
    requires UniqueKeys(base) && Plain(base) && Plain(variant) && p in Differences(base, variant)
    requires p != [] && p[0] == "id"
    requires Get(base, "id").Some? && Get(variant, "id").Some? ==>
               !(Get(base, "id").value.Map? && Get(variant, "id").value.Map?)
    ensures p == ["id"]
  {
    if i :| 0 <= i < |base| && p in At(base[i], variant) {
      GetAt(base, i);
      if Get(variant, base[i].key).Some? {
        var rest :| rest in DifferencesOf(base[i].value, Get(variant, base[i].key).value) && p == [base[i].key] + rest;
        assert base[i].key == p[0];
        assert rest == [];
      }
    }
  }

  lemma DottedId(p: Path)
    requires p != [] && DotFreePath(p)
    ensures Dotted(p) == "id" <==> p == ["id"]
  {
    DottedFirst(p);
    DotEnds("id", "");
    LongerThanFirst(p);
  }

  lemma LongerThanFirst(p: Path)
    requires p != []
    ensures |p| > 1 <==> |Dotted(p)| > |p[0]|
  {
  }

  /**
   * The constructor accepts a variant exactly when the variant and the base, with the ID and the factors erased, are
   * the suite's one common document. Only an ID that is a mapping in both is accepted more narrowly than that.
   */
  lemma VariantIsCommon(base: seq<Field>, variant: seq<Field>, factors: set<string>)
    requires Tidy(base) && Tidy(variant) && Plain(base) && Plain(variant)
    requires Get(base, "id").Some? && Get(variant, "id").Some? ==>
               !(Get(base, "id").value.Map? && Get(variant, "id").value.Map?)
    ensures VariantAccepted(base, variant, factors)
       <==> SameMaps(Purge(base, Erased(factors)), Purge(variant, Erased(factors)))
  {
    forall p | p in Differences(base, variant)
      ensures Under(p, Erased(factors)) <==> Dotted(p) == "id" || Declared(Dotted(p), factors)
    {
      PlainDifferences(base, variant, p);
      DeclaredUnder(p, factors);
      DottedId(p);
      if p[0] == "id" {
        IdAlone(base, variant, p);
      }
    }
    AblationExact(base, variant, Erased(factors));
  }
}
