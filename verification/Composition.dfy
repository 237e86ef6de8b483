/** Deep merging of configuration mappings, and setting one field of them. */
module Composition {
  import opened Results
  import opened Values

  // ----- dictionaries as field lists -----

  function Get(fields: seq<Field>, key: string): Option<Value> {
    if fields == [] then None
    else if fields[0].key == key then Some(fields[0].value)
    else Get(fields[1..], key)
  }

  /** `d[key] = value`: in place when the key is there, at the end otherwise. */
  function Put(fields: seq<Field>, key: string, value: Value): seq<Field> {
    if fields == [] then [Field(key, value)]
    else if fields[0].key == key then [Field(key, value)] + fields[1..]
    else [fields[0]] + Put(fields[1..], key, value)
  }

  function Keys(fields: seq<Field>): (keys: seq<string>)
    ensures |keys| == |fields| && forall i :: 0 <= i < |keys| ==> keys[i] == fields[i].key
  {
    if fields == [] then [] else [fields[0].key] + Keys(fields[1..])
  }

  predicate Lacks(fields: seq<Field>, key: string) {
    forall i :: 0 <= i < |fields| ==> fields[i].key != key
  }

  lemma {:induction false} GetLacks(fields: seq<Field>, key: string)
    ensures Get(fields, key).None? <==> Lacks(fields, key)
    ensures Get(fields, key).Some? ==> exists i :: 0 <= i < |fields| && fields[i] == Field(key, Get(fields, key).value)
  {
    if fields != [] {
      GetLacks(fields[1..], key);
      if fields[0].key == key {
        assert fields[0] == Field(key, Get(fields, key).value);
      } else if Get(fields, key).Some? {
        var i :| 0 <= i < |fields[1..]| && fields[1..][i] == Field(key, Get(fields[1..], key).value);
        assert fields[i + 1] == Field(key, Get(fields, key).value);
      }
      assert Lacks(fields, key) <==> fields[0].key != key && Lacks(fields[1..], key) by {
        assert fields == [fields[0]] + fields[1..];
      }
    }
  }

  lemma {:induction false} PutGet(fields: seq<Field>, key: string, value: Value, other: string)
    ensures Get(Put(fields, key, value), other) == if other == key then Some(value) else Get(fields, other)
  {
    if fields != [] && fields[0].key != key {
      PutGet(fields[1..], key, value, other);
    }
  }

  lemma {:induction false} PutKeys(fields: seq<Field>, key: string, value: Value)
    ensures Keys(Put(fields, key, value)) == if Lacks(fields, key) then Keys(fields) + [key] else Keys(fields)
  {
    if fields != [] {
      assert Lacks(fields, key) <==> fields[0].key != key && Lacks(fields[1..], key) by {
        assert fields == [fields[0]] + fields[1..];
      }
      if fields[0].key != key {
        PutKeys(fields[1..], key, value);
      }
    }
  }

  lemma {:induction false} PutUnique(fields: seq<Field>, key: string, value: Value)
    requires UniqueKeys(fields)
    ensures UniqueKeys(Put(fields, key, value))
  {
    PutKeys(fields, key, value);
    var put := Put(fields, key, value);
    forall i, j | 0 <= i < j < |put|
      ensures put[i].key != put[j].key
    {
      assert Keys(put)[i] == put[i].key && Keys(put)[j] == put[j].key;
    }
  }

  /** Setting the same key twice keeps the last value; setting a different key first does not matter to the first. */
  lemma {:induction false} PutPut(fields: seq<Field>, key: string, v: Value, w: Value)
    ensures Put(Put(fields, key, v), key, w) == Put(fields, key, w)
  {
    if fields != [] && fields[0].key != key {
      PutPut(fields[1..], key, v, w);
    }
  }

  lemma {:induction false} PutSwap(fields: seq<Field>, a: string, v: Value, b: string, w: Value)
    requires a != b && !Lacks(fields, a)
    ensures Put(Put(fields, a, v), b, w) == Put(Put(fields, b, w), a, v)
  {
    if fields[0].key != a {
      assert !Lacks(fields[1..], a);
      if fields[0].key != b {
        PutSwap(fields[1..], a, v, b, w);
      }
    }
  }

  // ----- the merge shared by resolver.py, config_bundle.py and training_composition.py -----

  const EXTENDS := "extends"

  /** What a child value becomes over what the parent holds under the same key. */
  function MergeValue(base: Option<Value>, over: Value): Value
    decreases over, 1
  {
    match base
    case Some(Map(fields)) => if over.Map? then Map(Merge(fields, over.fields)) else over
    case _ => over
  }

  function Merge(result: seq<Field>, child: seq<Field>): seq<Field>
    decreases child, 0
  {
    if child == [] then result
    else if child[0].key == EXTENDS then Merge(result, child[1..])
    else
      var key := child[0].key;
      Merge(Put(result, key, MergeValue(Get(result, key), child[0].value)), child[1..])
  }

  lemma UniqueTail(fields: seq<Field>)
    requires fields != [] && UniqueKeys(fields)
    ensures UniqueKeys(fields[1..]) && Lacks(fields[1..], fields[0].key)
  {
  }

  /** Every key holds the parent's value, the child's, or the two merged; the child's `extends` is dropped. */
  lemma {:induction false} MergeGet(parent: seq<Field>, child: seq<Field>, key: string)
    requires UniqueKeys(child)
    ensures Get(Merge(parent, child), key)
         == if key == EXTENDS || Get(child, key).None? then Get(parent, key)
            else Some(
              match (Get(parent, key), Get(child, key).value)
              case (Some(Map(older)), Map(newer)) => Map(Merge(older, newer))
              case (_, newer) => newer)
    decreases |child|
  {
    if child != [] {
      UniqueTail(child);
      var first := child[0].key;
      if first == EXTENDS {
        MergeGet(parent, child[1..], key);
      } else {
        var put := Put(parent, first, MergeValue(Get(parent, first), child[0].value));
        MergeGet(put, child[1..], key);
        PutGet(parent, first, MergeValue(Get(parent, first), child[0].value), key);
        GetLacks(child[1..], first);
      }
    }
  }

  /** The keys of `more` that are new, appended in order. */
  function Extend(keys: seq<string>, more: seq<string>): seq<string>
    decreases |more|
  {
    if more == [] then keys
    else if more[0] == EXTENDS || more[0] in keys then Extend(keys, more[1..])
    else Extend(keys + [more[0]], more[1..])
  }

  lemma KeysIn(fields: seq<Field>, key: string)
    ensures key in Keys(fields) <==> !Lacks(fields, key)
  {
    if !Lacks(fields, key) {
      var i :| 0 <= i < |fields| && fields[i].key == key;
      assert Keys(fields)[i] == key;
    }
  }

  lemma {:induction false} MergeKeys(parent: seq<Field>, child: seq<Field>)
    ensures Keys(Merge(parent, child)) == Extend(Keys(parent), Keys(child))
    decreases |child|
  {
    if child != [] {
      var first := child[0].key;
      assert Keys(child)[1..] == Keys(child[1..]);
      if first == EXTENDS {
        MergeKeys(parent, child[1..]);
      } else {
        var value := MergeValue(Get(parent, first), child[0].value);
        PutKeys(parent, first, value);
        KeysIn(parent, first);
        MergeKeys(Put(parent, first, value), child[1..]);
      }
    }
  }

  lemma {:induction false} MergeUnique(parent: seq<Field>, child: seq<Field>)
    requires UniqueKeys(parent)
    ensures UniqueKeys(Merge(parent, child))
    decreases |child|
  {
    if child != [] {
      if child[0].key == EXTENDS {
        MergeUnique(parent, child[1..]);
      } else {
        var value := MergeValue(Get(parent, child[0].key), child[0].value);
        PutUnique(parent, child[0].key, value);
        MergeUnique(Put(parent, child[0].key, value), child[1..]);
      }
    }
  }

  /** Two dictionaries are the same when they list the same keys and agree on each. */
  lemma {:induction false} SameFields(a: seq<Field>, b: seq<Field>)
    requires UniqueKeys(a) && UniqueKeys(b) && Keys(a) == Keys(b)
    requires forall key :: key in Keys(a) ==> Get(a, key) == Get(b, key)
    ensures a == b
    decreases |a|
  {
    if a != [] {
      assert |b| == |a| && a[0].key == Keys(a)[0] == b[0].key;
      assert a[0].key in Keys(a);
      UniqueTail(a);
      UniqueTail(b);
      assert Keys(a)[1..] == Keys(a[1..]) && Keys(b)[1..] == Keys(b[1..]);
      forall key | key in Keys(a[1..])
        ensures Get(a[1..], key) == Get(b[1..], key)
      {
        KeysIn(a[1..], key);
        assert key in Keys(a);
      }
      SameFields(a[1..], b[1..]);
      assert a == [a[0]] + a[1..] && b == [b[0]] + b[1..];
    }
  }

  lemma {:induction false} ExtendLast(keys: seq<string>, more: seq<string>, last: string)
    ensures var e := Extend(keys, more);
            Extend(keys, more + [last]) == if last == EXTENDS || last in e then e else e + [last]
    decreases |more|
  {
    if more == [] {
      assert more + [last] == [last];
    } else {
      assert (more + [last])[1..] == more[1..] + [last];
      ExtendLast(if more[0] == EXTENDS || more[0] in keys then keys else keys + [more[0]], more[1..], last);
    }
  }

  lemma {:induction false} ExtendHas(keys: seq<string>, more: seq<string>, key: string)
    ensures key in Extend(keys, more) <==> key in keys || (key != EXTENDS && key in more)
    decreases |more|
  {
    if more != [] {
      ExtendHas(if more[0] == EXTENDS || more[0] in keys then keys else keys + [more[0]], more[1..], key);
      assert more == [more[0]] + more[1..];
    }
  }

  lemma {:induction false} ExtendAssociates(a: seq<string>, b: seq<string>, c: seq<string>)
    ensures Extend(Extend(a, b), c) == Extend(a, Extend(b, c))
    decreases |c|
  {
    if c != [] {
      var init, last := c[..|c| - 1], c[|c| - 1];
      assert c == init + [last];
      ExtendAssociates(a, b, init);
      ExtendLast(Extend(a, b), init, last);
      ExtendLast(b, init, last);
      ExtendLast(a, Extend(b, init), last);
      ExtendHas(a, Extend(b, init), last);
    }
  }

  // ----- when merging is associative -----

  /** Merging `c` over `a` gives `c` back, key order included. */
  predicate Absorbed(a: seq<Field>, c: seq<Field>)
    decreases c
  {
    && |a| <= |c|
    && (forall i :: |a| <= i < |c| ==> c[i].key != EXTENDS)
    && forall i :: 0 <= i < |a| ==>
         && a[i].key == c[i].key
         && (a[i].key == EXTENDS ==> a[i].value == c[i].value)
         && (a[i].key != EXTENDS && a[i].value.Map? && c[i].value.Map?
             ==> Absorbed(a[i].value.fields, c[i].value.fields))
  }

  /**
   * No middle document replaces a mapping by something else between two mappings, unless the later mapping would hide
   * the earlier one anyway.
   */
  predicate Clashless(a: seq<Field>, b: seq<Field>, c: seq<Field>)
    decreases b
  {
    forall i :: 0 <= i < |b| && b[i].key != EXTENDS ==>
      match (Get(a, b[i].key), Get(c, b[i].key))
      case (Some(Map(older)), Some(Map(newer))) =>
        if b[i].value.Map? then Clashless(older, b[i].value.fields, newer) else Absorbed(older, newer)
      case _ => true
  }

  /** Distinct keys at every depth of mappings, which is all that merging looks into. */
  predicate Tidy(fields: seq<Field>)
    decreases fields
  {
    UniqueKeys(fields) && forall i :: 0 <= i < |fields| && fields[i].value.Map? ==> Tidy(fields[i].value.fields)
  }

  lemma GetAt(fields: seq<Field>, i: nat)
    requires UniqueKeys(fields) && i < |fields|
    ensures Get(fields, fields[i].key) == Some(fields[i].value)
    decreases i
  {
    if i > 0 {
      UniqueTail(fields);
      GetAt(fields[1..], i - 1);
    }
  }

  lemma GetTidy(fields: seq<Field>, key: string)
    requires Tidy(fields)
    ensures Get(fields, key).Some? && Get(fields, key).value.Map? ==> Tidy(Get(fields, key).value.fields)
  {
    GetLacks(fields, key);
  }

  lemma {:induction false} PutTidy(fields: seq<Field>, key: string, value: Value)
    requires Tidy(fields) && (value.Map? ==> Tidy(value.fields))
    ensures Tidy(Put(fields, key, value))
    decreases |fields|
  {
    PutUnique(fields, key, value);
    if fields != [] && fields[0].key != key {
      PutTidy(fields[1..], key, value);
    }
  }

  lemma {:induction false} MergeTidy(parent: seq<Field>, child: seq<Field>)
    requires Tidy(parent) && Tidy(child)
    ensures Tidy(Merge(parent, child))
    decreases child
  {
    if child != [] {
      var key, value := child[0].key, child[0].value;
      if key == EXTENDS {
        MergeTidy(parent, child[1..]);
      } else {
        GetTidy(parent, key);
        match Get(parent, key) {
          case Some(Map(older)) =>
            if value.Map? {
              MergeTidy(older, value.fields);
            }
          case _ =>
        }
        PutTidy(parent, key, MergeValue(Get(parent, key), value));
        MergeTidy(Put(parent, key, MergeValue(Get(parent, key), value)), child[1..]);
      }
    }
  }

  lemma {:induction false} AbsorbedExact(a: seq<Field>, c: seq<Field>)
    requires Tidy(a) && Tidy(c)
    ensures Merge(a, c) == c <==> Absorbed(a, c)
    decreases c, 2
  {
    if Merge(a, c) == c {
      MergeKeys(a, c);
      ExtendPrefix(Keys(a), Keys(c));
      forall i | 0 <= i < |a|
        ensures a[i].key == c[i].key
        ensures a[i].key == EXTENDS ==> a[i].value == c[i].value
        ensures a[i].key != EXTENDS && a[i].value.Map? && c[i].value.Map? ==>
                  Absorbed(a[i].value.fields, c[i].value.fields)
      {
        assert Keys(a)[i] == Keys(c)[i];
        MergeAt(a, c, i);
      }
      forall i | 0 <= i < |c| && c[i].key == EXTENDS
        ensures i < |a|
      {
        ExtendsInside(a, c, i);
      }
    }
    if Absorbed(a, c) {
      AbsorbedMerge(a, c);
    }
  }

  lemma ExtendsInside(a: seq<Field>, c: seq<Field>, i: nat)
    requires UniqueKeys(c) && Merge(a, c) == c && Keys(a) <= Keys(c)
    requires i < |c| && c[i].key == EXTENDS
    ensures i < |a|
  {
    MergeGet(a, c, EXTENDS);
    GetAt(c, i);
    GetLacks(a, EXTENDS);
    var j :| 0 <= j < |a| && a[j].key == EXTENDS;
    assert Keys(a)[j] == Keys(c)[j] == EXTENDS;
  }

  lemma {:induction false} AbsorbedMerge(a: seq<Field>, c: seq<Field>)
    requires Tidy(a) && Tidy(c) && Absorbed(a, c)
    ensures Merge(a, c) == c
    decreases c, 1
  {
    MergeKeys(a, c);
    MergeUnique(a, c);
    ExtendSuffix(Keys(a), Keys(c));
    forall key | key in Keys(c)
      ensures Get(Merge(a, c), key) == Get(c, key)
    {
      var i :| 0 <= i < |c| && Keys(c)[i] == key;
      GetAt(c, i);
      MergeGet(a, c, key);
      if i < |a| {
        GetAt(a, i);
        if key != EXTENDS && a[i].value.Map? && c[i].value.Map? {
          AbsorbedExact(a[i].value.fields, c[i].value.fields);
        }
      } else {
        GetLacks(a, key);
        assert Lacks(a, key);
      }
    }
    SameFields(Merge(a, c), c);
  }

  lemma {:induction false} MergeAt(a: seq<Field>, c: seq<Field>, i: nat)
    requires Tidy(a) && Tidy(c) && Merge(a, c) == c && i < |a| && i < |c| && a[i].key == c[i].key
    ensures a[i].key == EXTENDS ==> a[i].value == c[i].value
    ensures a[i].key != EXTENDS && a[i].value.Map? && c[i].value.Map? ==>
              Absorbed(a[i].value.fields, c[i].value.fields)
    decreases c, 0
  {
    MergeGet(a, c, a[i].key);
    GetAt(a, i);
    GetAt(c, i);
    if a[i].key != EXTENDS && a[i].value.Map? && c[i].value.Map? {
      AbsorbedExact(a[i].value.fields, c[i].value.fields);
    }
  }

  lemma {:induction false} ExtendPrefix(keys: seq<string>, more: seq<string>)
    ensures keys <= Extend(keys, more)
    decreases |more|
  {
    if more != [] {
      ExtendPrefix(if more[0] == EXTENDS || more[0] in keys then keys else keys + [more[0]], more[1..]);
    }
  }

  lemma {:induction false} ExtendSuffix(keys: seq<string>, more: seq<string>)
    requires keys <= more && forall i, j :: 0 <= i < j < |more| ==> more[i] != more[j]
    requires forall i :: |keys| <= i < |more| ==> more[i] != EXTENDS
    ensures Extend(keys, more) == more
    decreases |more|
  {
    if |more| == |keys| {
      ExtendAllIn(keys, more);
    } else {
      var init, last := more[..|more| - 1], more[|more| - 1];
      assert more == init + [last];
      ExtendSuffix(keys, init);
      ExtendLast(keys, init, last);
    }
  }

  lemma {:induction false} ExtendAllIn(keys: seq<string>, more: seq<string>)
    requires forall i :: 0 <= i < |more| ==> more[i] in keys
    ensures Extend(keys, more) == keys
    decreases |more|
  {
    if more != [] {
      ExtendAllIn(keys, more[1..]);
    }
  }

  /** The two ways to fold three documents agree on one key. */
  ghost predicate AgreeAt(a: seq<Field>, b: seq<Field>, c: seq<Field>, key: string) {
    Get(Merge(Merge(a, b), c), key) == Get(Merge(a, Merge(b, c)), key)
  }

  lemma {:induction false} AssociativeKeys(a: seq<Field>, b: seq<Field>, c: seq<Field>)
    requires UniqueKeys(a) && UniqueKeys(b)
    ensures var l, r := Merge(Merge(a, b), c), Merge(a, Merge(b, c));
            Keys(l) == Keys(r) && UniqueKeys(l) && UniqueKeys(r)
  {
    MergeKeys(a, b);
    MergeKeys(b, c);
    MergeKeys(Merge(a, b), c);
    MergeKeys(a, Merge(b, c));
    ExtendAssociates(Keys(a), Keys(b), Keys(c));
    MergeUnique(a, b);
    MergeUnique(Merge(a, b), c);
    MergeUnique(a, Merge(b, c));
  }

  lemma AssociativeByKey(a: seq<Field>, b: seq<Field>, c: seq<Field>)
    requires UniqueKeys(a) && UniqueKeys(b)
    ensures Merge(Merge(a, b), c) == Merge(a, Merge(b, c)) <==> forall key :: AgreeAt(a, b, c, key)
  {
    AssociativeKeys(a, b, c);
    if forall key :: AgreeAt(a, b, c, key) {
      assert forall key :: AgreeAt(a, b, c, key) ==> Get(Merge(Merge(a, b), c), key) == Get(Merge(a, Merge(b, c)), key);
      SameFields(Merge(Merge(a, b), c), Merge(a, Merge(b, c)));
    }
  }

  /** The value-level reading of `AgreeAt`. */
  lemma AgreeValues(a: seq<Field>, b: seq<Field>, c: seq<Field>, key: string)
    requires UniqueKeys(a) && UniqueKeys(b) && UniqueKeys(c)
    ensures AgreeAt(a, b, c, key) <==>
            (key == EXTENDS || Get(b, key).None? || Get(c, key).None?
             || MergeValue(Some(MergeValue(Get(a, key), Get(b, key).value)), Get(c, key).value)
                == MergeValue(Get(a, key), MergeValue(Get(b, key), Get(c, key).value)))
  {
    MergeUnique(b, c);
    MergeGet(a, b, key);
    MergeGet(b, c, key);
    MergeGet(Merge(a, b), c, key);
    MergeGet(a, Merge(b, c), key);
  }

  /**
   * Folding an `extends` chain may be regrouped exactly when no document in the middle replaces a mapping by something
   * else between two mappings that differ. Nested `extends` keys do not matter.
   */
  lemma {:induction false} MergeAssociative(a: seq<Field>, b: seq<Field>, c: seq<Field>)
    requires Tidy(a) && Tidy(b) && Tidy(c)
    ensures Merge(Merge(a, b), c) == Merge(a, Merge(b, c)) <==> Clashless(a, b, c)
    decreases b
  {
    AssociativeByKey(a, b, c);
    forall i | 0 <= i < |b|
      ensures AgreeAt(a, b, c, b[i].key) <==> b[i].key == EXTENDS || ClashlessAt(a, b, c, i)
    {
      AgreeAtIndex(a, b, c, i);
    }
    forall key | Lacks(b, key)
      ensures AgreeAt(a, b, c, key)
    {
      GetLacks(b, key);
      AgreeValues(a, b, c, key);
    }
    if Clashless(a, b, c) {
      forall key
        ensures AgreeAt(a, b, c, key)
      {
        if !Lacks(b, key) {
          var i :| 0 <= i < |b| && b[i].key == key;
          assert ClashlessAt(a, b, c, i) || key == EXTENDS;
        }
      }
    }
  }

  predicate ClashlessAt(a: seq<Field>, b: seq<Field>, c: seq<Field>, i: nat)
    requires i < |b|
  {
    match (Get(a, b[i].key), Get(c, b[i].key))
    case (Some(Map(older)), Some(Map(newer))) =>
      if b[i].value.Map? then Clashless(older, b[i].value.fields, newer) else Absorbed(older, newer)
    case _ => true
  }

  lemma {:induction false} AgreeAtIndex(a: seq<Field>, b: seq<Field>, c: seq<Field>, i: nat)
    requires Tidy(a) && Tidy(b) && Tidy(c) && i < |b|
    ensures AgreeAt(a, b, c, b[i].key) <==> b[i].key == EXTENDS || ClashlessAt(a, b, c, i)
    decreases b, 0
  {
    var key := b[i].key;
    GetAt(b, i);
    GetTidy(a, key);
    GetTidy(c, key);
    AgreeValues(a, b, c, key);
    match (Get(a, key), Get(c, key))
    case (Some(Map(older)), Some(Map(newer))) =>
      if b[i].value.Map? {
        MergeAssociative(older, b[i].value.fields, newer);
      } else {
        AbsorbedExact(older, newer);
      }
    case _ =>
  }

  /** A three-document chain that regroups differently: a mapping, then a word, then a mapping again. */
  lemma RegroupingCounterexample()
    ensures var a := [Field("x", Map([Field("p", Int(1))]))];
            var b := [Field("x", Str("off"))];
            var c := [Field("x", Map([Field("q", Int(2))]))];
            Merge(Merge(a, b), c) == c && Merge(a, Merge(b, c)) != c
  {
    var a := [Field("x", Map([Field("p", Int(1))]))];
    var b := [Field("x", Str("off"))];
    var c := [Field("x", Map([Field("q", Int(2))]))];
    MergeGet(a, b, "x");
    MergeGet(b, c, "x");
    MergeGet(a, Merge(b, c), "x");
    assert Merge(a, b) == b && Merge(b, c) == c;
    var inner, over := a[0].value.fields, c[0].value.fields;
    MergeGet(inner, over, "p");
    assert Get(inner, "p") == Some(Int(1)) && Get(over, "p") == None;
  }

  // ----- setting one field below a path of mappings -----

  /** `document[p0][p1]...[pn] = value`: every step on the way must already be a mapping. */
  function SetDeep(fields: seq<Field>, path: seq<string>, value: Value): Result<seq<Field>>
    requires path != []
    decreases path
  {
    if |path| == 1 then Ok(Put(fields, path[0], value))
    else
      match Get(fields, path[0])
      case Some(Map(inner)) =>
        var changed :- SetDeep(inner, path[1..], value);
        Ok(Put(fields, path[0], Map(changed)))
      case _ => Err
  }

  /** The same through `setdefault(p, {})`: a missing step becomes an empty mapping; anything else is refused. */
  function SetDefaultDeep(fields: seq<Field>, path: seq<string>, value: Value): Result<seq<Field>>
    requires path != []
    decreases path
  {
    if |path| == 1 then Ok(Put(fields, path[0], value))
    else
      match Get(fields, path[0])
      case None =>
        var changed :- SetDefaultDeep([], path[1..], value);
        Ok(Put(fields, path[0], Map(changed)))
      case Some(Map(inner)) =>
        var changed :- SetDefaultDeep(inner, path[1..], value);
        Ok(Put(fields, path[0], Map(changed)))
      case _ => Err
  }

  /** What a document holds at the end of a path. */
  function Lookup(fields: seq<Field>, path: seq<string>): Option<Value>
    requires path != []
    decreases path
  {
    if |path| == 1 then Get(fields, path[0])
    else
      match Get(fields, path[0])
      case Some(Map(inner)) => Lookup(inner, path[1..])
      case _ => None
  }

  lemma {:induction false} SetDeepIsDefault(fields: seq<Field>, path: seq<string>, value: Value)
    requires path != [] && SetDeep(fields, path, value).Ok?
    ensures SetDefaultDeep(fields, path, value) == SetDeep(fields, path, value)
    decreases path
  {
    if |path| > 1 {
      SetDeepIsDefault(Get(fields, path[0]).value.fields, path[1..], value);
    }
  }

  /** The field holds the value set, and every path that neither contains it nor lies below it is unchanged. */
  /** What stands at a step of a path, before its end. */
  predicate IsStep(fields: seq<Field>, path: seq<string>, k: nat)
    requires 0 < k <= |path|
  {
    Lookup(fields, path[..k]).Some? && Lookup(fields, path[..k]).value.Map?
  }

  /** What `setdefault` leaves alone or makes a mapping of. */
  predicate IsPassable(fields: seq<Field>, path: seq<string>, k: nat)
    requires 0 < k <= |path|
  {
    Lookup(fields, path[..k]).None? || Lookup(fields, path[..k]).value.Map?
  }

  lemma StepBelow(fields: seq<Field>, path: seq<string>, k: nat)
    requires 1 < k <= |path|
    ensures var first := Get(fields, path[0]);
            && Lookup(fields, path[..1]) == first
            && Lookup(fields, path[..k])
               == if first.Some? && first.value.Map? then Lookup(first.value.fields, path[1..][..k - 1]) else None
  {
    assert path[..1] == [path[0]] && path[..k][0] == path[0] && path[..k][1..] == path[1..][..k - 1];
  }

  /** A field can be set exactly when every step on its way is a mapping. */
  lemma {:induction false} SetsAlong(fields: seq<Field>, path: seq<string>, value: Value)
    requires path != []
    ensures SetDeep(fields, path, value).Ok? <==> forall k :: 0 < k < |path| ==> IsStep(fields, path, k)
    decreases path
  {
    if |path| > 1 {
      StepBelow(fields, path, 2);
      var first := Get(fields, path[0]);
      if first.Some? && first.value.Map? {
        var inner := first.value.fields;
        SetsAlong(inner, path[1..], value);
        forall k | 1 < k < |path|
          ensures IsStep(fields, path, k) == IsStep(inner, path[1..], k - 1)
        {
          StepBelow(fields, path, k);
        }
        if forall k :: 0 < k < |path| ==> IsStep(fields, path, k) {
          forall k | 0 < k < |path[1..]|
            ensures IsStep(inner, path[1..], k)
          {
            assert IsStep(fields, path, k + 1);
          }
        }
      } else {
        assert !IsStep(fields, path, 1);
      }
    }
  }

  /** With `setdefault` the steps may be missing too, but none may be anything else. */
  lemma {:induction false} SetsDefaultAlong(fields: seq<Field>, path: seq<string>, value: Value)
    requires path != []
    ensures SetDefaultDeep(fields, path, value).Ok? <==> forall k :: 0 < k < |path| ==> IsPassable(fields, path, k)
    decreases path
  {
    if |path| > 1 {
      StepBelow(fields, path, 2);
      var first := Get(fields, path[0]);
      if first.None? {
        SetsDefaultAlong([], path[1..], value);
        forall k | 0 < k < |path|
          ensures IsPassable(fields, path, k)
        {
          if k > 1 {
            StepBelow(fields, path, k);
          }
        }
        forall k | 0 < k < |path[1..]|
          ensures IsPassable([], path[1..], k)
        {
          NothingThere(path[1..][..k]);
        }
      } else if first.value.Map? {
        var inner := first.value.fields;
        SetsDefaultAlong(inner, path[1..], value);
        forall k | 1 < k < |path|
          ensures IsPassable(fields, path, k) == IsPassable(inner, path[1..], k - 1)
        {
          StepBelow(fields, path, k);
        }
        if forall k :: 0 < k < |path| ==> IsPassable(fields, path, k) {
          forall k | 0 < k < |path[1..]|
            ensures IsPassable(inner, path[1..], k)
          {
            assert IsPassable(fields, path, k + 1);
          }
        }
      } else {
        assert !IsPassable(fields, path, 1);
      }
    }
  }

  lemma NothingThere(path: seq<string>)
    requires path != []
    ensures Lookup([], path).None?
  {
  }

  lemma {:induction false} SetDefaultFrame(fields: seq<Field>, path: seq<string>, value: Value, other: seq<string>)
    requires path != [] && other != [] && SetDefaultDeep(fields, path, value).Ok?
    ensures Lookup(SetDefaultDeep(fields, path, value).value, path) == Some(value)
    ensures !(path <= other) && !(other <= path) ==>
              Lookup(SetDefaultDeep(fields, path, value).value, other) == Lookup(fields, other)
    decreases path
  {
    if |path| == 1 {
      PutGet(fields, path[0], value, path[0]);
      PutGet(fields, path[0], value, other[0]);
      assert other[0] == path[0] ==> path <= other;
    } else {
      var inner := if Get(fields, path[0]).None? then [] else Get(fields, path[0]).value.fields;
      var changed := SetDefaultDeep(inner, path[1..], value).value;
      PutGet(fields, path[0], Map(changed), path[0]);
      PutGet(fields, path[0], Map(changed), other[0]);
      if |other| > 1 && other[0] == path[0] {
        SetDefaultFrame(inner, path[1..], value, other[1..]);
      } else {
        SetDefaultFrame(inner, path[1..], value, path[1..]);
      }
    }
  }

  lemma {:induction false} MergePutLacking(base: seq<Field>, child: seq<Field>, key: string, value: Value)
    requires !Lacks(base, key) && Lacks(child, key)
    ensures Merge(Put(base, key, value), child) == Put(Merge(base, child), key, value)
    decreases |child|
  {
    if child != [] {
      var first := child[0].key;
      assert Lacks(child[1..], key) && first != key;
      if first == EXTENDS {
        MergePutLacking(base, child[1..], key, value);
      } else {
        var over := MergeValue(Get(base, first), child[0].value);
        PutGet(base, key, value, first);
        PutSwap(base, key, value, first, over);
        PutKeys(base, first, over);
        KeysIn(base, key);
        KeysIn(Put(base, first, over), key);
        MergePutLacking(Put(base, first, over), child[1..], key, value);
      }
    }
  }

  /** Setting a child's key before merging is setting the merged document's key afterwards. */
  lemma {:induction false} MergePut(parent: seq<Field>, child: seq<Field>, key: string, value: Value)
    requires UniqueKeys(child) && key != EXTENDS
    ensures Merge(parent, Put(child, key, value)) == Put(Merge(parent, child), key, MergeValue(Get(parent, key), value))
    decreases |child|
  {
    if child != [] {
      UniqueTail(child);
      var first := child[0].key;
      var over := MergeValue(Get(parent, first), child[0].value);
      if first == key {
        MergePutHere(parent, child, key, value);
      } else {
        assert Put(child, key, value)[1..] == Put(child[1..], key, value);
        if first == EXTENDS {
          MergePut(parent, child[1..], key, value);
        } else {
          PutGet(parent, first, over, key);
          MergePut(Put(parent, first, over), child[1..], key, value);
        }
      }
    }
  }

  lemma MergePutHere(parent: seq<Field>, child: seq<Field>, key: string, value: Value)
    requires UniqueKeys(child) && key != EXTENDS && child != [] && child[0].key == key
    ensures Merge(parent, Put(child, key, value)) == Put(Merge(parent, child), key, MergeValue(Get(parent, key), value))
  {
    UniqueTail(child);
    var before, after := MergeValue(Get(parent, key), child[0].value), MergeValue(Get(parent, key), value);
    PutKeys(parent, key, before);
    KeysIn(parent, key);
    KeysIn(Put(parent, key, before), key);
    MergePutLacking(Put(parent, key, before), child[1..], key, after);
    PutPut(parent, key, before, after);
    assert Put(child, key, value)[1..] == child[1..];
  }

  /**
   * Setting a field in the leaf document, creating the mappings on the way, and merging the leaf over its ancestors
   * gives exactly what merging first and setting the field in the result gives, whenever the result takes the field.
   */
  lemma {:induction false} OverlayCommutes(parent: seq<Field>, child: seq<Field>, path: seq<string>, value: Value)
    requires Tidy(child) && path != [] && EXTENDS !in path && !value.Map?
    requires SetDefaultDeep(Merge(parent, child), path, value).Ok?
    ensures SetDefaultDeep(child, path, value).Ok?
    ensures Merge(parent, SetDefaultDeep(child, path, value).value)
         == SetDefaultDeep(Merge(parent, child), path, value).value
    decreases path
  {
    var key := path[0];
    if |path| == 1 {
      MergePut(parent, child, key, value);
    } else {
      MergeGet(parent, child, key);
      GetTidy(child, key);
      var older, newer := Get(parent, key), Get(child, key);
      if newer.None? {
        var inner := if older.None? then [] else older.value.fields;
        OverlayCommutes(inner, [], path[1..], value);
        MergePut(parent, child, key, Map(SetDefaultDeep([], path[1..], value).value));
      } else if older.Some? && older.value.Map? {
        OverlayCommutes(older.value.fields, newer.value.fields, path[1..], value);
        MergePut(parent, child, key, Map(SetDefaultDeep(newer.value.fields, path[1..], value).value));
      } else {
        MergePut(parent, child, key, Map(SetDefaultDeep(newer.value.fields, path[1..], value).value));
      }
    }
  }

  // ----- the program's own loop -----

  method MergeDocuments(parent: seq<Field>, child: seq<Field>) returns (result: seq<Field>)
    ensures result == Merge(parent, child)
    decreases child
  {
    result := parent;
    assert child[0..] == child;
    for i := 0 to |child|
      invariant Merge(result, child[i..]) == Merge(parent, child)
    {
      assert child[i..][0] == child[i] && child[i..][1..] == child[i + 1..];
      var key, value := child[i].key, child[i].value;
      if key == EXTENDS {
        continue;
      }
      var held := Get(result, key);
      if value.Map? && held.Some? && held.value.Map? {
        var merged := MergeDocuments(held.value.fields, value.fields);
        result := Put(result, key, Map(merged));
      } else {
        result := Put(result, key, value);
      }
    }
  }
}
