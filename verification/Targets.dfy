/** Choosing adapter targets by selectors, and reporting how much of what they match was chosen. */
module Targets {
  import opened Results
  import opened Lists
  import opened Orders

  datatype Module = Module(used: bool, supported: bool)

  /** The modules of the host by name, in inventory order. */
  datatype Inventory = Inventory(order: seq<string>, modules: map<string, Module>)
  {
    predicate Valid() {
      Distinct(order) && modules.Keys == Elements(order)
    }

    predicate Uses(name: string) {
      name in modules && modules[name].used
    }
  }

  datatype Choice = Names(names: seq<string>) | Pattern(pattern: string) | Malformed

  /** One target selector. Regions, layer lists and the flag are absent, given, or of the wrong type. */
  datatype Selector = Selector(
    choice: Choice, region: Option<string>, layers: Option<set<nat>>, badLayers: bool, activeOnly: bool, badFlag: bool)

  /**
   * What is not modelled: regular expressions, the region and layer of a module name, the profile, placement and
   * adapter checks of one target, and the placement's demand on the whole selection.
   */
  datatype Rules = Rules(
    matches: (string, string) -> bool, region: string -> string, layer: string -> Option<nat>,
    admits: (Selector, string) -> bool, complete: set<string> -> bool)

  function Filter(names: seq<string>, keep: string -> bool): (kept: seq<string>)
    ensures forall i :: 0 <= i < |kept| ==> keep(kept[i]) && kept[i] in names
    ensures forall i :: 0 <= i < |names| && keep(names[i]) ==> names[i] in kept
  {
    if names == [] then [] else (if keep(names[0]) then [names[0]] else []) + Filter(names[1..], keep)
  }

  /** `_selector_matches` */
  function Matches(rules: Rules, inventory: Inventory, selector: Selector): Result<seq<string>> {
    match selector.choice
    case Malformed => Err
    case Names(names) =>
      if names == [] || exists i :: 0 <= i < |names| && names[i] !in inventory.modules then Err
      else Narrowed(rules, selector, names)
    case Pattern(pattern) =>
      Narrowed(rules, selector, Filter(inventory.order, name => rules.matches(pattern, name)))
  }

  function Narrowed(rules: Rules, selector: Selector, names: seq<string>): Result<seq<string>> {
    var inRegion := if selector.region.Some? && selector.region.value != ""
                    then Filter(names, name => rules.region(name) == selector.region.value) else names;
    if selector.badLayers then Err
    else
      var found :=
        if selector.layers.None? then inRegion
        else Filter(inRegion, n => rules.layer(n).Some? && rules.layer(n).value in selector.layers.value);
      if found == [] then Err else Ok(found)
  }

  lemma {:induction false} FilterOnce(names: seq<string>, keep: string -> bool)
    requires Distinct(names)
    ensures Distinct(Filter(names, keep))
    decreases |names|
  {
    if names != [] {
      FilterOnce(names[1..], keep);
      assert forall i :: 0 <= i < |names[1..]| ==> names[1..][i] == names[i + 1];
    }
  }

  /** A module is in the region and in one of the layers a selector asks for, if it asks. */
  predicate Placed(rules: Rules, selector: Selector, name: string) {
    && (selector.region.Some? && selector.region.value != "" ==> rules.region(name) == selector.region.value)
    && (selector.layers.Some? ==> rules.layer(name).Some? && rules.layer(name).value in selector.layers.value)
  }

  /** A module is named by a selector, or its pattern matches it. */
  predicate Chooses(rules: Rules, inventory: Inventory, selector: Selector, name: string) {
    match selector.choice
    case Malformed => false
    case Names(names) => name in names
    case Pattern(pattern) => name in inventory.order && rules.matches(pattern, name)
  }

  /** It asks in one of the two ways, names only modules there are, and lists its layers properly. */
  predicate WellFormed(inventory: Inventory, selector: Selector) {
    && !selector.choice.Malformed? && !selector.badLayers
    && (selector.choice.Names? ==> forall i :: 0 <= i < |selector.choice.names| ==>
          selector.choice.names[i] in inventory.modules)
  }

  lemma NarrowedMeans(rules: Rules, selector: Selector, names: seq<string>)
    ensures var r := Narrowed(rules, selector, names);
            && (r.Ok? <==> !selector.badLayers && exists x :: x in names && Placed(rules, selector, x))
            && (r.Ok? ==> forall x :: x in r.value <==> x in names && Placed(rules, selector, x))
  {
    var inRegion := if selector.region.Some? && selector.region.value != ""
                    then Filter(names, name => rules.region(name) == selector.region.value) else names;
    var found :=
      if selector.layers.None? then inRegion
      else Filter(inRegion, n => rules.layer(n).Some? && rules.layer(n).value in selector.layers.value);
    forall x
      ensures x in found <==> x in names && Placed(rules, selector, x)
    {
      assert x in inRegion <==>
             x in names && (selector.region.Some? && selector.region.value != "" ==>
                              rules.region(x) == selector.region.value);
    }
    if found != [] {
      assert found[0] in found;
    }
  }

  /** A well-formed selector matches exactly the modules it chooses within its region and layers, if there are any. */
  lemma MatchesMean(rules: Rules, inventory: Inventory, selector: Selector)
    ensures var r := Matches(rules, inventory, selector);
            && (r.Ok? <==>
                && WellFormed(inventory, selector)
                && exists x :: Chooses(rules, inventory, selector, x) && Placed(rules, selector, x))
            && (r.Ok? ==> forall x ::
                  x in r.value <==> Chooses(rules, inventory, selector, x) && Placed(rules, selector, x))
  {
    match selector.choice
    case Malformed =>
    case Names(names) => NarrowedMeans(rules, selector, names);
    case Pattern(pattern) =>
      NarrowedMeans(rules, selector, Filter(inventory.order, name => rules.matches(pattern, name)));
  }

  /** A pattern matches no module twice. */
  lemma PatternOnce(rules: Rules, inventory: Inventory, selector: Selector)
    requires inventory.Valid() && selector.choice.Pattern? && Matches(rules, inventory, selector).Ok?
    ensures Distinct(Matches(rules, inventory, selector).value)
  {
    var names := Filter(inventory.order, name => rules.matches(selector.choice.pattern, name));
    FilterOnce(inventory.order, name => rules.matches(selector.choice.pattern, name));
    if selector.region.Some? && selector.region.value != "" {
      FilterOnce(names, name => rules.region(name) == selector.region.value);
      names := Filter(names, name => rules.region(name) == selector.region.value);
    }
    if selector.layers.Some? {
      FilterOnce(names, n => rules.layer(n).Some? && rules.layer(n).value in selector.layers.value);
    }
  }

  /** Selecting by some notion of matching, which `Finding` fixes. */
  type Finder = Selector -> Result<seq<string>>

  function Finding(rules: Rules, inventory: Inventory): Finder {
    selector => Matches(rules, inventory, selector)
  }

  /** Whatever a selector matches is not nothing, and in the inventory. */
  ghost predicate Inside(find: Finder, inventory: Inventory) {
    forall selector :: find(selector).Ok? ==>
      find(selector).value != [] && Elements(find(selector).value) <= inventory.modules.Keys
  }

  lemma ElementsKept(names: seq<string>, keep: string -> bool, all: set<string>)
    requires Elements(names) <= all
    ensures Elements(Filter(names, keep)) <= all
  {
    var kept := Filter(names, keep);
    forall x | x in Elements(kept)
      ensures x in all
    {
      var i :| 0 <= i < |kept| && kept[i] == x;
      assert kept[i] in names;
      var k :| 0 <= k < |names| && names[k] == x;
    }
  }

  lemma NarrowedInside(rules: Rules, selector: Selector, names: seq<string>, all: set<string>)
    requires Elements(names) <= all && Narrowed(rules, selector, names).Ok?
    ensures Elements(Narrowed(rules, selector, names).value) <= all
  {
    var inRegion := names;
    if selector.region.Some? && selector.region.value != "" {
      inRegion := Filter(names, name => rules.region(name) == selector.region.value);
      ElementsKept(names, name => rules.region(name) == selector.region.value, all);
    }
    if selector.layers.Some? {
      ElementsKept(
        inRegion, name => rules.layer(name).Some? && rules.layer(name).value in selector.layers.value, all);
    }
  }

  lemma FindingInside(rules: Rules, inventory: Inventory)
    requires inventory.Valid()
    ensures Inside(Finding(rules, inventory), inventory)
  {
    forall selector | Matches(rules, inventory, selector).Ok?
      ensures Matches(rules, inventory, selector).value != []
      ensures Elements(Matches(rules, inventory, selector).value) <= inventory.modules.Keys
    {
      match selector.choice
      case Names(names) => NarrowedInside(rules, selector, names, inventory.modules.Keys);
      case Pattern(pattern) =>
        var names := Filter(inventory.order, name => rules.matches(pattern, name));
        ElementsKept(inventory.order, name => rules.matches(pattern, name), inventory.modules.Keys);
        NarrowedInside(rules, selector, names, inventory.modules.Keys);
    }
  }

  /** What all selectors match together. */
  function AllMatched(find: Finder, selectors: seq<Selector>): set<string> {
    if selectors == [] then {}
    else
      var n := |selectors| - 1;
      AllMatched(find, selectors[..n]) + if find(selectors[n]).Ok? then Elements(find(selectors[n]).value) else {}
  }

  function Active(inventory: Inventory, names: set<string>): set<string> {
    set name | name in names && inventory.Uses(name)
  }

  method InOrder(names: seq<string>) returns (sorted: seq<string>)
    ensures sorted == Sort(TextBefore, names) && Elements(sorted) == Elements(names)
    ensures Distinct(sorted) <==> Distinct(names)
  {
    sorted := Sort(TextBefore, names);
    SortKeeps(TextBefore, names);
    Regrouped(names, sorted);
    OnceEach(names, sorted);
  }

  lemma {:induction false} OnceMeans(s: seq<string>)
    ensures Distinct(s) <==> forall x :: multiset(s)[x] <= 1
    decreases |s|
  {
    if s != [] {
      var n := |s| - 1;
      assert s == s[..n] + [s[n]];
      OnceMeans(s[..n]);
      assert forall x :: multiset(s)[x] == multiset(s[..n])[x] + if x == s[n] then 1 else 0;
      if s[n] in s[..n] {
        var i :| 0 <= i < n && s[..n][i] == s[n];
        assert multiset(s)[s[n]] > 1 && s[i] == s[n];
      }
    }
  }

  lemma OnceEach(a: seq<string>, b: seq<string>)
    requires multiset(a) == multiset(b)
    ensures Distinct(a) <==> Distinct(b)
  {
    OnceMeans(a);
    OnceMeans(b);
  }

  /** A module that may be a target of a selector. */
  predicate Usable(rules: Rules, inventory: Inventory, selector: Selector, name: string) {
    name in inventory.modules && inventory.modules[name].used && inventory.modules[name].supported
    && rules.admits(selector, name)
  }

  /** None is named twice or chosen before, and each may be a target. */
  ghost predicate Addable(
      rules: Rules, inventory: Inventory, selector: Selector, names: seq<string>, selected: set<string>)
  {
    && Distinct(names) && Elements(names) !! selected
    && forall x :: x in Elements(names) ==> Usable(rules, inventory, selector, x)
  }

  /** One selector's targets, added one by one in name order; any refusal refuses the whole selection. */
  method AddTargets(
      rules: Rules, inventory: Inventory, selector: Selector, names: seq<string>, selected: set<string>)
    returns (r: Result<set<string>>)
    requires Elements(names) <= inventory.modules.Keys
    ensures r.Ok? <==> Addable(rules, inventory, selector, names, selected)
    ensures r.Ok? ==> r.value == selected + Elements(names)
  {
    var sorted := InOrder(names);
    var chosen := selected;
    for i := 0 to |sorted|
      invariant chosen == selected + Elements(sorted[..i])
      invariant Addable(rules, inventory, selector, sorted[..i], selected)
    {
      var name := sorted[i];
      Grow(sorted, i);
      assert name in Elements(sorted);
      if name in chosen || !inventory.modules[name].used || !inventory.modules[name].supported
        || !rules.admits(selector, name) {
        if name in chosen {
          Blocked(sorted, i, selected);
        }
        return Err;
      }
      NewLast(sorted, i);
      chosen := chosen + {name};
    }
    assert sorted[..|sorted|] == sorted;
    return Ok(chosen);
  }

  lemma Blocked(s: seq<string>, i: nat, selected: set<string>)
    requires i < |s| && s[i] in selected + Elements(s[..i])
    ensures !Distinct(s) || !(Elements(s) !! selected)
  {
    if s[i] in Elements(s[..i]) {
      var k :| 0 <= k < i && s[..i][k] == s[i];
      assert s[k] == s[i];
    } else {
      assert s[i] in Elements(s);
    }
  }

  lemma NewLast(s: seq<string>, i: nat)
    requires i < |s|
    ensures s[i] !in Elements(s[..i]) && Distinct(s[..i]) ==> Distinct(s[..i + 1])
  {
    if s[i] !in Elements(s[..i]) && Distinct(s[..i]) {
      forall j, k | 0 <= j < k < i + 1
        ensures s[j] != s[k]
      {
        assert s[..i][j] in Elements(s[..i]);
        assert k < i ==> s[..i][j] != s[..i][k];
      }
    }
  }

  lemma Grow(s: seq<string>, i: nat)
    requires i < |s|
    ensures Elements(s[..i + 1]) == Elements(s[..i]) + {s[i]}
  {
    forall x
      ensures x in Elements(s[..i + 1]) <==> x in Elements(s[..i]) || x == s[i]
    {
      if x in Elements(s[..i + 1]) {
        var k :| 0 <= k < i + 1 && s[..i + 1][k] == x;
        assert k < i ==> s[..i][k] == x;
      }
      if x in Elements(s[..i]) {
        var k :| 0 <= k < i && s[..i][k] == x;
        assert s[..i + 1][k] == x;
      }
      if x == s[i] {
        assert s[..i + 1][i] == x;
      }
    }
  }

  lemma Regrouped(a: seq<string>, b: seq<string>)
    requires multiset(a) == multiset(b)
    ensures Elements(a) == Elements(b)
  {
    forall x
      ensures x in Elements(a) <==> x in Elements(b)
    {
      assert x in multiset(a) <==> x in a;
      assert x in multiset(b) <==> x in b;
    }
  }

  /** What a selector would add: what it matches, or what of that is active. */
  function Candidates(inventory: Inventory, find: Finder, selector: Selector): seq<string>
    requires find(selector).Ok?
  {
    if selector.activeOnly then Filter(find(selector).value, name => inventory.Uses(name)) else find(selector).value
  }

  /** It matches, its flag is one, and it has candidates, all different and all fit to be targets. */
  ghost predicate Adds(rules: Rules, inventory: Inventory, find: Finder, selector: Selector) {
    && find(selector).Ok? && !selector.badFlag && Candidates(inventory, find, selector) != []
    && Addable(rules, inventory, selector, Candidates(inventory, find, selector), {})
  }

  /** All the selectors' candidates together. */
  function Gathered(inventory: Inventory, find: Finder, selectors: seq<Selector>): set<string> {
    if selectors == [] then {}
    else
      var n := |selectors| - 1;
      Gathered(inventory, find, selectors[..n])
      + if find(selectors[n]).Ok? then Elements(Candidates(inventory, find, selectors[n])) else {}
  }

  ghost predicate AllAdd(rules: Rules, inventory: Inventory, find: Finder, selectors: seq<Selector>) {
    forall i :: 0 <= i < |selectors| ==> Adds(rules, inventory, find, selectors[i])
  }

  /** No module is a candidate of two selectors. */
  ghost predicate Apart(inventory: Inventory, find: Finder, selectors: seq<Selector>)
    requires forall i :: 0 <= i < |selectors| ==> find(selectors[i]).Ok?
  {
    forall i, j :: 0 <= i < j < |selectors| ==>
      Elements(Candidates(inventory, find, selectors[i])) !! Elements(Candidates(inventory, find, selectors[j]))
  }

  lemma {:induction false} GatheredFrom(inventory: Inventory, find: Finder, selectors: seq<Selector>, x: string)
    requires forall i :: 0 <= i < |selectors| ==> find(selectors[i]).Ok?
    ensures x in Gathered(inventory, find, selectors)
       <==> exists i :: 0 <= i < |selectors| && x in Elements(Candidates(inventory, find, selectors[i]))
    decreases |selectors|
  {
    if selectors != [] {
      var n := |selectors| - 1;
      GatheredFrom(inventory, find, selectors[..n], x);
      if i :| 0 <= i < n && x in Elements(Candidates(inventory, find, selectors[..n][i])) {
        assert x in Elements(Candidates(inventory, find, selectors[i]));
      }
      if i :| 0 <= i < |selectors| && x in Elements(Candidates(inventory, find, selectors[i])) {
        assert i < n ==> x in Elements(Candidates(inventory, find, selectors[..n][i]));
      }
    }
  }

  /** Fitting one more selector in: it adds, and none of its candidates is there yet. */
  lemma OneMore(rules: Rules, inventory: Inventory, find: Finder, selectors: seq<Selector>, n: nat)
    requires n < |selectors| && AllAdd(rules, inventory, find, selectors[..n])
    requires Apart(inventory, find, selectors[..n]) && find(selectors[n]).Ok?
    ensures var more := selectors[..n + 1];
            && (AllAdd(rules, inventory, find, more) <==> Adds(rules, inventory, find, selectors[n]))
            && (forall i :: 0 <= i < |more| ==> find(more[i]).Ok?)
            && (Apart(inventory, find, more) <==>
                Elements(Candidates(inventory, find, selectors[n])) !! Gathered(inventory, find, selectors[..n]))
  {
    var before, more := selectors[..n], selectors[..n + 1];
    assert forall i :: 0 <= i < n ==> more[i] == before[i] && Adds(rules, inventory, find, before[i]);
    assert more[n] == selectors[n];
    forall x
      ensures x in Gathered(inventory, find, before) <==>
              exists i :: 0 <= i < n && x in Elements(Candidates(inventory, find, before[i]))
    {
      GatheredFrom(inventory, find, before, x);
    }
    ApartMore(inventory, find, before, more, Gathered(inventory, find, before));
  }

  lemma ApartMore(
      inventory: Inventory, find: Finder, before: seq<Selector>, more: seq<Selector>, gathered: set<string>)
    requires |more| == |before| + 1 && before == more[..|before|]
    requires forall i :: 0 <= i < |more| ==> find(more[i]).Ok?
    requires forall i :: 0 <= i < |before| ==> before[i] == more[i] && find(before[i]).Ok?
    requires Apart(inventory, find, before)
    requires forall x :: x in gathered <==>
               exists i :: 0 <= i < |before| && x in Elements(Candidates(inventory, find, before[i]))
    ensures Apart(inventory, find, more) <==>
            Elements(Candidates(inventory, find, more[|before|])) !! gathered
  {
    var last := Elements(Candidates(inventory, find, more[|before|]));
    if Apart(inventory, find, more) {
      forall x | x in gathered
        ensures x !in last
      {
        var i :| 0 <= i < |before| && x in Elements(Candidates(inventory, find, before[i]));
        assert Elements(Candidates(inventory, find, more[i])) !! last;
      }
    }
    if last !! gathered {
      forall i, j | 0 <= i < j < |more|
        ensures Elements(Candidates(inventory, find, more[i])) !! Elements(Candidates(inventory, find, more[j]))
      {
        if j < |before| {
          assert Elements(Candidates(inventory, find, before[i])) !! Elements(Candidates(inventory, find, before[j]));
        } else {
          assert Elements(Candidates(inventory, find, before[i])) <= gathered;
        }
      }
    }
  }

  lemma FirstFew(rules: Rules, inventory: Inventory, find: Finder, selectors: seq<Selector>, n: nat)
    requires n < |selectors| && AllAdd(rules, inventory, find, selectors)
    requires Apart(inventory, find, selectors)
    ensures AllAdd(rules, inventory, find, selectors[..n + 1])
    ensures Apart(inventory, find, selectors[..n + 1])
  {
    var more := selectors[..n + 1];
    forall i | 0 <= i < |more|
      ensures Adds(rules, inventory, find, more[i])
    {
      assert Adds(rules, inventory, find, selectors[i]);
    }
    forall i, j | 0 <= i < j < |more|
      ensures Elements(Candidates(inventory, find, more[i])) !! Elements(Candidates(inventory, find, more[j]))
    {
      assert Elements(Candidates(inventory, find, selectors[i])) !! Elements(Candidates(inventory, find, selectors[j]));
    }
  }

  /** Where the whole list is fine, so is its next selector. */
  lemma NextAdds(rules: Rules, inventory: Inventory, find: Finder, selectors: seq<Selector>, n: nat)
    requires n < |selectors|
    ensures AllAdd(rules, inventory, find, selectors) && Apart(inventory, find, selectors) ==>
              && Adds(rules, inventory, find, selectors[n])
              && AllAdd(rules, inventory, find, selectors[..n + 1]) && Apart(inventory, find, selectors[..n + 1])
  {
    if AllAdd(rules, inventory, find, selectors) && Apart(inventory, find, selectors) {
      FirstFew(rules, inventory, find, selectors, n);
    }
  }

  /** What one selector of the loop does. */
  method AddSelector(
      rules: Rules, inventory: Inventory, find: Finder, selector: Selector, selected: set<string>)
    returns (r: Result<set<string>>)
    requires Inside(find, inventory)
    ensures r.Ok? <==>
            && Adds(rules, inventory, find, selector)
            && Elements(Candidates(inventory, find, selector)) !! selected
    ensures r.Ok? ==>
              && r.value == selected + Elements(Candidates(inventory, find, selector)) && r.value != {}
  {
    var found := find(selector);
    if found.Err? || selector.badFlag {
      return Err;
    }
    var names := found.value;
    if selector.activeOnly {
      names := Filter(names, name => inventory.Uses(name));
      ElementsKept(found.value, name => inventory.Uses(name), inventory.modules.Keys);
    }
    if names == [] {
      return Err;
    }
    assert names[0] in Elements(names);
    r := AddTargets(rules, inventory, selector, names, selected);
  }

  /**
   * The loop of `resolve_targets`: it succeeds exactly when each selector adds and no two of them overlap, and then it
   * has chosen all their candidates.
   */
  method ChooseTargets(rules: Rules, inventory: Inventory, find: Finder, selectors: seq<Selector>)
    returns (r: Result<set<string>>)
    requires Inside(find, inventory)
    ensures r.Ok? <==> AllAdd(rules, inventory, find, selectors) && Apart(inventory, find, selectors)
    ensures r.Ok? ==> r.value == Gathered(inventory, find, selectors)
    ensures r.Ok? && selectors != [] ==> r.value != {}
  {
    var selected: set<string> := {};
    for n := 0 to |selectors|
      invariant AllAdd(rules, inventory, find, selectors[..n]) && Apart(inventory, find, selectors[..n])
      invariant selected == Gathered(inventory, find, selectors[..n])
      invariant n > 0 ==> selected != {}
    {
      var selector := selectors[n];
      assert selectors[..n + 1][..n] == selectors[..n] && selectors[..n + 1][n] == selector;
      NextAdds(rules, inventory, find, selectors, n);
      var added := AddSelector(rules, inventory, find, selector, selected);
      if find(selector).Ok? {
        OneMore(rules, inventory, find, selectors, n);
      }
      if added.Err? {
        return Err;
      }
      selected := added.value;
    }
    assert selectors[..|selectors|] == selectors;
    return Ok(selected);
  }

  /** Where every selector adds, its candidates are what it matches that is active. */
  lemma {:induction false} GatheredActive(rules: Rules, inventory: Inventory, find: Finder, selectors: seq<Selector>)
    requires AllAdd(rules, inventory, find, selectors)
    ensures Gathered(inventory, find, selectors) == Active(inventory, AllMatched(find, selectors))
    decreases |selectors|
  {
    if selectors != [] {
      var n := |selectors| - 1;
      assert AllAdd(rules, inventory, find, selectors[..n]) by {
        assert forall i :: 0 <= i < n ==> selectors[..n][i] == selectors[i];
      }
      GatheredActive(rules, inventory, find, selectors[..n]);
      var last := selectors[n];
      assert Adds(rules, inventory, find, last);
      ActiveOf(inventory, find(last).value, Candidates(inventory, find, last), last.activeOnly);
    }
  }

  /**
   * `resolve_targets`: it succeeds exactly when each selector adds, no two overlap, and the placement finds the
   * selection complete; and then it has chosen exactly the active modules the selectors match.
   */
  method ResolveTargets(rules: Rules, inventory: Inventory, selectors: seq<Selector>) returns (r: Result<set<string>>)
    requires inventory.Valid()
    ensures var find := Finding(rules, inventory);
            && (r.Ok? <==>
                && AllAdd(rules, inventory, find, selectors) && Apart(inventory, find, selectors)
                && rules.complete(Active(inventory, AllMatched(find, selectors))))
            && (r.Ok? ==> r.value == Active(inventory, AllMatched(find, selectors)))
    ensures r.Ok? && selectors != [] ==> r.value != {}
  {
    FindingInside(rules, inventory);
    r := ChooseTargets(rules, inventory, Finding(rules, inventory), selectors);
    if r.Ok? {
      GatheredActive(rules, inventory, Finding(rules, inventory), selectors);
      if !rules.complete(r.value) {
        return Err;
      }
    }
  }

  /** What a selector adds is what it matches that is active. */
  lemma ActiveOf(inventory: Inventory, found: seq<string>, names: seq<string>, activeOnly: bool)
    requires names == if activeOnly then Filter(found, name => inventory.Uses(name)) else found
    requires forall x :: x in Elements(names) ==> inventory.Uses(x)
    ensures Elements(names) == Active(inventory, Elements(found))
  {
    forall x
      ensures x in Elements(names) <==> x in Elements(found) && inventory.Uses(x)
    {
      if x in Elements(names) {
        var i :| 0 <= i < |names| && names[i] == x;
        assert names[i] in found;
        var k :| 0 <= k < |found| && found[k] == x;
      }
      if x in Elements(found) && inventory.Uses(x) {
        var k :| 0 <= k < |found| && found[k] == x;
        assert found[k] in names;
        var i :| 0 <= i < |names| && names[i] == x;
      }
    }
  }

  // ----- coverage -----

  datatype Coverage = Coverage(
    matched: nat, selected: nat, active: nat, uncovered: nat, excluded: nat, fraction: Option<real>)

  /** `target_coverage`: recomputed from the selectors alone, against the selection it is given. */
  method TargetCoverage(inventory: Inventory, find: Finder, selectors: seq<Selector>, selected: set<string>)
    returns (r: Result<Coverage>)
    ensures r.Ok? <==> forall i :: 0 <= i < |selectors| ==> find(selectors[i]).Ok?
    ensures r.Ok? ==> r.value == CoverageOf(inventory, AllMatched(find, selectors), selected)
  {
    var matched: set<string> := {};
    for n := 0 to |selectors|
      invariant forall i :: 0 <= i < n ==> find(selectors[i]).Ok?
      invariant matched == AllMatched(find, selectors[..n])
    {
      assert selectors[..n + 1][..n] == selectors[..n];
      var found := find(selectors[n]);
      if found.Err? {
        return Err;
      }
      matched := matched + Elements(found.value);
    }
    assert selectors[..|selectors|] == selectors;
    return Ok(CoverageOf(inventory, matched, selected));
  }

  function CoverageOf(inventory: Inventory, matched: set<string>, selected: set<string>): Coverage {
    var active := Active(inventory, matched);
    Coverage(
      |matched|, |selected|, |active|, |active - selected|, |matched - active - selected|,
      if active == {} then None else Some(|active * selected| as real / |active| as real))
  }

  /**
   * Coverage of a selection that was resolved from the same selectors: nothing active is uncovered, the fraction is
   * one, and what is matched is what is selected plus what is excluded for being inactive.
   */
  lemma ResolvedIsCovered(inventory: Inventory, matched: set<string>, selected: set<string>)
    requires selected == Active(inventory, matched) && selected != {}
    ensures var c := CoverageOf(inventory, matched, selected);
            && c.uncovered == 0 && c.fraction == Some(1.0) && c.matched == c.selected + c.excluded
            && c.active == c.selected
  {
    var active := Active(inventory, matched);
    assert active - selected == {} && active * selected == active;
    assert matched == selected + (matched - active - selected);
    assert |active| > 0;
    Whole(|active| as real);
  }

  lemma Whole(x: real)
    requires x > 0.0
    ensures x / x == 1.0
  {
  }

  /**
   * Coverage of any selection: what is active and selected makes up the fraction, and it is one exactly when nothing
   * active is left out; what is excluded is matched, not active and not selected either.
   */
  lemma CoverageMeans(inventory: Inventory, matched: set<string>, selected: set<string>)
    ensures var (c, active) := (CoverageOf(inventory, matched, selected), Active(inventory, matched));
            && c.matched == |matched| && c.selected == |selected| && c.active == |active|
            && c.active - c.uncovered == |active * selected| && (c.uncovered == 0 <==> active <= selected)
            && (c.fraction.None? <==> active == {})
            && (c.fraction.Some? ==>
                  && c.fraction.value * c.active as real == (c.active - c.uncovered) as real
                  && (c.fraction.value == 1.0 <==> c.uncovered == 0))
            && c.excluded == |set x | x in matched && !inventory.Uses(x) && x !in selected|
  {
    var active := Active(inventory, matched);
    assert active == (active - selected) + active * selected;
    assert (active - selected) == {} <==> active <= selected;
    assert matched - active - selected == set x | x in matched && !inventory.Uses(x) && x !in selected;
    if active != {} {
      Share(|active * selected| as real, |active| as real);
    }
  }

  lemma Share(a: real, b: real)
    requires b > 0.0
    ensures a / b * b == a && (a / b == 1.0 <==> a == b)
  {
  }
}
