/** Building an episode partition. */
module PartitionBuild {
  // As the program does: a catalogue loop, a loop over groups, and a final sort and tally.

  import opened Results
  import opened Arithmetic
  import opened Lists
  import opened Orders
  import opened Partition

  // ----- listing a set in order -----

  lemma {:induction false} Listing<T(!new)>(rows: set<T>) returns (s: seq<T>)
    ensures Distinct(s) && Elements(s) == rows
    decreases rows
  {
    if rows == {} {
      s := [];
    } else {
      var x :| x in rows;
      var rest := Listing(rows - {x});
      s := rest + [x];
      forall y
        ensures y in Elements(s) <==> y in rows
      {
        if y in rows {
          if y == x {
            assert s[|rest|] == y;
          } else {
            assert y in Elements(rest);
            var i :| 0 <= i < |rest| && rest[i] == y;
            assert s[i] == y;
          }
        }
      }
      assert forall i :: 0 <= i < |rest| ==> rest[i] in Elements(rest);
    }
  }

  lemma SortLists<T(!new)>(before: (T, T) -> bool, s: seq<T>)
    requires StrictOrder(before, Elements(s)) && Distinct(s)
    ensures var t := Sort(before, s);
            Ascending(before, t) && Elements(t) == Elements(s) && Distinct(t) && |t| == |s|
  {
    SortAscends(before, s, Elements(s));
    SortKeeps(before, s);
    SameElements(Sort(before, s), s);
    AscendingDistinct(before, Sort(before, s));
    ElementsCount(s);
    ElementsCount(Sort(before, s));
  }

  lemma ElementsOf<T>(s: seq<T>, t: seq<T>)
    requires Elements(t) <= Elements(s)
    ensures forall i :: 0 <= i < |t| ==> t[i] in Elements(s)
  {
    forall i | 0 <= i < |t|
      ensures t[i] in Elements(s)
    {
      assert t[i] in Elements(t);
    }
  }

  lemma FirstCount<T(!new)>(before: (T, T) -> bool, rows: set<T>, k: nat)
    requires StrictOrder(before, rows)
    ensures |First(before, rows, k)| == if k < |rows| then k else |rows|
  {
    var s := Listing(rows);
    SortLists(before, s);
    ElementsCount(s);
    var t := Sort(before, s);
    FirstIsPrefix(before, t, k);
    ElementsCount(if k < |t| then t[..k] else t);
  }

  /** Every group asked for has both an episode to train on and one held out. */
  lemma BothSplits(config: Config, rank: Rank, records: seq<Record>, m: Manifest, group: string)
    requires config.Valid() && Meets(config, rank, records, Ok(m)) && group in Groups(config, Elements(records))
    ensures exists row :: row in Elements(m.episodes) && row.group == group && row.split == Train
    ensures exists row :: row in Elements(m.episodes) && row.group == group && row.split == Validation
  {
    var chosen := Chosen(config, rank, Members(Elements(records), group), group);
    ChosenDistinct(config, rank, records, group);
    RankIsOrder(rank, Divide, group, chosen);
    var count := ValidationCount(|chosen|, config.fraction);
    FirstCount(Before(rank, Divide, group), chosen, count);
    var held := Held(config, rank, chosen, group);
    assert held <= chosen && |held| == count;
    assert held != {} && held != chosen;
    var v :| v in held;
    var t :| t in chosen && t !in held by {
      assert |chosen - held| == |chosen| - |held|;
    }
    var row, other := RowFor(config, group, v, true), RowFor(config, group, t, false);
    assert row in GroupRows(config, rank, Elements(records), group);
    assert other in GroupRows(config, rank, Elements(records), group);
    GroupRow(config, rank, Elements(records), row);
    GroupRow(config, rank, Elements(records), other);
  }

  // ----- how many are held out -----

  ghost function Image<T(!new), U(!new)>(f: T -> U, rows: set<T>): set<U> {
    set r | r in rows :: f(r)
  }

  lemma {:induction false} ImageCount<T(!new), U(!new)>(f: T -> U, rows: set<T>)
    requires forall a, b :: a in rows && b in rows && f(a) == f(b) ==> a == b
    ensures |Image(f, rows)| == |rows|
    decreases rows
  {
    if rows != {} {
      var x :| x in rows;
      ImageCount(f, rows - {x});
      assert f(x) !in Image(f, rows - {x}) && Image(f, rows) == Image(f, rows - {x}) + {f(x)};
    }
  }

  /** The rows of one group in a manifest. */
  ghost function RowsOf(m: Manifest, group: string): set<Row> {
    set row | row in Elements(m.episodes) && row.group == group
  }

  ghost function HeldOf(rows: set<Row>): set<Row> {
    set row | row in rows && row.split == Validation
  }

  ghost function HeldRows(m: Manifest, group: string): set<Row> {
    HeldOf(RowsOf(m, group))
  }

  ghost function RowsFor(config: Config, group: string, chosen: set<Record>, held: set<Record>): set<Row>
    requires config.stride >= 1
  {
    set r | r in chosen :: RowFor(config, group, r, r in held)
  }

  lemma RowsOfGroup(config: Config, rank: Rank, records: seq<Record>, m: Manifest, group: string)
    requires config.Valid() && Meets(config, rank, records, Ok(m)) && group in Groups(config, Elements(records))
    ensures RowsOf(m, group) == GroupRows(config, rank, Elements(records), group)
  {
    forall row | row in RowsOf(m, group)
      ensures row in GroupRows(config, rank, Elements(records), group)
    {
      var r := RowRecord(config, rank, Elements(records), row);
    }
    forall row | row in GroupRows(config, rank, Elements(records), group)
      ensures row in RowsOf(m, group)
    {
      assert row in AllRows(config, rank, Elements(records));
    }
  }

  lemma ChosenCounts(config: Config, rank: Rank, records: seq<Record>, group: string)
    requires config.Valid() && Catalogued(records)
    requires |Chosen(config, rank, Members(Elements(records), group), group)| >= 2
    ensures var chosen := Chosen(config, rank, Members(Elements(records), group), group);
            var held := Held(config, rank, chosen, group);
            held <= chosen && HoldsOut(|chosen|, config.fraction, |held|)
  {
    var chosen := Chosen(config, rank, Members(Elements(records), group), group);
    ChosenDistinct(config, rank, records, group);
    RankIsOrder(rank, Divide, group, chosen);
    FirstCount(Before(rank, Divide, group), chosen, ValidationCount(|chosen|, config.fraction));
  }

  lemma RowsCount(config: Config, group: string, chosen: set<Record>, held: set<Record>)
    requires config.Valid() && held <= chosen
    requires forall a, b :: a in chosen && b in chosen && a.id == b.id ==> a == b
    ensures |RowsFor(config, group, chosen, held)| == |chosen|
    ensures |HeldOf(RowsFor(config, group, chosen, held))| == |held|
  {
    var f := (r: Record) => RowFor(config, group, r, r in held);
    ImageCount(f, chosen);
    ImageCount(f, held);
    assert RowsFor(config, group, chosen, held) == Image(f, chosen);
    HeldImage(f, RowsFor(config, group, chosen, held), chosen, held);
  }

  lemma HeldImage(f: Record -> Row, rows: set<Row>, chosen: set<Record>, held: set<Record>)
    requires held <= chosen && forall r :: r in chosen ==> (f(r).split == Validation <==> r in held)
    requires rows == Image(f, chosen)
    ensures HeldOf(rows) == Image(f, held)
  {
  }

  /**
   * In every group the held-out episodes are the least number that makes up the fraction, at least one and not all, of
   * the episodes of the group, or of as many as the limit allows.
   */
  lemma FractionHeld(config: Config, rank: Rank, records: seq<Record>, m: Manifest, group: string)
    requires config.Valid() && Meets(config, rank, records, Ok(m)) && group in Groups(config, Elements(records))
    ensures HoldsOut(|RowsOf(m, group)|, config.fraction, |HeldRows(m, group)|)
    ensures var all := |Members(Elements(records), group)|;
            |RowsOf(m, group)|
            == if config.maxEpisodes.Some? && config.maxEpisodes.value < all then config.maxEpisodes.value else all
  {
    var chosen := Chosen(config, rank, Members(Elements(records), group), group);
    var held := Held(config, rank, chosen, group);
    ChosenDistinct(config, rank, records, group);
    ChosenCounts(config, rank, records, group);
    RowsOfGroup(config, rank, records, m, group);
    RowsCount(config, group, chosen, held);
    assert RowsOf(m, group) == RowsFor(config, group, chosen, held);
    ChosenLimit(config, rank, records, group);
  }

  lemma ChosenLimit(config: Config, rank: Rank, records: seq<Record>, group: string)
    requires Catalogued(records)
    ensures var all := |Members(Elements(records), group)|;
            |Chosen(config, rank, Members(Elements(records), group), group)|
            == if config.maxEpisodes.Some? && config.maxEpisodes.value < all then config.maxEpisodes.value else all
  {
    var rows := Members(Elements(records), group);
    if config.maxEpisodes.Some? {
      forall a, b | a in rows && b in rows && a.id == b.id
        ensures a == b
      {
        SameRecord(records, a, b);
      }
      RankIsOrder(rank, Select, group, rows);
      FirstCount(Before(rank, Select, group), rows, config.maxEpisodes.value);
    }
  }

  lemma ChosenDistinct(config: Config, rank: Rank, records: seq<Record>, group: string)
    requires Catalogued(records)
    ensures var chosen := Chosen(config, rank, Members(Elements(records), group), group);
            forall a, b :: a in chosen && b in chosen && a.id == b.id ==> a == b
  {
    var chosen := Chosen(config, rank, Members(Elements(records), group), group);
    forall a, b | a in chosen && b in chosen && a.id == b.id
      ensures a == b
    {
      SameRecord(records, a, b);
    }
  }

  // ----- the catalogue loop -----

  function InGroup(records: seq<Record>, group: string): seq<Record> {
    if records == [] then []
    else
      var n := |records| - 1;
      InGroup(records[..n], group) + if records[n].group == group then [records[n]] else []
  }

  ghost predicate Filed(records: seq<Record>, order: seq<string>, grouped: map<string, seq<Record>>) {
    && Distinct(order) && grouped.Keys == Elements(order)
    && (forall g :: g in grouped ==> grouped[g] == InGroup(records, g))
    && (forall g :: g in grouped <==> InGroup(records, g) != [])
  }

  /** What filing a record does to the group's list; other lists stay. */
  lemma FiledMore(records: seq<Record>, n: nat, order: seq<string>, grouped: map<string, seq<Record>>)
    requires n < |records| && Filed(records[..n], order, grouped)
    ensures var (record, group) := (records[n], records[n].group);
            && (group in grouped ==>
                  Filed(records[..n + 1], order, grouped[group := grouped[group] + [record]]))
            && (group !in grouped ==> Filed(records[..n + 1], order + [group], grouped[group := [record]]))
  {
    var record, group := records[n], records[n].group;
    if group in grouped {
      FiledAs(records, n, order, grouped, order, grouped[group] + [record]);
    } else {
      ElementsAppend(order, group);
      assert InGroup(records[..n], group) == [];
      FiledAs(records, n, order, grouped, order + [group], [record]);
    }
  }

  lemma FiledAs(
      records: seq<Record>, n: nat, order: seq<string>, grouped: map<string, seq<Record>>, after: seq<string>,
      list: seq<Record>)
    requires n < |records| && Filed(records[..n], order, grouped) && list != []
    requires Distinct(after) && Elements(after) == Elements(order) + {records[n].group}
    requires list == InGroup(records[..n], records[n].group) + [records[n]]
    ensures Filed(records[..n + 1], after, grouped[records[n].group := list])
  {
    var filed := grouped[records[n].group := list];
    forall g
      ensures g in filed <==> InGroup(records[..n + 1], g) != []
      ensures g in filed ==> filed[g] == InGroup(records[..n + 1], g)
    {
      InGroupMore(records, n, g);
    }
  }

  lemma InGroupMore(records: seq<Record>, n: nat, group: string)
    requires n < |records|
    ensures InGroup(records[..n + 1], group)
         == InGroup(records[..n], group) + if records[n].group == group then [records[n]] else []
  {
    assert records[..n + 1][..n] == records[..n];
  }

  lemma CataloguedMore(records: seq<Record>, n: nat)
    requires n < |records|
    ensures Catalogued(records[..n + 1]) <==>
            Catalogued(records[..n]) && WellFormed(records[n]) && records[n].id !in Ids(records[..n])
    ensures Catalogued(records) ==> Catalogued(records[..n + 1])
    ensures Ids(records[..n + 1]) == Ids(records[..n]) + {records[n].id}
  {
    var before, after := records[..n], records[..n + 1];
    assert forall i :: 0 <= i < n ==> before[i] == after[i];
    assert after[n] == records[n];
  }

  /** File each record under its group; refuse malformed records and repeated ids. */
  method Catalogue(records: seq<Record>) returns (ok: bool, order: seq<string>, grouped: map<string, seq<Record>>)
    ensures ok <==> Catalogued(records)
    ensures ok ==> Filed(records, order, grouped)
  {
    order, grouped := [], map[];
    var seen: set<string> := {};
    for n := 0 to |records|
      invariant Catalogued(records[..n]) && Filed(records[..n], order, grouped)
      invariant seen == Ids(records[..n])
    {
      var record := records[n];
      CataloguedMore(records, n);
      if record.id == "" || record.id in seen {
        return false, order, grouped;
      }
      seen := seen + {record.id};
      if record.group == "" || record.frames < 1 {
        return false, order, grouped;
      }
      FiledMore(records, n, order, grouped);
      if record.group in grouped {
        grouped := grouped[record.group := grouped[record.group] + [record]];
      } else {
        order := order + [record.group];
        grouped := grouped[record.group := [record]];
      }
    }
    assert records[..|records|] == records;
    ok := true;
  }

  // ----- one group -----

  ghost predicate OneGroup(rows: seq<Record>, group: string) {
    && (forall i :: 0 <= i < |rows| ==> rows[i].group == group)
    && forall i, j :: 0 <= i < j < |rows| ==> rows[i].id != rows[j].id
  }

  lemma GroupOrdered(rank: Rank, phase: Phase, group: string, rows: seq<Record>)
    requires OneGroup(rows, group)
    ensures StrictOrder(Before(rank, phase, group), Elements(rows)) && Distinct(rows)
  {
    forall a, b | a in Elements(rows) && b in Elements(rows) && a.id == b.id
      ensures a == b
    {
      var i :| 0 <= i < |rows| && rows[i] == a;
      var j :| 0 <= j < |rows| && rows[j] == b;
      assert !(i < j) && !(j < i);
    }
    RankIsOrder(rank, phase, group, Elements(rows));
  }

  lemma GroupSorted(rank: Rank, phase: Phase, group: string, rows: seq<Record>)
    requires OneGroup(rows, group)
    ensures var sorted := Sort(Before(rank, phase, group), rows);
            && Ascending(Before(rank, phase, group), sorted) && Elements(sorted) == Elements(rows)
            && |sorted| == |rows| && OneGroup(sorted, group)
            && StrictOrder(Before(rank, phase, group), Elements(sorted))
  {
    GroupOrdered(rank, phase, group, rows);
    var before := Before(rank, phase, group);
    SortLists(before, rows);
    var sorted := Sort(before, rows);
    ElementsOf(rows, sorted);
    forall i, j | 0 <= i < j < |sorted|
      ensures sorted[i].id != sorted[j].id
    {
      var k :| 0 <= k < |rows| && rows[k] == sorted[i];
      var l :| 0 <= l < |rows| && rows[l] == sorted[j];
      assert k != l;
    }
    forall i | 0 <= i < |sorted|
      ensures sorted[i].group == group
    {
      var k :| 0 <= k < |rows| && rows[k] == sorted[i];
    }
  }

  ghost predicate ChosenAs(config: Config, rank: Rank, group: string, rows: seq<Record>, chosen: seq<Record>) {
    OneGroup(chosen, group) && Elements(chosen) == Chosen(config, rank, Elements(rows), group)
  }

  /** The best-ranked episodes of a group, at most the limit. */
  method Choose(config: Config, rank: Rank, group: string, rows: seq<Record>) returns (chosen: seq<Record>)
    requires config.Valid() && OneGroup(rows, group)
    ensures ChosenAs(config, rank, group, rows, chosen)
  {
    GroupSorted(rank, Select, group, rows);
    chosen := Sort(Before(rank, Select, group), rows);
    if config.maxEpisodes.Some? {
      FirstIsPrefix(Before(rank, Select, group), chosen, config.maxEpisodes.value);
      if config.maxEpisodes.value < |chosen| {
        chosen := chosen[..config.maxEpisodes.value];
      }
    }
  }

  function Ids(rows: seq<Record>): set<string> {
    set i | 0 <= i < |rows| :: rows[i].id
  }

  /** The ids of the best-ranked in the second ranking, as many as the fraction asks for. */
  method HoldOut(config: Config, rank: Rank, group: string, chosen: seq<Record>) returns (held: set<string>)
    requires config.Valid() && OneGroup(chosen, group) && |chosen| >= 2
    ensures |Elements(chosen)| == |chosen|
    ensures forall i :: 0 <= i < |chosen| ==>
              (chosen[i].id in held <==> chosen[i] in Held(config, rank, Elements(chosen), group))
  {
    GroupSorted(rank, Divide, group, chosen);
    GroupOrdered(rank, Divide, group, chosen);
    ElementsCount(chosen);
    var sorted := Sort(Before(rank, Divide, group), chosen);
    var count := ValidationCount(|chosen|, config.fraction);
    FirstIsPrefix(Before(rank, Divide, group), sorted, count);
    held := Ids(sorted[..count]);
    forall i | 0 <= i < |chosen|
      ensures chosen[i].id in held <==> chosen[i] in Elements(sorted[..count])
    {
      assert chosen[i] in Elements(chosen);
      HeldById(sorted, count, chosen[i]);
    }
  }

  /** Where IDs are distinct, the first records are told by their IDs. */
  lemma HeldById(sorted: seq<Record>, count: nat, record: Record)
    requires count <= |sorted| && record in Elements(sorted)
    requires forall j, k :: 0 <= j < k < |sorted| ==> sorted[j].id != sorted[k].id
    ensures record.id in Ids(sorted[..count]) <==> record in Elements(sorted[..count])
  {
    var k :| 0 <= k < |sorted| && sorted[k] == record;
    if record.id in Ids(sorted[..count]) {
      var j :| 0 <= j < count && sorted[..count][j].id == record.id;
      assert !(j < k) && !(k < j);
    }
    if record in Elements(sorted[..count]) {
      var j :| 0 <= j < count && sorted[..count][j] == record;
    }
  }

  ghost predicate Selects(config: Config, rank: Rank, all: set<Record>, group: string, rows: seq<Row>)
    requires config.stride >= 1
  {
    && Elements(rows) == GroupRows(config, rank, all, group)
    && forall i, j :: 0 <= i < j < |rows| ==> rows[i].id != rows[j].id
  }

  /** The selected rows of one group, with their frames after striding and capping. */
  method MakeRows(config: Config, group: string, chosen: seq<Record>, held: set<string>) returns (selected: seq<Row>)
    requires config.Valid()
    ensures |selected| == |chosen|
    ensures forall i :: 0 <= i < |chosen| ==> selected[i] == RowFor(config, group, chosen[i], chosen[i].id in held)
  {
    selected := [];
    for n := 0 to |chosen|
      invariant |selected| == n
      invariant forall i :: 0 <= i < n ==> selected[i] == RowFor(config, group, chosen[i], chosen[i].id in held)
    {
      var row := chosen[n];
      var frames := (row.frames + config.stride - 1) / config.stride;
      if config.maxFrames.Some? && config.maxFrames.value < frames {
        frames := config.maxFrames.value;
      }
      var split := if row.id in held then Validation else Train;
      selected := selected + [Row(row.id, group, row.frames, frames, split)];
    }
  }

  /** One group: choose, refuse fewer than two, hold out, and make the rows. */
  method SelectGroup(config: Config, rank: Rank, ghost all: set<Record>, group: string, rows: seq<Record>)
    returns (r: Result<seq<Row>>)
    requires config.Valid() && OneGroup(rows, group) && Elements(rows) == Members(all, group)
    ensures r.Ok? <==> |Chosen(config, rank, Members(all, group), group)| >= 2
    ensures r.Ok? ==> Selects(config, rank, all, group, r.value)
  {
    var chosen := Choose(config, rank, group, rows);
    GroupOrdered(rank, Divide, group, chosen);
    ElementsCount(chosen);
    if |chosen| < 2 {
      return Err;
    }
    var held := HoldOut(config, rank, group, chosen);
    var selected := MakeRows(config, group, chosen, held);
    RowsListed(config, rank, all, group, chosen, held, selected);
    return Ok(selected);
  }

  lemma RowsListed(
      config: Config, rank: Rank, all: set<Record>, group: string, chosen: seq<Record>, held: set<string>,
      selected: seq<Row>)
    requires config.Valid() && |chosen| >= 2 && OneGroup(chosen, group) && |Elements(chosen)| == |chosen|
    requires Elements(chosen) == Chosen(config, rank, Members(all, group), group)
    requires forall i :: 0 <= i < |chosen| ==>
               (chosen[i].id in held <==> chosen[i] in Held(config, rank, Elements(chosen), group))
    requires |selected| == |chosen|
    requires forall i :: 0 <= i < |chosen| ==> selected[i] == RowFor(config, group, chosen[i], chosen[i].id in held)
    ensures Selects(config, rank, all, group, selected)
  {
    var rows := GroupRows(config, rank, all, group);
    forall row
      ensures row in Elements(selected) <==> row in rows
    {
      if row in Elements(selected) {
        var i :| 0 <= i < |selected| && selected[i] == row;
        assert chosen[i] in Elements(chosen);
      }
      if row in rows {
        var r :| r in Elements(chosen)
          && row == RowFor(config, group, r, r in Held(config, rank, Elements(chosen), group));
        var i :| 0 <= i < |chosen| && chosen[i] == r;
        assert selected[i] == row;
      }
    }
  }

  // ----- all groups -----

  ghost function RowsThrough(config: Config, rank: Rank, all: set<Record>, groups: seq<string>): set<Row>
    requires config.stride >= 1
  {
    set i, row | 0 <= i < |groups| && row in GroupRows(config, rank, all, groups[i]) :: row
  }

  lemma {:induction false} GroupMembers(records: seq<Record>, group: string)
    ensures Elements(InGroup(records, group)) == Members(Elements(records), group)
  {
    if records != [] {
      var n := |records| - 1;
      GroupMembers(records[..n], group);
      assert records == records[..n] + [records[n]];
      ElementsAppend(records[..n], records[n]);
      if records[n].group == group {
        ElementsAppend(InGroup(records[..n], group), records[n]);
      } else {
        assert InGroup(records, group) == InGroup(records[..n], group);
      }
    }
  }

  lemma {:induction false} GroupAlone(records: seq<Record>, group: string)
    requires Catalogued(records)
    ensures OneGroup(InGroup(records, group), group)
    ensures forall i :: 0 <= i < |InGroup(records, group)| ==> InGroup(records, group)[i] in records
  {
    if records != [] {
      var n := |records| - 1;
      GroupAlone(records[..n], group);
      forall r | r in records[..n]
        ensures r.id != records[n].id && r in records
      {
      }
    }
  }

  lemma ElementsAppend<T>(s: seq<T>, x: T)
    ensures Elements(s + [x]) == Elements(s) + {x}
  {
    var longer := s + [x];
    forall y
      ensures y in Elements(longer) <==> y in Elements(s) + {x}
    {
      if y in Elements(s) {
        var i :| 0 <= i < |s| && s[i] == y;
        assert longer[i] == y;
      }
      if y == x {
        assert longer[|s|] == y;
      }
    }
  }

  /** The groups asked for, or all of them. */
  function Wanted(config: Config, order: seq<string>): seq<string> {
    if config.groups.Some? then config.groups.value else order
  }

  lemma WantedGroups(config: Config, records: seq<Record>, order: seq<string>, grouped: map<string, seq<Record>>)
    requires config.Valid() && Catalogued(records) && Filed(records, order, grouped)
    ensures Elements(Wanted(config, order)) == Groups(config, Elements(records)) && Distinct(Wanted(config, order))
  {
    forall g
      ensures g in Elements(order) <==> exists r :: r in Elements(records) && r.group == g
    {
      GroupMembers(records, g);
      var rows := InGroup(records, g);
      if rows != [] {
        assert rows[0] in Members(Elements(records), g) by {
          assert rows[0] in Elements(rows);
        }
      }
      if exists r :: r in Elements(records) && r.group == g {
        var r :| r in Elements(records) && r.group == g;
        assert r in Elements(rows);
      }
    }
  }

  lemma {:induction false} CountConcat(a: seq<Row>, b: seq<Row>, split: Split)
    ensures Count(a + b, split) == Count(a, split) + Count(b, split)
    ensures Total(a + b, split) == Total(a, split) + Total(b, split)
  {
    if a == [] {
      assert a + b == b;
    } else {
      assert (a + b)[1..] == a[1..] + b;
      CountConcat(a[1..], b, split);
    }
  }

  function Without<T>(s: seq<T>, i: nat): seq<T>
    requires i < |s|
  {
    s[..i] + s[i + 1..]
  }

  lemma WithoutBag<T>(s: seq<T>, i: nat)
    requires i < |s|
    ensures multiset(Without(s, i)) == multiset(s) - multiset{s[i]}
  {
    assert s == s[..i] + [s[i]] + s[i + 1..];
  }

  lemma CountWithout(s: seq<Row>, i: nat, split: Split)
    requires i < |s|
    ensures Count(s, split) == Count(Without(s, i), split) + if s[i].split == split then 1 else 0
    ensures Total(s, split) == Total(Without(s, i), split) + if s[i].split == split then s[i].frames else 0
  {
    var head, tail := s[..i], s[i + 1..];
    assert s == head + ([s[i]] + tail) && ([s[i]] + tail)[1..] == tail;
    CountConcat(head, [s[i]] + tail, split);
    CountConcat(head, tail, split);
  }

  /** Tallies do not depend on order. */
  lemma {:induction false} CountPermutes(a: seq<Row>, b: seq<Row>, split: Split)
    requires multiset(a) == multiset(b)
    ensures Count(a, split) == Count(b, split) && Total(a, split) == Total(b, split)
    decreases |a|
  {
    if a == [] {
      assert |multiset(b)| == 0;
    } else {
      assert a[0] in multiset(b);
      var i :| 0 <= i < |b| && b[i] == a[0];
      WithoutBag(a, 0);
      WithoutBag(b, i);
      CountPermutes(Without(a, 0), Without(b, i), split);
      CountWithout(a, 0, split);
      CountWithout(b, i, split);
    }
  }

  // ----- the whole build -----

  ghost predicate RowIdsDistinct(rows: seq<Row>) {
    forall i, j :: 0 <= i < j < |rows| ==> rows[i].id != rows[j].id
  }

  lemma RowsThroughNext(config: Config, rank: Rank, all: set<Record>, groups: seq<string>, n: nat)
    requires config.stride >= 1 && n < |groups|
    ensures RowsThrough(config, rank, all, groups[..n + 1])
            == RowsThrough(config, rank, all, groups[..n]) + GroupRows(config, rank, all, groups[n])
  {
    var before, after := RowsThrough(config, rank, all, groups[..n]), RowsThrough(config, rank, all, groups[..n + 1]);
    forall row
      ensures row in after <==> row in before || row in GroupRows(config, rank, all, groups[n])
    {
      if row in after {
        var i :| 0 <= i < n + 1 && row in GroupRows(config, rank, all, groups[..n + 1][i]);
        assert i < n ==> groups[..n][i] == groups[i];
      }
      if row in before || row in GroupRows(config, rank, all, groups[n]) {
        RowsThroughMore(config, rank, all, groups, n, row);
      }
    }
  }

  lemma RowsThroughMore(config: Config, rank: Rank, all: set<Record>, groups: seq<string>, n: nat, row: Row)
    requires config.stride >= 1 && n < |groups|
    requires row in RowsThrough(config, rank, all, groups[..n]) || row in GroupRows(config, rank, all, groups[n])
    ensures row in RowsThrough(config, rank, all, groups[..n + 1])
  {
    if row in RowsThrough(config, rank, all, groups[..n]) {
      var i :| 0 <= i < n && row in GroupRows(config, rank, all, groups[..n][i]);
      assert groups[..n + 1][i] == groups[i];
    } else {
      assert groups[..n + 1][n] == groups[n];
    }
  }

  lemma ElementsConcat<T>(a: seq<T>, b: seq<T>)
    ensures Elements(a + b) == Elements(a) + Elements(b)
  {
    forall y
      ensures y in Elements(a + b) <==> y in Elements(a) || y in Elements(b)
    {
      if y in Elements(a) {
        var i :| 0 <= i < |a| && a[i] == y;
        assert (a + b)[i] == y;
      }
      if y in Elements(b) {
        var i :| 0 <= i < |b| && b[i] == y;
        assert (a + b)[|a| + i] == y;
      }
    }
  }

  /** Rows of different groups have different ids. */
  lemma GroupsApart(config: Config, rank: Rank, records: seq<Record>, a: Row, b: Row, g: string, h: string)
    requires config.stride >= 1 && Catalogued(records) && g != h
    requires a in GroupRows(config, rank, Elements(records), g) && b in GroupRows(config, rank, Elements(records), h)
    ensures a.id != b.id
  {
    var all := Elements(records);
    var chosen, others := Chosen(config, rank, Members(all, g), g), Chosen(config, rank, Members(all, h), h);
    var r :| r in chosen && a == RowFor(config, g, r, r in Held(config, rank, chosen, g));
    var q :| q in others && b == RowFor(config, h, q, q in Held(config, rank, others, h));
    if a.id == b.id {
      SameRecord(records, r, q);
    }
  }

  /** The rows gathered so far are those of the groups so far. */
  ghost predicate Gathered(config: Config, rank: Rank, records: seq<Record>, groups: seq<string>, selected: seq<Row>)
    requires config.stride >= 1
  {
    Elements(selected) == RowsThrough(config, rank, Elements(records), groups) && RowIdsDistinct(selected)
  }

  lemma GatherNext(
      config: Config, rank: Rank, records: seq<Record>, groups: seq<string>, n: nat, selected: seq<Row>,
      rows: seq<Row>)
    requires config.stride >= 1 && Catalogued(records) && Distinct(groups) && n < |groups|
    requires Gathered(config, rank, records, groups[..n], selected)
    requires Selects(config, rank, Elements(records), groups[n], rows)
    ensures Gathered(config, rank, records, groups[..n + 1], selected + rows)
  {
    RowsThroughNext(config, rank, Elements(records), groups, n);
    ElementsConcat(selected, rows);
    forall i, j | 0 <= i < |selected| && 0 <= j < |rows|
      ensures selected[i].id != rows[j].id
    {
      assert selected[i] in Elements(selected) && rows[j] in Elements(rows);
      var k :| 0 <= k < n && selected[i] in GroupRows(config, rank, Elements(records), groups[..n][k]);
      assert groups[..n][k] == groups[k];
      GroupsApart(config, rank, records, selected[i], rows[j], groups[k], groups[n]);
    }
  }

  lemma GatheredAll(config: Config, rank: Rank, records: seq<Record>, groups: seq<string>, selected: seq<Row>)
    requires config.stride >= 1 && Gathered(config, rank, records, groups, selected)
    requires Elements(groups) == Groups(config, Elements(records))
    ensures Elements(selected) == AllRows(config, rank, Elements(records))
  {
    var all := Elements(records);
    forall row
      ensures row in RowsThrough(config, rank, all, groups) <==> row in AllRows(config, rank, all)
    {
      if row in RowsThrough(config, rank, all, groups) {
        var i :| 0 <= i < |groups| && row in GroupRows(config, rank, all, groups[i]);
        assert groups[i] in Elements(groups);
      }
      if row in AllRows(config, rank, all) {
        var g :| g in Groups(config, all) && row in GroupRows(config, rank, all, g);
        var i :| 0 <= i < |groups| && groups[i] == g;
      }
    }
  }

  lemma SortRows(rows: seq<Row>)
    requires RowIdsDistinct(rows)
    ensures var sorted := Sort(IdBefore, rows);
            Ascending(IdBefore, sorted) && Elements(sorted) == Elements(rows) && multiset(sorted) == multiset(rows)
  {
    forall a, b | a in Elements(rows) && b in Elements(rows) && a.id == b.id
      ensures a == b
    {
      var i :| 0 <= i < |rows| && rows[i] == a;
      var j :| 0 <= j < |rows| && rows[j] == b;
      assert !(i < j) && !(j < i);
    }
    IdIsOrder(Elements(rows));
    SortLists(IdBefore, rows);
    SortKeeps(IdBefore, rows);
  }

  lemma SortNames(groups: seq<string>)
    requires Distinct(groups)
    ensures var sorted := Sort(TextBefore, groups);
            Elements(sorted) == Elements(groups) && Distinct(sorted) && |sorted| == |groups|
  {
    forall a, b | a in Elements(groups) && b in Elements(groups)
      ensures a != b ==> TextBefore(a, b) || TextBefore(b, a)
      ensures TextBefore(a, b) ==> !TextBefore(b, a)
    {
      TextTotal(a, b);
    }
    forall a, b, c | a in Elements(groups) && b in Elements(groups) && c in Elements(groups)
      && TextBefore(a, b) && TextBefore(b, c)
      ensures TextBefore(a, c)
    {
      TextTransitive(a, b, c);
    }
    SortLists(TextBefore, groups);
  }

  lemma NoMembers(config: Config, rank: Rank, group: string)
    ensures |Chosen(config, rank, {}, group)| == 0
  {
    assert Chosen(config, rank, {}, group) == {};
  }

  /** The rows of every wanted group, in group order; refused when a group has too few episodes. */
  method SelectAll(
      config: Config, rank: Rank, records: seq<Record>, groups: seq<string>, grouped: map<string, seq<Record>>)
    returns (r: Result<seq<Row>>)
    requires config.Valid() && Catalogued(records) && Distinct(groups)
    requires forall g :: g in Elements(groups) ==> g in grouped
    requires forall g :: g in grouped ==> grouped[g] == InGroup(records, g)
    ensures r.Ok? <==> forall i :: 0 <= i < |groups| ==>
                         |Chosen(config, rank, Members(Elements(records), groups[i]), groups[i])| >= 2
    ensures r.Ok? ==> Gathered(config, rank, records, groups, r.value)
  {
    var selected: seq<Row> := [];
    for n := 0 to |groups|
      invariant Gathered(config, rank, records, groups[..n], selected)
      invariant forall i :: 0 <= i < n ==>
                  |Chosen(config, rank, Members(Elements(records), groups[i]), groups[i])| >= 2
    {
      var group := groups[n];
      assert group in Elements(groups);
      GroupMembers(records, group);
      GroupAlone(records, group);
      var rows := SelectGroup(config, rank, Elements(records), group, grouped[group]);
      if rows.Err? {
        return Err;
      }
      GatherNext(config, rank, records, groups, n, selected, rows.value);
      selected := selected + rows.value;
    }
    assert groups[..|groups|] == groups;
    return Ok(selected);
  }

  /** A group asked for and not in the catalogue makes the partition impossible. */
  lemma AbsentGroup(
      config: Config, rank: Rank, records: seq<Record>, order: seq<string>, grouped: map<string, seq<Record>>, i: nat)
    requires config.Valid() && Catalogued(records) && Filed(records, order, grouped)
    requires i < |Wanted(config, order)| && Wanted(config, order)[i] !in grouped
    ensures !Buildable(config, rank, records)
  {
    var g := Wanted(config, order)[i];
    WantedGroups(config, records, order, grouped);
    assert g in Groups(config, Elements(records));
    GroupMembers(records, g);
    NoMembers(config, rank, g);
  }

  lemma GroupsEnough(config: Config, rank: Rank, records: seq<Record>, groups: seq<string>)
    requires Catalogued(records) && Elements(groups) == Groups(config, Elements(records)) && groups != []
    ensures Buildable(config, rank, records) <==>
            forall i :: 0 <= i < |groups| ==>
              |Chosen(config, rank, Members(Elements(records), groups[i]), groups[i])| >= 2
  {
    assert groups[0] in Elements(groups);
    if Buildable(config, rank, records) {
      forall i | 0 <= i < |groups|
        ensures groups[i] in Groups(config, Elements(records))
      {
        assert groups[i] in Elements(groups);
      }
    }
  }

  /** `build_episode_manifest` */
  method BuildEpisodeManifest(config: Config, rank: Rank, records: seq<Record>) returns (r: Result<Manifest>)
    requires config.Valid()
    ensures Meets(config, rank, records, r)
    ensures r.Ok? ==> forall group :: group in Groups(config, Elements(records)) ==>
              && 1 <= |HeldRows(r.value, group)| < |RowsOf(r.value, group)|
              && HoldsOut(|RowsOf(r.value, group)|, config.fraction, |HeldRows(r.value, group)|)
  {
    var ok, order, grouped := Catalogue(records);
    if !ok {
      return Err;
    }
    WantedGroups(config, records, order, grouped);
    var wanted := Wanted(config, order);
    if i :| 0 <= i < |wanted| && wanted[i] !in grouped {
      AbsentGroup(config, rank, records, order, grouped, i);
      return Err;
    }
    if wanted == [] {
      return Err;
    }
    SortNames(wanted);
    var groups := Sort(TextBefore, wanted);
    var rows := SelectAll(config, rank, records, groups, grouped);
    GroupsEnough(config, rank, records, groups);
    if rows.Err? {
      return Err;
    }
    var selected := rows.value;
    GatheredAll(config, rank, records, groups, selected);
    SortRows(selected);
    var episodes := Sort(IdBefore, selected);
    CountPermutes(selected, episodes, Train);
    CountPermutes(selected, episodes, Validation);
    var m := Manifest(
      episodes, Count(selected, Train), Total(selected, Train), Count(selected, Validation),
      Total(selected, Validation));
    forall group | group in Groups(config, Elements(records))
      ensures HoldsOut(|RowsOf(m, group)|, config.fraction, |HeldRows(m, group)|)
    {
      FractionHeld(config, rank, records, m, group);
    }
    return Ok(m);
  }
}
