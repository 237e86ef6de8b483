/** Stratified episode partitions. */
module Partition {
  // Which episodes are selected, which are held out, and how many frames they give.

  import opened Results
  import opened Lists
  import opened Orders

  datatype Record = Record(id: string, group: string, frames: int)

  datatype Phase = Select | Divide

  datatype Split = Train | Validation

  datatype Row = Row(id: string, group: string, sourceFrames: int, frames: int, split: Split)

  datatype Manifest = Manifest(
    episodes: seq<Row>, trainEpisodes: nat, trainFrames: int, validationEpisodes: nat, validationFrames: int)

  /** The hash of phase, seed, group and id, as a number: any function, collisions included. */
  type Rank = (Phase, string, string) -> int

  /** `dataset.partition` after validation; `groups` is absent or a list. */
  datatype Config = Config(
    fraction: real, groups: Option<seq<string>>, maxEpisodes: Option<nat>, maxFrames: Option<nat>, stride: nat)
  {
    predicate Valid() {
      && 0.0 < fraction < 1.0 && stride >= 1
      && (groups.Some? ==> groups.value != [] && Distinct(groups.value)
                           && forall i :: 0 <= i < |groups.value| ==> groups.value[i] != "")
      && (maxEpisodes.Some? ==> maxEpisodes.value >= 1) && (maxFrames.Some? ==> maxFrames.value >= 1)
    }
  }

  predicate WellFormed(r: Record) {
    r.id != "" && r.group != "" && r.frames >= 1
  }

  ghost predicate Catalogued(records: seq<Record>) {
    && (forall i :: 0 <= i < |records| ==> WellFormed(records[i]))
    && forall i, j :: 0 <= i < j < |records| ==> records[i].id != records[j].id
  }

  /** By rank within the phase, ties broken by id. */
  predicate RankedBefore(rank: Rank, phase: Phase, group: string, a: Record, b: Record) {
    var (x, y) := (rank(phase, group, a.id), rank(phase, group, b.id));
    x < y || (x == y && TextBefore(a.id, b.id))
  }

  function Before(rank: Rank, phase: Phase, group: string): (Record, Record) -> bool {
    (a, b) => RankedBefore(rank, phase, group, a, b)
  }

  // ----- the first few of a set, whatever order it is listed in -----

  ghost function Position<T(!new)>(before: (T, T) -> bool, rows: set<T>, r: T): nat {
    |set q | q in rows && before(q, r)|
  }

  ghost function First<T(!new)>(before: (T, T) -> bool, rows: set<T>, k: nat): set<T> {
    set r | r in rows && Position(before, rows, r) < k
  }

  lemma {:induction false} ElementsCount<T>(s: seq<T>)
    requires Distinct(s)
    ensures |Elements(s)| == |s|
  {
    if s != [] {
      var n := |s| - 1;
      ElementsCount(s[..n]);
      assert Elements(s) == Elements(s[..n]) + {s[n]} by {
        forall x | x in Elements(s)
          ensures x in Elements(s[..n]) + {s[n]}
        {
          var i :| 0 <= i < |s| && s[i] == x;
          assert i < n ==> s[..n][i] == x;
        }
      }
      assert s[n] !in Elements(s[..n]);
    }
  }

  lemma AscendingDistinct<T(!new)>(before: (T, T) -> bool, s: seq<T>)
    requires Ascending(before, s) && StrictOrder(before, Elements(s))
    ensures Distinct(s)
  {
    forall i, j | 0 <= i < j < |s|
      ensures s[i] != s[j]
    {
      assert before(s[i], s[j]);
      assert s[i] in Elements(s) && s[j] in Elements(s);
    }
  }

  /** In a sorted list, an element's place is the number of elements before it. */
  lemma PositionIsIndex<T(!new)>(before: (T, T) -> bool, s: seq<T>, i: nat)
    requires Ascending(before, s) && StrictOrder(before, Elements(s)) && i < |s|
    ensures Position(before, Elements(s), s[i]) == i
  {
    AscendingDistinct(before, s);
    var earlier := set q | q in Elements(s) && before(q, s[i]);
    assert earlier == Elements(s[..i]) by {
      forall q | q in earlier
        ensures q in Elements(s[..i])
      {
        var j :| 0 <= j < |s| && s[j] == q;
        assert s[i] in Elements(s);
        assert !before(s[i], s[j]) && s[j] != s[i];
        assert j < i;
        assert s[..i][j] == q;
      }
      forall q | q in Elements(s[..i])
        ensures q in earlier
      {
        var j :| 0 <= j < i && s[..i][j] == q;
        assert before(s[j], s[i]);
        assert s[j] in Elements(s);
      }
    }
    ElementsCount(s[..i]);
  }

  /** So taking the first few of a sorted list depends only on what is listed. */
  lemma FirstIsPrefix<T(!new)>(before: (T, T) -> bool, s: seq<T>, k: nat)
    requires Ascending(before, s) && StrictOrder(before, Elements(s))
    ensures First(before, Elements(s), k) == Elements(if k < |s| then s[..k] else s)
  {
    var taken := if k < |s| then s[..k] else s;
    forall x
      ensures x in First(before, Elements(s), k) <==> x in Elements(taken)
    {
      if x in Elements(taken) {
        var j :| 0 <= j < |taken| && taken[j] == x;
        assert s[j] == x;
        PositionIsIndex(before, s, j);
      }
      if x in First(before, Elements(s), k) {
        var i :| 0 <= i < |s| && s[i] == x;
        PositionIsIndex(before, s, i);
        assert taken[i] == x;
      }
    }
  }

  lemma {:induction false} SortedUnique<T(!new)>(before: (T, T) -> bool, s: seq<T>, t: seq<T>)
    requires Ascending(before, s) && Ascending(before, t) && Elements(s) == Elements(t)
    requires StrictOrder(before, Elements(s))
    ensures s == t
  {
    AscendingDistinct(before, s);
    AscendingDistinct(before, t);
    ElementsCount(s);
    ElementsCount(t);
    forall i | 0 <= i < |s|
      ensures s[i] == t[i]
    {
      PositionIsIndex(before, s, i);
      assert s[i] in Elements(t);
      var j :| 0 <= j < |t| && t[j] == s[i];
      PositionIsIndex(before, t, j);
    }
  }

  // ----- what a partition is -----

  function Ceiling(x: real): int {
    -((-x).Floor)
  }

  /** How many of `n` are held out: the least number that makes up the fraction, but at least one and never all. */
  predicate HoldsOut(n: nat, fraction: real, count: nat) {
    && 1 <= count < n
    && (count as real >= fraction * n as real || count == n - 1)
    && (count as real - 1.0 < fraction * n as real || count == 1)
  }

  function ValidationCount(n: nat, fraction: real): (count: nat)
    requires n >= 2
    ensures HoldsOut(n, fraction, count)
  {
    var wanted := Ceiling(n as real * fraction);
    var atLeastOne := if wanted > 1 then wanted else 1;
    if atLeastOne < n - 1 then atLeastOne else n - 1
  }

  /** Frames kept of an episode: every `stride`-th, at most the cap. */
  function Frames(config: Config, n: int): (frames: int)
    requires config.stride >= 1
    ensures n >= 0 ==> frames >= 0
  {
    var kept := (n + config.stride - 1) / config.stride;
    if config.maxFrames.Some? && config.maxFrames.value < kept then config.maxFrames.value else kept
  }

  ghost function Members(all: set<Record>, group: string): set<Record> {
    set r | r in all && r.group == group
  }

  ghost function Chosen(config: Config, rank: Rank, rows: set<Record>, group: string): set<Record> {
    if config.maxEpisodes.None? then rows else First(Before(rank, Select, group), rows, config.maxEpisodes.value)
  }

  ghost function Held(config: Config, rank: Rank, chosen: set<Record>, group: string): set<Record>
    requires |chosen| >= 2
  {
    First(Before(rank, Divide, group), chosen, ValidationCount(|chosen|, config.fraction))
  }

  function RowFor(config: Config, group: string, r: Record, held: bool): Row
    requires config.stride >= 1
  {
    Row(r.id, group, r.frames, Frames(config, r.frames), if held then Validation else Train)
  }

  ghost function GroupRows(config: Config, rank: Rank, all: set<Record>, group: string): set<Row>
    requires config.stride >= 1
  {
    var chosen := Chosen(config, rank, Members(all, group), group);
    if |chosen| < 2 then {}
    else set r | r in chosen :: RowFor(config, group, r, r in Held(config, rank, chosen, group))
  }

  ghost function Groups(config: Config, all: set<Record>): set<string> {
    if config.groups.None? then set r | r in all :: r.group else Elements(config.groups.value)
  }

  ghost function AllRows(config: Config, rank: Rank, all: set<Record>): set<Row>
    requires config.stride >= 1
  {
    set g, row | g in Groups(config, all) && row in GroupRows(config, rank, all, g) :: row
  }

  /** When a partition exists: a well-formed catalogue, and at least two selected episodes in every group asked for. */
  ghost predicate Buildable(config: Config, rank: Rank, records: seq<Record>) {
    && Catalogued(records) && Groups(config, Elements(records)) != {}
    && forall g :: g in Groups(config, Elements(records)) ==>
         |Chosen(config, rank, Members(Elements(records), g), g)| >= 2
  }

  predicate IdBefore(a: Row, b: Row) {
    TextBefore(a.id, b.id)
  }

  function Count(rows: seq<Row>, split: Split): nat {
    if rows == [] then 0 else (if rows[0].split == split then 1 else 0) + Count(rows[1..], split)
  }

  function Total(rows: seq<Row>, split: Split): int {
    if rows == [] then 0 else (if rows[0].split == split then rows[0].frames else 0) + Total(rows[1..], split)
  }

  ghost predicate Tallied(m: Manifest) {
    && m.trainEpisodes == Count(m.episodes, Train) && m.trainFrames == Total(m.episodes, Train)
    && m.validationEpisodes == Count(m.episodes, Validation) && m.validationFrames == Total(m.episodes, Validation)
  }

  /** The outcome of building a partition: refused exactly when there is none, otherwise the rows, by id, tallied. */
  ghost predicate Meets(config: Config, rank: Rank, records: seq<Record>, r: Result<Manifest>)
    requires config.stride >= 1
  {
    && (r.Ok? <==> Buildable(config, rank, records))
    && (r.Ok? ==>
          && Elements(r.value.episodes) == AllRows(config, rank, Elements(records))
          && Ascending(IdBefore, r.value.episodes) && Tallied(r.value))
  }

  // ----- what a partition promises -----

  lemma RankIsOrder(rank: Rank, phase: Phase, group: string, rows: set<Record>)
    requires forall a, b :: a in rows && b in rows && a.id == b.id ==> a == b
    ensures StrictOrder(Before(rank, phase, group), rows)
  {
    forall a, b | a in rows && b in rows
      ensures a != b ==> RankedBefore(rank, phase, group, a, b) || RankedBefore(rank, phase, group, b, a)
      ensures RankedBefore(rank, phase, group, a, b) ==> !RankedBefore(rank, phase, group, b, a)
    {
      TextTotal(a.id, b.id);
    }
    forall a, b, c | a in rows && b in rows && c in rows
      && RankedBefore(rank, phase, group, a, b) && RankedBefore(rank, phase, group, b, c)
      ensures RankedBefore(rank, phase, group, a, c)
    {
      if TextBefore(a.id, b.id) && TextBefore(b.id, c.id) {
        TextTransitive(a.id, b.id, c.id);
      }
    }
  }

  ghost predicate DistinctIds(rows: set<Row>) {
    forall a, b :: a in rows && b in rows && a.id == b.id ==> a == b
  }

  lemma IdIsOrder(rows: set<Row>)
    requires DistinctIds(rows)
    ensures StrictOrder(IdBefore, rows)
  {
    forall a, b | a in rows && b in rows
      ensures a != b ==> IdBefore(a, b) || IdBefore(b, a)
      ensures IdBefore(a, b) ==> !IdBefore(b, a)
    {
      TextTotal(a.id, b.id);
    }
    forall a, b, c | a in rows && b in rows && c in rows && IdBefore(a, b) && IdBefore(b, c)
      ensures IdBefore(a, c)
    {
      TextTransitive(a.id, b.id, c.id);
    }
  }

  lemma SameRecord(records: seq<Record>, a: Record, b: Record)
    requires Catalogued(records) && a in Elements(records) && b in Elements(records) && a.id == b.id
    ensures a == b
  {
    var i :| 0 <= i < |records| && records[i] == a;
    var j :| 0 <= j < |records| && records[j] == b;
    assert !(i < j) && !(j < i);
  }

  /** Every selected row stands for one record of its group. */
  lemma RowRecord(config: Config, rank: Rank, all: set<Record>, row: Row) returns (r: Record)
    requires config.stride >= 1 && row in AllRows(config, rank, all)
    ensures r in all && row.id == r.id && row.group == r.group && row.sourceFrames == r.frames
    ensures row.group in Groups(config, all) && row in GroupRows(config, rank, all, row.group)
    ensures r in Chosen(config, rank, Members(all, row.group), row.group)
  {
    var g :| g in Groups(config, all) && row in GroupRows(config, rank, all, g);
    var chosen := Chosen(config, rank, Members(all, g), g);
    r :| r in chosen && row == RowFor(config, g, r, r in Held(config, rank, chosen, g));
  }

  lemma RowsDistinct(config: Config, rank: Rank, records: seq<Record>)
    requires config.stride >= 1 && Catalogued(records)
    ensures DistinctIds(AllRows(config, rank, Elements(records)))
  {
    var all := Elements(records);
    forall a, b | a in AllRows(config, rank, all) && b in AllRows(config, rank, all) && a.id == b.id
      ensures a == b
    {
      var r := RowRecord(config, rank, all, a);
      var q := RowRecord(config, rank, all, b);
      SameRecord(records, r, q);
      var chosen := Chosen(config, rank, Members(all, a.group), a.group);
      assert a == RowFor(config, a.group, r, r in Held(config, rank, chosen, a.group)) by {
        OneRow(config, rank, records, a, r);
      }
      OneRow(config, rank, records, b, r);
    }
  }

  lemma OneRow(config: Config, rank: Rank, records: seq<Record>, row: Row, r: Record)
    requires config.stride >= 1 && Catalogued(records) && r in Elements(records)
    requires row in GroupRows(config, rank, Elements(records), row.group) && row.id == r.id
    ensures var chosen := Chosen(config, rank, Members(Elements(records), row.group), row.group);
            |chosen| >= 2 && row == RowFor(config, row.group, r, r in Held(config, rank, chosen, row.group))
  {
    var chosen := Chosen(config, rank, Members(Elements(records), row.group), row.group);
    var q :| q in chosen && row == RowFor(config, row.group, q, q in Held(config, rank, chosen, row.group));
    SameRecord(records, q, r);
  }

  /** The manifest does not depend on the order in which the episodes were listed. */
  lemma OrderIndependent(
      config: Config, rank: Rank, records: seq<Record>, others: seq<Record>, r: Result<Manifest>, s: Result<Manifest>)
    requires config.stride >= 1 && multiset(records) == multiset(others)
    requires Meets(config, rank, records, r) && Meets(config, rank, others, s)
    ensures r == s
  {
    SameElements(records, others);
    if Catalogued(records) {
      SameCatalogue(records, others);
    }
    if Catalogued(others) {
      SameCatalogue(others, records);
    }
    if r.Ok? {
      RowsDistinct(config, rank, records);
      IdIsOrder(AllRows(config, rank, Elements(records)));
      SortedUnique(IdBefore, r.value.episodes, s.value.episodes);
    }
  }

  lemma SameElements<T>(a: seq<T>, b: seq<T>)
    requires multiset(a) == multiset(b)
    ensures Elements(a) == Elements(b)
  {
    forall x
      ensures x in Elements(a) <==> x in Elements(b)
    {
      assert x in multiset(a) <==> x in a;
      assert x in multiset(b) <==> x in b;
    }
  }

  lemma SameCatalogue(records: seq<Record>, others: seq<Record>)
    requires multiset(records) == multiset(others) && Catalogued(records)
    ensures Catalogued(others)
  {
    forall i | 0 <= i < |others|
      ensures WellFormed(others[i])
    {
      assert others[i] in multiset(others);
      assert others[i] in records;
    }
    forall i, j | 0 <= i < j < |others|
      ensures others[i].id != others[j].id
    {
      assert others[i] in multiset(records) && others[j] in multiset(records);
      if others[i].id == others[j].id {
        SameRecord(records, others[i], others[j]);
        TwiceCounted(others, i, j);
        OnceCounted(records, others[i]);
      }
    }
  }

  lemma TwiceCounted<T>(s: seq<T>, i: nat, j: nat)
    requires i < j < |s| && s[i] == s[j]
    ensures multiset(s)[s[i]] >= 2
  {
    assert s == s[..i] + [s[i]] + s[i + 1..j] + [s[j]] + s[j + 1..];
  }

  lemma {:induction false} OnceCounted(records: seq<Record>, r: Record)
    requires Catalogued(records)
    ensures multiset(records)[r] <= 1
  {
    if records != [] {
      OnceCounted(records[1..], r);
      assert records == [records[0]] + records[1..];
      if r == records[0] {
        assert forall i :: 0 <= i < |records[1..]| ==> records[1..][i] == records[i + 1];
        assert r !in records[1..];
      }
    }
  }

  /** What is selected and held out in one group depends on that group's episodes alone. */
  lemma GroupsIsolated(
      config: Config, rank: Rank, records: seq<Record>, others: seq<Record>, r: Result<Manifest>, s: Result<Manifest>,
      group: string, row: Row)
    requires config.stride >= 1 && Meets(config, rank, records, r) && Meets(config, rank, others, s) && r.Ok? && s.Ok?
    requires Members(Elements(records), group) == Members(Elements(others), group) && row.group == group
    ensures row in Elements(r.value.episodes) <==> row in Elements(s.value.episodes)
  {
    GroupSeen(config, Elements(records), group);
    GroupSeen(config, Elements(others), group);
    GroupRow(config, rank, Elements(records), row);
    GroupRow(config, rank, Elements(others), row);
  }

  lemma GroupSeen(config: Config, all: set<Record>, group: string)
    ensures group in Groups(config, all) <==>
            if config.groups.None? then Members(all, group) != {} else group in Elements(config.groups.value)
  {
    if config.groups.None? && group in Groups(config, all) {
      var r :| r in all && r.group == group;
      assert r in Members(all, group);
    }
  }

  lemma GroupRow(config: Config, rank: Rank, all: set<Record>, row: Row)
    requires config.stride >= 1
    ensures row in AllRows(config, rank, all) <==>
            row.group in Groups(config, all) && row in GroupRows(config, rank, all, row.group)
  {
    if row in AllRows(config, rank, all) {
      var q := RowRecord(config, rank, all, row);
    }
  }
}
