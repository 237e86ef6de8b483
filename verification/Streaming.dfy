/** Streaming a partition's frames. */
module Streaming {
  // Why the stream has exactly the catalogued length.

  import opened Results
  import opened Arithmetic
  import opened Orders
  import opened Partition
  import opened PartitionBuild

  /** An episode of the source as it streams by. */
  datatype Episode = Episode(id: string, group: string, length: nat)

  /** The `k`-th frame kept of an episode is frame `k * stride`. */
  ghost predicate Strided(indices: seq<nat>, stride: nat) {
    forall k :: 0 <= k < |indices| ==> indices[k] == k * stride
  }

  lemma DivisionStep(n: nat, stride: nat)
    requires stride >= 1
    ensures (n + stride) / stride == (n + stride - 1) / stride + if n % stride == 0 then 1 else 0
  {
    var q, r := n / stride, n % stride;
    assert n == stride * q + r;
    if r == 0 {
      Quotient(n + stride, stride, q + 1, 0);
      Quotient(n + stride - 1, stride, q, stride - 1);
    } else {
      Quotient(n + stride, stride, q + 1, r);
      Quotient(n + stride - 1, stride, q + 1, r - 1);
    }
  }

  lemma Multiple(n: nat, stride: nat)
    requires stride >= 1 && n % stride == 0
    ensures (n + stride - 1) / stride * stride == n
  {
    var q := n / stride;
    assert n == stride * q;
    Quotient(n + stride - 1, stride, q, stride - 1);
  }

  /** The inner loop of `raw_frames`: every `stride`-th frame until the cap, which is exactly the closed form. */
  method KeepFrames(config: Config, length: nat) returns (indices: seq<nat>)
    requires config.Valid()
    ensures |indices| == Frames(config, length) && Strided(indices, config.stride)
    ensures forall k :: 0 <= k < |indices| ==> indices[k] < length
  {
    indices := [];
    var index := 0;
    while index < length
      invariant 0 <= index <= length
      invariant |indices| == (index + config.stride - 1) / config.stride
      invariant config.maxFrames.Some? ==> |indices| <= config.maxFrames.value
      invariant Strided(indices, config.stride) && forall k :: 0 <= k < |indices| ==> indices[k] < length
    {
      DivisionStep(index, config.stride);
      if index % config.stride != 0 {
        index := index + 1;
        continue;
      }
      if config.maxFrames.Some? && |indices| >= config.maxFrames.value {
        Rounding(index, length, config.stride);
        return;
      }
      Multiple(index, config.stride);
      indices := indices + [index];
      index := index + 1;
    }
  }

  lemma Rounding(a: nat, b: nat, stride: nat)
    requires a <= b && stride >= 1
    ensures (a + stride - 1) / stride <= (b + stride - 1) / stride
  {
    var x, y := a + stride - 1, b + stride - 1;
    var p, q := x / stride, y / stride;
    if p > q {
      Scaled(stride, p - q);
    }
  }

  // ----- one pass over the source -----

  /** `selected.get(id)` */
  function RowOf(rows: seq<Row>, id: string): Option<Row> {
    if rows == [] then None else if rows[0].id == id then Some(rows[0]) else RowOf(rows[1..], id)
  }

  predicate Streams(rows: seq<Row>, split: Split, e: Episode) {
    RowOf(rows, e.id).Some? && RowOf(rows, e.id).value.split == split
  }

  /** The rows met in one pass, in source order. */
  function Met(source: seq<Episode>, rows: seq<Row>, split: Split): seq<Row> {
    if source == [] then []
    else
      var n := |source| - 1;
      Met(source[..n], rows, split)
      + if Streams(rows, split, source[n]) then [RowOf(rows, source[n].id).value] else []
  }

  /** The source gives as many frames of an episode as the partition says. */
  predicate Unchanged(config: Config, rows: seq<Row>, split: Split, e: Episode)
    requires config.stride >= 1
  {
    Streams(rows, split, e) ==> e.length > 0 && Frames(config, e.length) == RowOf(rows, e.id).value.frames
  }

  /** The frames kept of one episode, in order: the multiples of the stride. */
  function FramesOf(config: Config, e: Episode): seq<(string, nat)>
    requires config.Valid()
  {
    seq(Frames(config, e.length), k requires 0 <= k => (e.id, k * config.stride))
  }

  /** One pass: the episodes of the split in source order, and of each its kept frames in order. */
  function Pass(config: Config, rows: seq<Row>, source: seq<Episode>, split: Split): seq<(string, nat)>
    requires config.Valid()
  {
    if source == [] then []
    else
      var n := |source| - 1;
      Pass(config, rows, source[..n], split)
      + if Streams(rows, split, source[n]) then FramesOf(config, source[n]) else []
  }

  /**
   * `raw_frames`: refused exactly when an episode of the split no longer gives the frames catalogued, and otherwise the
   * frames of one pass.
   */
  method RawFrames(config: Config, rows: seq<Row>, source: seq<Episode>, split: Split)
    returns (r: Result<seq<(string, nat)>>)
    requires config.Valid()
    ensures r.Ok? <==> forall i :: 0 <= i < |source| ==> Unchanged(config, rows, split, source[i])
    ensures r.Ok? ==> r.value == Pass(config, rows, source, split)
    ensures r.Ok? ==> |r.value| == Total(Met(source, rows, split), split)
  {
    var items: seq<(string, nat)> := [];
    for n := 0 to |source|
      invariant forall i :: 0 <= i < n ==> Unchanged(config, rows, split, source[i])
      invariant |items| == Total(Met(source[..n], rows, split), split)
      invariant items == Pass(config, rows, source[..n], split)
    {
      assert source[..n + 1][..n] == source[..n];
      var episode := source[n];
      var row := RowOf(rows, episode.id);
      if row.None? || row.value.split != split {
        assert Met(source[..n + 1], rows, split) == Met(source[..n], rows, split);
        continue;
      }
      if episode.length == 0 {
        return Err;
      }
      var indices := KeepFrames(config, episode.length);
      if |indices| != row.value.frames {
        return Err;
      }
      assert Tagged(episode.id, indices) == FramesOf(config, episode);
      items := items + Tagged(episode.id, indices);
      CountConcat(Met(source[..n], rows, split), [row.value], split);
    }
    assert source[..|source|] == source;
    return Ok(items);
  }

  /**
   * What a pass gives: of each episode of the split the frames at multiples of the stride, as many as the cap allows,
   * and nothing else.
   */
  lemma {:induction false} PassGives(
      config: Config, rows: seq<Row>, source: seq<Episode>, split: Split, id: string, frame: nat)
    requires config.Valid()
    ensures (id, frame) in Pass(config, rows, source, split)
       <==> exists i :: 0 <= i < |source| && source[i].id == id && Streams(rows, split, source[i])
                        && Takes(config, source[i].length, frame)
    decreases |source|
  {
    if source != [] {
      var n := |source| - 1;
      PassGives(config, rows, source[..n], split, id, frame);
      FramesGive(config, source[n], id, frame);
      assert forall i :: 0 <= i < n ==> source[..n][i] == source[i];
    }
  }

  /** A frame below the length at a multiple of the stride, among the first that the cap allows. */
  predicate Takes(config: Config, length: nat, frame: nat)
    requires config.Valid()
  {
    && frame < length && frame % config.stride == 0
    && (config.maxFrames.Some? ==> frame / config.stride < config.maxFrames.value)
  }

  lemma FramesGive(config: Config, e: Episode, id: string, frame: nat)
    requires config.Valid()
    ensures (id, frame) in FramesOf(config, e) <==> id == e.id && Takes(config, e.length, frame)
  {
    var items, stride := FramesOf(config, e), config.stride;
    if (id, frame) in items {
      var k :| 0 <= k < |items| && items[k] == (id, frame);
      BelowCeiling(k, e.length, stride);
      Quotient(k * stride, stride, k, 0);
    }
    if id == e.id && Takes(config, e.length, frame) {
      var k := frame / stride;
      assert frame == k * stride;
      BelowCeiling(k, e.length, stride);
      assert items[k] == (id, frame);
    }
  }

  lemma BelowCeiling(k: nat, length: nat, stride: nat)
    requires stride >= 1
    ensures k * stride < length <==> k < (length + stride - 1) / stride
  {
    var q, r := (length + stride - 1) / stride, (length + stride - 1) % stride;
    assert length + stride - 1 == stride * q + r;
    if k < q {
      Scaled(stride, q - k);
    } else {
      Scaled(stride, k - q + 1);
    }
  }

  function Tagged(id: string, indices: seq<nat>): (items: seq<(string, nat)>)
    ensures |items| == |indices| && forall k :: 0 <= k < |items| ==> items[k] == (id, indices[k])
  {
    seq(|indices|, k requires 0 <= k < |indices| => (id, indices[k]))
  }

  // ----- the stream against the catalogue -----

  /** What cataloguing keeps of the source: episodes that have frames. */
  function CatalogueOf(source: seq<Episode>): seq<Record> {
    if source == [] then []
    else
      var n := |source| - 1;
      CatalogueOf(source[..n])
      + if source[n].length > 0 then [Record(source[n].id, source[n].group, source[n].length)] else []
  }

  ghost predicate DistinctEpisodes(source: seq<Episode>) {
    forall i, j :: 0 <= i < j < |source| ==> source[i].id != source[j].id
  }

  lemma {:induction false} RowOfFinds(rows: seq<Row>, id: string)
    ensures RowOf(rows, id).Some? ==> RowOf(rows, id).value in Elements(rows) && RowOf(rows, id).value.id == id
    ensures RowOf(rows, id).None? ==> forall row :: row in Elements(rows) ==> row.id != id
  {
    if rows != [] {
      RowOfFinds(rows[1..], id);
      assert forall i :: 0 < i < |rows| ==> rows[1..][i - 1] == rows[i];
      if RowOf(rows, id).Some? {
        var row := RowOf(rows, id).value;
        if rows[0].id == id {
          assert rows[0] == row;
        } else {
          var i :| 0 <= i < |rows[1..]| && rows[1..][i] == row;
          assert rows[i + 1] == row;
        }
      }
    }
  }

  lemma {:induction false} CatalogueHas(source: seq<Episode>, r: Record)
    ensures r in Elements(CatalogueOf(source)) <==>
            exists i :: 0 <= i < |source| && source[i].length > 0
                        && r == Record(source[i].id, source[i].group, source[i].length)
  {
    if source != [] {
      var n := |source| - 1;
      CatalogueHas(source[..n], r);
      var last := Record(source[n].id, source[n].group, source[n].length);
      if source[n].length > 0 {
        ElementsAppend(CatalogueOf(source[..n]), last);
      } else {
        assert CatalogueOf(source) == CatalogueOf(source[..n]);
      }
      if r in Elements(CatalogueOf(source[..n])) {
        var i :| 0 <= i < n && source[..n][i].length > 0
          && r == Record(source[..n][i].id, source[..n][i].group, source[..n][i].length);
        assert source[i] == source[..n][i];
      }
      if i :| 0 <= i < n && source[i].length > 0 && r == Record(source[i].id, source[i].group, source[i].length) {
        assert source[..n][i] == source[i];
      }
    }
  }

  /** Each selected row stands for one source episode with frames, and gives exactly the frames that episode gives. */
  lemma RowEpisode(config: Config, rank: Rank, source: seq<Episode>, m: Manifest, row: Row) returns (i: nat)
    requires config.Valid() && Meets(config, rank, CatalogueOf(source), Ok(m)) && row in Elements(m.episodes)
    ensures i < |source| && source[i].id == row.id && source[i].length > 0
    ensures row.frames == Frames(config, source[i].length)
  {
    var records := CatalogueOf(source);
    var r := RowRecord(config, rank, Elements(records), row);
    OneRow(config, rank, records, row, r);
    CatalogueHas(source, r);
    i :| 0 <= i < |source| && source[i].length > 0
      && r == Record(source[i].id, source[i].group, source[i].length);
  }

  /** Streaming the source that was catalogued never trips the check for a changed episode. */
  lemma NeverChanged(config: Config, rank: Rank, source: seq<Episode>, m: Manifest, split: Split, i: nat)
    requires config.Valid() && DistinctEpisodes(source) && Meets(config, rank, CatalogueOf(source), Ok(m))
    requires i < |source|
    ensures Unchanged(config, m.episodes, split, source[i])
  {
    RowOfFinds(m.episodes, source[i].id);
    if Streams(m.episodes, split, source[i]) {
      var j := RowEpisode(config, rank, source, m, RowOf(m.episodes, source[i].id).value);
      SameEpisode(source, i, j);
    }
  }

  lemma SameEpisode(source: seq<Episode>, i: nat, j: nat)
    requires DistinctEpisodes(source) && i < |source| && j < |source| && source[i].id == source[j].id
    ensures i == j
  {
    assert !(i < j) && !(j < i);
  }

  function Kept(rows: seq<Row>, split: Split): seq<Row> {
    if rows == [] then [] else (if rows[0].split == split then [rows[0]] else []) + Kept(rows[1..], split)
  }

  lemma {:induction false} KeptTallies(rows: seq<Row>, split: Split)
    ensures Total(Kept(rows, split), split) == Total(rows, split)
            && Count(Kept(rows, split), split) == Count(rows, split)
    ensures |Kept(rows, split)| == Count(rows, split)
  {
    if rows != [] {
      KeptTallies(rows[1..], split);
      CountConcat(if rows[0].split == split then [rows[0]] else [], Kept(rows[1..], split), split);
    }
  }

  lemma {:induction false} KeptRows(rows: seq<Row>, split: Split, row: Row)
    requires RowIdsDistinct(rows)
    ensures row in Kept(rows, split) <==> row in Elements(rows) && row.split == split
    ensures RowIdsDistinct(Kept(rows, split))
    ensures forall i :: 0 <= i < |Kept(rows, split)| ==> Kept(rows, split)[i] in rows
  {
    if rows != [] {
      KeptRows(rows[1..], split, row);
      assert rows == [rows[0]] + rows[1..];
      ElementsConcat([rows[0]], rows[1..]);
      assert forall y :: y in Elements([rows[0]]) <==> y == rows[0] by {
        assert [rows[0]][0] == rows[0];
      }
      forall y | y in rows[1..]
        ensures y.id != rows[0].id && y in rows
      {
      }
    }
  }

  lemma {:induction false} MetIds(source: seq<Episode>, rows: seq<Row>, split: Split)
    requires DistinctEpisodes(source)
    ensures RowIdsDistinct(Met(source, rows, split))
    ensures forall k :: 0 <= k < |Met(source, rows, split)| ==>
              exists i :: 0 <= i < |source| && source[i].id == Met(source, rows, split)[k].id
  {
    if source != [] {
      var n := |source| - 1;
      MetIds(source[..n], rows, split);
      RowOfFinds(rows, source[n].id);
      var before := Met(source[..n], rows, split);
      forall k | 0 <= k < |before|
        ensures before[k].id != source[n].id
        ensures exists i :: 0 <= i < |source| && source[i].id == before[k].id
      {
        var i :| 0 <= i < n && source[..n][i].id == before[k].id;
        assert source[i] == source[..n][i];
      }
      if Streams(rows, split, source[n]) {
        assert source[n].id == RowOf(rows, source[n].id).value.id;
      }
    }
  }

  lemma {:induction false} MetRows(source: seq<Episode>, rows: seq<Row>, split: Split, row: Row)
    requires DistinctEpisodes(source)
    ensures row in Met(source, rows, split) <==>
            exists i :: 0 <= i < |source| && Streams(rows, split, source[i]) && RowOf(rows, source[i].id).value == row
    ensures RowIdsDistinct(Met(source, rows, split))
  {
    MetIds(source, rows, split);
    if source != [] {
      var n := |source| - 1;
      MetRows(source[..n], rows, split, row);
      if row in Met(source[..n], rows, split) {
        var i :| 0 <= i < n && Streams(rows, split, source[..n][i]) && RowOf(rows, source[..n][i].id).value == row;
        assert source[i] == source[..n][i];
      }
      if i :| 0 <= i < n && Streams(rows, split, source[i]) && RowOf(rows, source[i].id).value == row {
        assert source[..n][i] == source[i];
      }
    }
  }

  lemma {:induction false} DistinctOnce(rows: seq<Row>, row: Row)
    requires RowIdsDistinct(rows)
    ensures multiset(rows)[row] == if row in rows then 1 else 0
  {
    if rows != [] {
      DistinctOnce(rows[1..], row);
      assert rows == [rows[0]] + rows[1..];
    }
  }

  lemma ManifestIds(config: Config, rank: Rank, records: seq<Record>, m: Manifest)
    requires config.stride >= 1 && Meets(config, rank, records, Ok(m))
    ensures RowIdsDistinct(m.episodes)
  {
    forall i, j | 0 <= i < j < |m.episodes|
      ensures m.episodes[i].id != m.episodes[j].id
    {
      assert IdBefore(m.episodes[i], m.episodes[j]);
      TextIrreflexive(m.episodes[i].id);
    }
  }

  /** `verify_episode_manifest` accepts what was built: no id twice, and every row has a frame. */
  lemma BuiltVerifies(config: Config, rank: Rank, records: seq<Record>, m: Manifest)
    requires config.Valid() && Meets(config, rank, records, Ok(m))
    ensures RowIdsDistinct(m.episodes)
    ensures forall i :: 0 <= i < |m.episodes| ==> m.episodes[i].frames >= 1
  {
    ManifestIds(config, rank, records, m);
    forall i | 0 <= i < |m.episodes|
      ensures m.episodes[i].frames >= 1
    {
      assert m.episodes[i] in Elements(m.episodes);
      RowHasFrames(config, rank, records, m.episodes[i]);
    }
  }

  lemma RowHasFrames(config: Config, rank: Rank, records: seq<Record>, row: Row)
    requires config.Valid() && Catalogued(records) && row in AllRows(config, rank, Elements(records))
    ensures row.frames >= 1
  {
    var r := RowRecord(config, rank, Elements(records), row);
    OneRow(config, rank, records, row, r);
    var k :| 0 <= k < |records| && records[k] == r;
    assert WellFormed(records[k]);
    AtLeastOne(config, r.frames);
  }

  lemma AtLeastOne(config: Config, frames: nat)
    requires config.Valid() && frames >= 1
    ensures Frames(config, frames) >= 1
  {
    Rounding(1, frames, config.stride);
    Quotient(config.stride, config.stride, 1, 0);
  }

  /**
   * One pass over the source that was catalogued is never refused and yields exactly the frames and episodes that the
   * manifest counts for the split: the length a data loader is told.
   */
  lemma OnePass(config: Config, rank: Rank, source: seq<Episode>, m: Manifest, split: Split)
    requires config.Valid() && DistinctEpisodes(source) && Meets(config, rank, CatalogueOf(source), Ok(m))
    ensures forall i :: 0 <= i < |source| ==> Unchanged(config, m.episodes, split, source[i])
    ensures Total(Met(source, m.episodes, split), split) == if split == Train then m.trainFrames else m.validationFrames
    ensures |Met(source, m.episodes, split)| == if split == Train then m.trainEpisodes else m.validationEpisodes
  {
    var met, kept := Met(source, m.episodes, split), Kept(m.episodes, split);
    ManifestIds(config, rank, CatalogueOf(source), m);
    forall i | 0 <= i < |source|
      ensures Unchanged(config, m.episodes, split, source[i])
    {
      NeverChanged(config, rank, source, m, split, i);
    }
    forall row
      ensures multiset(met)[row] == multiset(kept)[row]
    {
      MetRows(source, m.episodes, split, row);
      KeptRows(m.episodes, split, row);
      MetIsKept(config, rank, source, m, split, row);
      DistinctOnce(met, row);
      DistinctOnce(kept, row);
    }
    assert multiset(met) == multiset(kept);
    CountPermutes(met, kept, split);
    KeptTallies(m.episodes, split);
    assert |met| == |multiset(met)| == |kept|;
  }

  lemma MetIsKept(config: Config, rank: Rank, source: seq<Episode>, m: Manifest, split: Split, row: Row)
    requires config.Valid() && DistinctEpisodes(source) && Meets(config, rank, CatalogueOf(source), Ok(m))
    requires RowIdsDistinct(m.episodes)
    ensures row in Met(source, m.episodes, split) <==> row in Kept(m.episodes, split)
  {
    MetRows(source, m.episodes, split, row);
    KeptRows(m.episodes, split, row);
    if row in Met(source, m.episodes, split) {
      var i :| 0 <= i < |source| && Streams(m.episodes, split, source[i])
        && RowOf(m.episodes, source[i].id).value == row;
      RowOfFinds(m.episodes, source[i].id);
    }
    if row in Kept(m.episodes, split) {
      var i := RowEpisode(config, rank, source, m, row);
      RowOfFinds(m.episodes, row.id);
      var found := RowOf(m.episodes, row.id).value;
      var j :| 0 <= j < |m.episodes| && m.episodes[j] == row;
      var k :| 0 <= k < |m.episodes| && m.episodes[k] == found;
      assert !(j < k) && !(k < j);
      assert Streams(m.episodes, split, source[i]);
    }
  }
}
