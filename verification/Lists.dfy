/** Lists without repetition, and Python's `dict.fromkeys`. */
module Lists {

  predicate Contains<T(==)>(all: seq<T>, x: T) {
    exists i :: 0 <= i < |all| && all[i] == x
  }

  predicate Distinct<T(==)>(all: seq<T>) {
    forall i, j :: 0 <= i < j < |all| ==> all[i] != all[j]
  }

  lemma ContainsMore<T>(all: seq<T>, last: T, x: T)
    ensures Contains(all + [last], x) <==> Contains(all, x) || x == last
  {
    var more := all + [last];
    if Contains(all, x) {
      var k :| 0 <= k < |all| && all[k] == x;
      assert more[k] == x;
    }
    if x == last {
      assert more[|all|] == x;
    }
  }

  /** `dict.fromkeys`: the first of each. */
  function Deduped<T(==)>(all: seq<T>): seq<T> {
    if all == [] then []
    else
      var n := |all| - 1;
      Deduped(all[..n]) + if Contains(all[..n], all[n]) then [] else [all[n]]
  }

  lemma {:induction false} DedupedSame<T(!new)>(all: seq<T>)
    ensures forall x :: Contains(Deduped(all), x) <==> Contains(all, x)
    ensures Distinct(Deduped(all))
  {
    if all != [] {
      var n := |all| - 1;
      DedupedSame(all[..n]);
      var before, after := Deduped(all[..n]), Deduped(all);
      forall x
        ensures Contains(after, x) <==> Contains(all, x)
      {
        if Contains(after, x) {
          var i :| 0 <= i < |after| && after[i] == x;
          if i < |before| {
            assert before[i] == x;
            assert Contains(all[..n], x);
            var j :| 0 <= j < n && all[..n][j] == x;
            assert all[j] == x;
          } else {
            assert all[n] == x;
          }
        }
        if Contains(all, x) {
          var j :| 0 <= j < |all| && all[j] == x;
          if j < n {
            assert all[..n][j] == x;
          }
          if Contains(all[..n], x) {
            assert Contains(before, x);
            var i :| 0 <= i < |before| && before[i] == x;
            assert after[i] == x;
          } else {
            assert after[|before|] == x;
          }
        }
      }
      forall i, j | 0 <= i < j < |after|
        ensures after[i] != after[j]
      {
        if j == |before| {
          assert Contains(before, after[i]) by {
            assert before[i] == after[i];
          }
        }
      }
    }
  }
}
