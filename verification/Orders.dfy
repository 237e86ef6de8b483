/**
 * Python's order on strings, and sorting by a strict order: what is sorted keeps its elements, and each of them stands
 * before all the later ones.
 */
module Orders {
  import opened Lists


  /** Strings compare character by character, a proper prefix first. */
  predicate TextBefore(a: string, b: string) {
    b != "" && (a == "" || a[0] < b[0] || (a[0] == b[0] && TextBefore(a[1..], b[1..])))
  }

  lemma {:induction false} TextTotal(a: string, b: string)
    ensures !(TextBefore(a, b) && TextBefore(b, a))
    ensures a != b ==> TextBefore(a, b) || TextBefore(b, a)
    ensures !TextBefore(a, a)
    decreases |a| + |b|
  {
    if a != "" && b != "" {
      TextTotal(a[1..], b[1..]);
      if a[0] == b[0] && a[1..] == b[1..] {
        assert a == [a[0]] + a[1..] && b == [b[0]] + b[1..];
      }
    }
    if a != "" {
      TextIrreflexive(a);
    }
  }

  lemma {:induction false} TextIrreflexive(a: string)
    ensures !TextBefore(a, a)
  {
    if a != "" {
      TextIrreflexive(a[1..]);
    }
  }

  lemma {:induction false} TextTransitive(a: string, b: string, c: string)
    requires TextBefore(a, b) && TextBefore(b, c)
    ensures TextBefore(a, c)
  {
    if a != "" && a[0] == b[0] == c[0] {
      TextTransitive(a[1..], b[1..], c[1..]);
    }
  }

  ghost predicate StrictOrder<T(!new)>(before: (T, T) -> bool, s: set<T>) {
    && (forall a, b :: a in s && b in s && a != b ==> before(a, b) || before(b, a))
    && (forall a, b :: a in s && b in s && before(a, b) ==> !before(b, a))
    && (forall a, b, c :: a in s && b in s && c in s && before(a, b) && before(b, c) ==> before(a, c))
  }

  predicate Ascending<T(!new)>(before: (T, T) -> bool, s: seq<T>) {
    forall i, j :: 0 <= i < j < |s| ==> before(s[i], s[j])
  }

  function Elements<T>(s: seq<T>): set<T> {
    set i | 0 <= i < |s| :: s[i]
  }

  function Insert<T>(before: (T, T) -> bool, x: T, s: seq<T>): seq<T> {
    if s == [] || before(x, s[0]) then [x] + s else [s[0]] + Insert(before, x, s[1..])
  }

  function Sort<T>(before: (T, T) -> bool, s: seq<T>): seq<T> {
    if s == [] then [] else Insert(before, s[0], Sort(before, s[1..]))
  }

  lemma {:induction false} InsertKeeps<T>(before: (T, T) -> bool, x: T, s: seq<T>)
    ensures multiset(Insert(before, x, s)) == multiset(s) + multiset{x}
  {
    if s == [] || before(x, s[0]) {
    } else {
      InsertKeeps(before, x, s[1..]);
      assert s == [s[0]] + s[1..];
    }
  }

  lemma {:induction false} SortKeeps<T>(before: (T, T) -> bool, s: seq<T>)
    ensures multiset(Sort(before, s)) == multiset(s)
  {
    if s != [] {
      SortKeeps(before, s[1..]);
      InsertKeeps(before, s[0], Sort(before, s[1..]));
      assert s == [s[0]] + s[1..];
    }
  }

  lemma {:induction false} InsertAscends<T(!new)>(before: (T, T) -> bool, x: T, s: seq<T>, all: set<T>)
    requires StrictOrder(before, all) && x in all && (forall i :: 0 <= i < |s| ==> s[i] in all && s[i] != x)
    requires Ascending(before, s)
    ensures Ascending(before, Insert(before, x, s))
    ensures forall i :: 0 <= i < |Insert(before, x, s)| ==> Insert(before, x, s)[i] in all
    ensures forall y :: y in all && y != x && (forall i :: 0 <= i < |s| ==> before(y, s[i])) && before(y, x) ==>
              forall i :: 0 <= i < |Insert(before, x, s)| ==> before(y, Insert(before, x, s)[i])
  {
    if s == [] {
    } else if before(x, s[0]) {
      assert forall i :: 0 < i < |s| ==> before(s[0], s[i]);
    } else {
      InsertAscends(before, x, s[1..], all);
      assert before(s[0], x);
      assert forall i :: 0 <= i < |s[1..]| ==> before(s[0], s[1..][i]);
    }
  }

  /** Sorting distinct elements by a strict order puts each before all later ones. */
  lemma {:induction false} SortAscends<T(!new)>(before: (T, T) -> bool, s: seq<T>, all: set<T>)
    requires StrictOrder(before, all) && Distinct(s) && forall i :: 0 <= i < |s| ==> s[i] in all
    ensures Ascending(before, Sort(before, s))
    ensures forall i :: 0 <= i < |Sort(before, s)| ==> Sort(before, s)[i] in all
  {
    if s != [] {
      var tail := Sort(before, s[1..]);
      SortAscends(before, s[1..], all);
      SortKeeps(before, s[1..]);
      forall i | 0 <= i < |tail|
        ensures tail[i] != s[0]
      {
        assert tail[i] in multiset(tail);
        assert tail[i] in s[1..];
      }
      InsertAscends(before, s[0], tail, all);
    }
  }
}
