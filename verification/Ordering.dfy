/** `ORDER BY major, minor` with an optional `LIMIT`, on rows with a two-part key. */
module Ordering {

  datatype Key = Key(major: int, minor: int)

  predicate Less(a: Key, b: Key) {
    a.major < b.major || (a.major == b.major && a.minor < b.minor)
  }

  ghost predicate Ascending<T(!new)>(xs: seq<T>, key: T -> Key) {
    forall i, j | 0 <= i < j < |xs| :: Less(key(xs[i]), key(xs[j]))
  }

  ghost predicate DistinctKeys<T(!new)>(xs: seq<T>, key: T -> Key) {
    forall i, j | 0 <= i < j < |xs| :: key(xs[i]) != key(xs[j])
  }

  /** The rows two sequences hold, whatever their order. */
  ghost predicate SameRows<T(!new)>(xs: seq<T>, ys: seq<T>) {
    forall x :: x in xs <==> x in ys
  }

  function Insert<T>(x: T, xs: seq<T>, key: T -> Key): seq<T> {
    if xs == [] || Less(key(x), key(xs[0])) then [x] + xs else [xs[0]] + Insert(x, xs[1..], key)
  }

  function Sort<T>(xs: seq<T>, key: T -> Key): seq<T> {
    if xs == [] then [] else Insert(xs[0], Sort(xs[1..], key), key)
  }

  function Limit<T>(xs: seq<T>, n: nat): seq<T> {
    if |xs| <= n then xs else xs[..n]
  }

  lemma {:induction false} InsertRows<T(!new)>(x: T, xs: seq<T>, key: T -> Key)
    ensures |Insert(x, xs, key)| == |xs| + 1
    ensures multiset(Insert(x, xs, key)) == multiset(xs) + multiset{x}
  {
    if !(xs == [] || Less(key(x), key(xs[0]))) {
      InsertRows(x, xs[1..], key);
      assert xs == [xs[0]] + xs[1..];
    }
  }

  lemma SameMultisetSameRows<T(!new)>(xs: seq<T>, ys: seq<T>)
    requires multiset(xs) == multiset(ys)
    ensures SameRows(xs, ys)
  {
    forall x
      ensures x in xs <==> x in ys
    {
      assert x in xs <==> x in multiset(xs);
      assert x in ys <==> x in multiset(ys);
    }
  }

  /** Sorting keeps every row, with its multiplicity. */
  lemma {:induction false} SortRows<T(!new)>(xs: seq<T>, key: T -> Key)
    ensures |Sort(xs, key)| == |xs|
    ensures multiset(Sort(xs, key)) == multiset(xs)
    ensures SameRows(Sort(xs, key), xs)
  {
    if xs != [] {
      SortRows(xs[1..], key);
      InsertRows(xs[0], Sort(xs[1..], key), key);
      assert xs == [xs[0]] + xs[1..];
    }
    SameMultisetSameRows(Sort(xs, key), xs);
  }

  lemma {:induction false} InsertAscends<T(!new)>(x: T, xs: seq<T>, key: T -> Key)
    requires Ascending(xs, key)
    requires forall y | y in xs :: key(y) != key(x)
    ensures Ascending(Insert(x, xs, key), key)
  {
    if !(xs == [] || Less(key(x), key(xs[0]))) {
      InsertAscends(x, xs[1..], key);
      InsertRows(x, xs[1..], key);
      var rest := Insert(x, xs[1..], key);
      forall j | 0 <= j < |rest|
        ensures Less(key(xs[0]), key(rest[j]))
      {
        assert rest[j] in multiset(rest);
        assert rest[j] == x || rest[j] in xs[1..];
        assert xs[0] in xs;
      }
    }
  }

  /** With distinct keys the result is strictly ascending. */
  lemma {:induction false} SortAscends<T(!new)>(xs: seq<T>, key: T -> Key)
    requires DistinctKeys(xs, key)
    ensures Ascending(Sort(xs, key), key)
  {
    if xs != [] {
      SortAscends(xs[1..], key);
      SortRows(xs[1..], key);
      InsertAscends(xs[0], Sort(xs[1..], key), key);
    }
  }

  /** An ascending arrangement of a set of rows is unique, so the query result is determined by the table. */
  lemma {:induction false} AscendingIsUnique<T(!new)>(xs: seq<T>, ys: seq<T>, key: T -> Key)
    requires Ascending(xs, key) && Ascending(ys, key) && SameRows(xs, ys)
    ensures xs == ys
  {
    assert forall i | 0 <= i < |xs| :: xs[i] in ys;
    assert forall i | 0 <= i < |ys| :: ys[i] in xs;
    if xs != [] && ys != [] {
      assert xs[0] == ys[0];
      forall x
        ensures x in xs[1..] <==> x in ys[1..]
      {
        TailRows(xs, key, x);
        TailRows(ys, key, x);
      }
      AscendingIsUnique(xs[1..], ys[1..], key);
      assert xs == [xs[0]] + xs[1..] && ys == [ys[0]] + ys[1..];
    }
  }

  lemma TailRows<T(!new)>(xs: seq<T>, key: T -> Key, x: T)
    requires xs != [] && Ascending(xs, key)
    ensures x in xs[1..] <==> x in xs && x != xs[0]
  {
  }

  /** Rows already in ascending order are returned as they are. */
  lemma SortOfAscending<T(!new)>(xs: seq<T>, key: T -> Key)
    requires Ascending(xs, key)
    ensures Sort(xs, key) == xs
  {
  }

  /** Sorting is determined by the set of rows when their keys are distinct. */
  lemma SortIsDetermined<T(!new)>(xs: seq<T>, sorted: seq<T>, key: T -> Key)
    requires DistinctKeys(xs, key)
    requires Ascending(sorted, key) && SameRows(xs, sorted)
    ensures Sort(xs, key) == sorted
  {
    SortAscends(xs, key);
    SortRows(xs, key);
    AscendingIsUnique(Sort(xs, key), sorted, key);
  }

  /** The rows that come strictly before `k`. */
  ghost function Before<T(!new)>(xs: seq<T>, key: T -> Key, k: Key): set<T> {
    set x | x in xs && Less(key(x), k)
  }

  /** In ascending order a row's position is the number of rows before it. */
  lemma {:induction false} PositionCountsRowsBefore<T(!new)>(xs: seq<T>, key: T -> Key, i: nat)
    requires Ascending(xs, key) && i < |xs|
    ensures |Before(xs, key, key(xs[i]))| == i
  {
    var front := set x | x in xs[..i];
    assert Before(xs, key, key(xs[i])) == front by {
      forall x | x in Before(xs, key, key(xs[i]))
        ensures x in front
      {
        var j :| 0 <= j < |xs| && xs[j] == x;
        assert j < i;
        assert xs[..i][j] == x;
      }
      forall x | x in front
        ensures x in Before(xs, key, key(xs[i]))
      {
        var j :| 0 <= j < i && xs[..i][j] == x;
        assert xs[j] == x;
      }
    }
    assert forall a, b | 0 <= a < b < i :: Less(key(xs[a]), key(xs[b]));
    DistinctCount(xs[..i], key);
  }

  lemma {:induction false} DistinctCount<T(!new)>(xs: seq<T>, key: T -> Key)
    requires Ascending(xs, key)
    ensures |set x | x in xs| == |xs|
  {
    if xs != [] {
      DistinctCount(xs[1..], key);
      forall x
        ensures x in xs[1..] <==> x in xs && x != xs[0]
      {
        TailRows(xs, key, x);
      }
      assert (set x | x in xs) == (set x | x in xs[1..]) + {xs[0]};
    }
  }
}
