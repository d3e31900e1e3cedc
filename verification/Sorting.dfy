/** Python's sorted(): a stable sort by a key, here a pair of numbers compared in turn. */
module Sorting {
  datatype Order<!T> = Order(first: T -> real, second: T -> real) {
    predicate Less(a: T, b: T) {
      first(a) < first(b) || (first(a) == first(b) && second(a) < second(b))
    }
  }

  // An item goes before the first one that is not less, so that equal items keep their order.
  function Insert<T>(o: Order<T>, x: T, s: seq<T>): seq<T> {
    if s == [] || !o.Less(s[0], x) then [x] + s else [s[0]] + Insert(o, x, s[1..])
  }

  function Sort<T>(o: Order<T>, s: seq<T>): seq<T> {
    if s == [] then [] else Insert(o, s[0], Sort(o, s[1..]))
  }

  ghost predicate IsSorted<T>(o: Order<T>, s: seq<T>) {
    forall i, j :: 0 <= i < j < |s| ==> !o.Less(s[j], s[i])
  }

  lemma {:induction false} InsertKeeps<T>(o: Order<T>, x: T, s: seq<T>)
    ensures multiset(Insert(o, x, s)) == multiset([x] + s)
  {
    if s != [] && o.Less(s[0], x) {
      InsertKeeps(o, x, s[1..]);
      assert s == [s[0]] + s[1..];
    }
  }

  lemma {:induction false} InsertSorts<T>(o: Order<T>, x: T, s: seq<T>)
    requires IsSorted(o, s)
    ensures IsSorted(o, Insert(o, x, s))
  {
    if s != [] && o.Less(s[0], x) {
      var tail := s[1..];
      InsertSorts(o, x, tail);
      InsertKeeps(o, x, tail);
      NotBelow(o, s[0], [x] + tail, Insert(o, x, tail));
    }
  }

  // No item of a permutation goes before y if none did.
  lemma NotBelow<T>(o: Order<T>, y: T, a: seq<T>, b: seq<T>)
    requires multiset(a) == multiset(b) && forall i :: 0 <= i < |a| ==> !o.Less(a[i], y)
    ensures forall j :: 0 <= j < |b| ==> !o.Less(b[j], y)
  {
    forall j | 0 <= j < |b| ensures !o.Less(b[j], y) {
      assert b[j] in multiset(a);
      var i :| 0 <= i < |a| && a[i] == b[j];
    }
  }

  // The same items, each as often, in ascending order.
  lemma {:induction false} SortSorts<T>(o: Order<T>, s: seq<T>)
    ensures IsSorted(o, Sort(o, s)) && multiset(Sort(o, s)) == multiset(s) && |Sort(o, s)| == |s|
  {
    if s != [] {
      SortSorts(o, s[1..]);
      InsertSorts(o, s[0], Sort(o, s[1..]));
      InsertKeeps(o, s[0], Sort(o, s[1..]));
      assert s == [s[0]] + s[1..];
      assert |multiset(Sort(o, s))| == |multiset(s)|;
    }
  }

  // Of the items at i and j the first goes before the second: it is less, or they are equal and it
  // was given first.
  ghost predicate Precedes<T>(o: Order<T>, items: seq<T>, i: nat, j: nat)
    requires i < |items| && j < |items|
  {
    o.Less(items[i], items[j]) || (!o.Less(items[j], items[i]) && i < j)
  }

  // Equal items keep the order in which they were given.
  lemma {:induction false} SortIsStable<T>(o: Order<T>, items: seq<T>, a: nat, b: nat, i: nat, j: nat)
    requires a < b < |Sort(o, items)| && i < |items| && j < |items|
    requires forall x, y :: 0 <= x < y < |items| ==> items[x] != items[y]
    requires Sort(o, items)[a] == items[i] && Sort(o, items)[b] == items[j]
    ensures Precedes(o, items, i, j)
  {
    var tail := items[1..];
    var sorted := Sort(o, tail);
    var at := Place(o, items[0], sorted);
    PlaceOf(o, items, a, i);
    PlaceOf(o, items, b, j);
    if i != 0 && j != 0 {
      SortIsStable(o, tail, if a < at then a else a - 1, if b < at then b else b - 1, i - 1, j - 1);
      assert tail[i - 1] == items[i] && tail[j - 1] == items[j];
    } else if j != 0 {
      SortSorts(o, tail);
      BehindPlace(o, items[0], sorted, b - 1);
    }
  }

  lemma BehindPlace<T>(o: Order<T>, x: T, s: seq<T>, k: nat)
    requires IsSorted(o, s) && Place(o, x, s) <= k < |s|
    ensures !o.Less(s[k], x)
  {
    var at := Place(o, x, s);
    assert at < k ==> !o.Less(s[k], s[at]);
  }

  lemma Inserted<T>(o: Order<T>, x: T, s: seq<T>, a: nat)
    requires a < |Insert(o, x, s)|
    ensures |Insert(o, x, s)| == |s| + 1
    ensures var at := Place(o, x, s); Insert(o, x, s)[a] == if a < at then s[a] else if a == at then x else s[a - 1]
  {
    InsertOne(o, x, s);
  }

  // Where the items of the tail stand beside the first one.
  lemma PlaceOf<T>(o: Order<T>, items: seq<T>, a: nat, i: nat)
    requires a < |Sort(o, items)| && i < |items| && Sort(o, items)[a] == items[i]
    requires forall x, y :: 0 <= x < y < |items| ==> items[x] != items[y]
    ensures var sorted, at := Sort(o, items[1..]), Place(o, items[0], Sort(o, items[1..]));
      && (i == 0 <==> a == at) && |Sort(o, items)| == |sorted| + 1
      && (a < at ==> sorted[a] == items[i]) && (a > at ==> sorted[a - 1] == items[i])
  {
    var sorted := Sort(o, items[1..]);
    var at := Place(o, items[0], sorted);
    Inserted(o, items[0], sorted, a);
    if a != at {
      NotTheFirst(o, items, sorted[if a < at then a else a - 1]);
    }
  }

  lemma NotTheFirst<T>(o: Order<T>, items: seq<T>, x: T)
    requires items != [] && x in Sort(o, items[1..])
    requires forall x, y :: 0 <= x < y < |items| ==> items[x] != items[y]
    ensures x != items[0]
  {
    var tail := items[1..];
    SortMember(o, tail, x);
    var n :| 0 <= n < |tail| && tail[n] == x;
    assert items[n + 1] == x;
  }

  // How many items from the start are less than x.
  function Place<T>(o: Order<T>, x: T, s: seq<T>): (n: nat)
    ensures n <= |s| && (n < |s| ==> !o.Less(s[n], x)) && forall k :: 0 <= k < n ==> o.Less(s[k], x)
  {
    if s == [] || !o.Less(s[0], x) then 0 else 1 + Place(o, x, s[1..])
  }

  lemma {:induction false} InsertOne<T>(o: Order<T>, x: T, s: seq<T>)
    ensures var n := Place(o, x, s); Insert(o, x, s) == s[..n] + [x] + s[n..]
  {
    if s != [] && o.Less(s[0], x) {
      InsertOne(o, x, s[1..]);
    }
  }

  lemma SortMember<T>(o: Order<T>, s: seq<T>, x: T)
    ensures x in Sort(o, s) <==> x in s
  {
    SortSorts(o, s);
    assert x in multiset(Sort(o, s)) <==> x in multiset(s);
  }

  /* ---- Items with identifiers ---- */

  ghost predicate Distinct<T>(items: seq<T>, id: T -> int) {
    forall i, j :: 0 <= i < j < |items| ==> id(items[i]) != id(items[j])
  }

  function Ids<T(==)>(items: seq<T>, id: T -> int): set<int> {
    set x | x in items :: id(x)
  }

  lemma IdIn<T>(items: seq<T>, id: T -> int, k: nat)
    requires k < |items|
    ensures items[k] in items && id(items[k]) in Ids(items, id)
  {
  }

  lemma IdAt<T>(items: seq<T>, id: T -> int, n: int) returns (k: nat)
    requires n in Ids(items, id)
    ensures k < |items| && id(items[k]) == n
  {
    var x :| x in items && id(x) == n;
    k :| 0 <= k < |items| && items[k] == x;
  }

  lemma {:induction false} DistinctCount<T>(items: seq<T>, id: T -> int)
    requires Distinct(items, id)
    ensures |Ids(items, id)| == |items|
  {
    if items != [] {
      var front, last := items[..|items| - 1], items[|items| - 1];
      DistinctCount(front, id);
      assert items == front + [last];
      assert Ids(items, id) == Ids(front, id) + {id(last)};
      forall x | x in front ensures id(x) != id(last) {
        var i :| 0 <= i < |front| && front[i] == x;
        assert items[i] == x;
      }
    }
  }

  // Identifiers of a permutation are the same, and distinct again.
  lemma SortKeepsIds<T>(o: Order<T>, items: seq<T>, id: T -> int)
    requires Distinct(items, id)
    ensures Ids(Sort(o, items), id) == Ids(items, id) && Distinct(Sort(o, items), id)
  {
    SortSorts(o, items);
    forall n ensures n in Ids(Sort(o, items), id) <==> n in Ids(items, id) {
      if n in Ids(items, id) {
        var x :| x in items && id(x) == n;
        SortMember(o, items, x);
      } else if n in Ids(Sort(o, items), id) {
        var x :| x in Sort(o, items) && id(x) == n;
        SortMember(o, items, x);
      }
    }
    DistinctCount(items, id);
    CountDistinct(Sort(o, items), id);
  }

  lemma {:induction false} CountDistinct<T>(items: seq<T>, id: T -> int)
    ensures |Ids(items, id)| <= |items|
    ensures |Ids(items, id)| == |items| ==> Distinct(items, id)
  {
    if items != [] {
      var front, last := items[..|items| - 1], items[|items| - 1];
      CountDistinct(front, id);
      assert items == front + [last];
      assert Ids(items, id) == Ids(front, id) + {id(last)};
      if |Ids(items, id)| == |items| {
        forall i | 0 <= i < |front| ensures id(items[i]) != id(last) {
          assert front[i] in front;
        }
        forall i, j | 0 <= i < j < |items| ensures id(items[i]) != id(items[j]) {
          if j < |front| {
            assert id(front[i]) != id(front[j]);
          }
        }
      }
    }
  }
}
