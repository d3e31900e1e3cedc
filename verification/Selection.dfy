/** Filling a selection up to a budget: the loop both rank_steps and rerank_steps end with
    (app/retrieval.py). */
module Selection {
  import opened Sorting

  function Max(a: nat, b: nat): nat {
    if a > b then a else b
  }

  function Min(a: nat, b: nat): nat {
    if a < b then a else b
  }

  function Keep<T>(items: seq<T>, ids: set<int>, id: T -> int): seq<T> {
    if items == [] then []
    else
      var last := items[|items| - 1];
      Keep(items[..|items| - 1], ids, id) + if id(last) in ids then [last] else []
  }

  lemma {:induction false} KeepMeans<T>(items: seq<T>, ids: set<int>, id: T -> int)
    requires Distinct(items, id)
    ensures Distinct(Keep(items, ids, id), id)
    ensures forall i :: 0 <= i < |Keep(items, ids, id)| ==> Keep(items, ids, id)[i] in items && id(Keep(items, ids, id)[i]) in ids
    ensures forall x :: x in items && id(x) in ids ==> x in Keep(items, ids, id)
  {
    if items != [] {
      var front, last := items[..|items| - 1], items[|items| - 1];
      KeepMeans(front, ids, id);
      assert items == front + [last];
      var kept := Keep(front, ids, id);
      forall i | 0 <= i < |kept| ensures id(kept[i]) != id(last) {
        var k :| 0 <= k < |front| && front[k] == kept[i];
        assert items[k] == kept[i];
      }
    }
  }

  // The budget is used up: every item that must be there is, nothing else comes in, and what was
  // left out does not go before anything chosen freely.
  ghost predicate IsSelection<T>(items: seq<T>, must: set<int>, id: T -> int, o: Order<T>, limit: nat, chosen: seq<T>) {
    && Distinct(chosen, id)
    && (forall x :: x in chosen ==> x in items)
    && (forall x :: x in items && id(x) in must ==> x in chosen)
    && |chosen| == Min(|items|, Max(limit, |must|))
    && forall i, j :: 0 <= i < |items| && 0 <= j < |items| && items[i] in chosen && id(items[i]) !in must && items[j] !in chosen
         ==> Precedes(o, items, i, j)
  }

  lemma FreelyChosen<T>(items: seq<T>, must: set<int>, id: T -> int, o: Order<T>, limit: nat, chosen: seq<T>, x: T, y: T)
    requires IsSelection(items, must, id, o, limit, chosen) && x in chosen && id(x) !in must && y in items && y !in chosen
    ensures !o.Less(y, x)
  {
    var i :| 0 <= i < |items| && items[i] == x;
    var j :| 0 <= j < |items| && items[j] == y;
    assert Precedes(o, items, i, j);
  }

  // So there is one selection: any other has the same items.
  lemma SelectionIsOne<T>(items: seq<T>, must: set<int>, id: T -> int, o: Order<T>, limit: nat, a: seq<T>, b: seq<T>, x: T)
    requires Distinct(items, id) && x in a
    requires IsSelection(items, must, id, o, limit, a) && IsSelection(items, must, id, o, limit, b)
    ensures x in b
  {
    if x !in b {
      var y := Missing(a, b, id, x, items);
      var i :| 0 <= i < |items| && items[i] == x;
      var j :| 0 <= j < |items| && items[j] == y;
      OneDirection(o, items, i, j);
      assert false;
    }
  }

  lemma OneDirection<T>(o: Order<T>, items: seq<T>, i: nat, j: nat)
    requires i < |items| && j < |items|
    ensures !(Precedes(o, items, i, j) && Precedes(o, items, j, i))
  {
  }

  // Of two equally long lists of items each has one that the other lacks, or neither has.
  lemma Missing<T>(a: seq<T>, b: seq<T>, id: T -> int, x: T, items: seq<T>) returns (y: T)
    requires Distinct(items, id) && Distinct(a, id) && Distinct(b, id) && |a| == |b| && x in a && x !in b
    requires (forall z :: z in a ==> z in items) && forall z :: z in b ==> z in items
    ensures y in b && y !in a
  {
    DistinctCount(a, id);
    DistinctCount(b, id);
    assert id(x) !in Ids(b, id) by {
      if id(x) in Ids(b, id) {
        var k := IdAt(b, id, id(x));
        SameItem(items, id, x, b[k]);
      }
    }
    if Ids(b, id) <= Ids(a, id) {
      var rest := Ids(a, id) - {id(x)};
      assert id(x) in Ids(a, id) && Ids(b, id) <= rest;
      Subset(Ids(b, id), rest);
      assert false;
    }
    var n :| n in Ids(b, id) && n !in Ids(a, id);
    var k := IdAt(b, id, n);
    y := b[k];
    assert y in b;
  }

  lemma SameItem<T>(items: seq<T>, id: T -> int, x: T, y: T)
    requires Distinct(items, id) && x in items && y in items && id(x) == id(y)
    ensures x == y
  {
    var i :| 0 <= i < |items| && items[i] == x;
    var j :| 0 <= j < |items| && items[j] == y;
  }

  // What the loop knows after i items of the order.
  ghost predicate Filling<T>(items: seq<T>, must: set<int>, id: T -> int, order: seq<T>, i: nat, chosen: seq<T>)
    requires i <= |order|
  {
    && Distinct(chosen, id)
    && (forall x :: x in chosen ==> x in items && (id(x) in must || x in order[..i]))
    && (forall x :: x in items && (id(x) in must || x in order[..i]) ==> x in chosen)
  }

  lemma FillOne<T>(items: seq<T>, must: set<int>, id: T -> int, order: seq<T>, i: nat, chosen: seq<T>)
    requires Distinct(items, id) && i < |order| && order[i] in items && Filling(items, must, id, order, i, chosen)
    ensures id(order[i]) in Ids(chosen, id) <==> order[i] in chosen
    ensures Filling(items, must, id, order, i + 1, if order[i] in chosen then chosen else chosen + [order[i]])
  {
    var x := order[i];
    assert order[..i + 1] == order[..i] + [x];
    forall y | y in chosen && id(y) == id(x) ensures y == x {
      SameItem(items, id, x, y);
    }
    if x !in chosen {
      forall k | 0 <= k < |chosen| ensures id(chosen[k]) != id(x) {
        assert chosen[k] in chosen;
      }
    }
  }

  lemma ChosenCount<T>(items: seq<T>, chosen: seq<T>, id: T -> int)
    requires Distinct(items, id) && Distinct(chosen, id) && forall x :: x in chosen ==> x in items
    ensures |chosen| <= |items|
    ensures (forall x :: x in items ==> x in chosen) ==> |chosen| == |items|
  {
    DistinctCount(items, id);
    DistinctCount(chosen, id);
    var a, b := Ids(chosen, id), Ids(items, id);
    assert a <= b;
    Subset(a, b);
    if forall x :: x in items ==> x in chosen {
      assert a == b;
    }
  }

  lemma Subset(a: set<int>, b: set<int>)
    requires a <= b
    ensures |a| <= |b|
  {
    assert b == a + (b - a);
  }

  method FillUp<T(==)>(items: seq<T>, must: set<int>, id: T -> int, o: Order<T>, limit: nat) returns (chosen: seq<T>)
    requires Distinct(items, id) && must <= Ids(items, id)
    ensures IsSelection(items, must, id, o, limit, chosen)
  {
    chosen := [];
    var i := 0;
    while i < |items|
      invariant 0 <= i <= |items|
      invariant chosen == Keep(items[..i], must, id)
    {
      assert items[..i + 1][..i] == items[..i];
      if id(items[i]) in must {
        chosen := chosen + [items[i]];
      }
      i := i + 1;
    }
    assert items[..i] == items;
    KeepMeans(items, must, id);
    MustCount(items, chosen, must, id);
    var order := Sort(o, items);
    i := 0;
    while i < |order| && |chosen| < Max(limit, |must|)
      invariant 0 <= i <= |order|
      invariant |chosen| <= Max(limit, |must|)
      invariant Filling(items, must, id, order, i, chosen)
    {
      SortMember(o, items, order[i]);
      FillOne(items, must, id, order, i, chosen);
      if id(order[i]) !in Ids(chosen, id) {
        chosen := chosen + [order[i]];
      }
      i := i + 1;
    }
    Filled(items, must, id, o, limit, i, chosen);
  }

  lemma MustCount<T>(items: seq<T>, chosen: seq<T>, must: set<int>, id: T -> int)
    requires Distinct(items, id) && must <= Ids(items, id) && Distinct(chosen, id)
    requires forall x :: x in chosen <==> x in items && id(x) in must
    ensures |chosen| == |must|
  {
    DistinctCount(chosen, id);
    forall n ensures n in Ids(chosen, id) <==> n in must {
      if n in must {
        var x :| x in items && id(x) == n;
        assert x in chosen;
      }
    }
    assert Ids(chosen, id) == must;
  }

  lemma Filled<T>(items: seq<T>, must: set<int>, id: T -> int, o: Order<T>, limit: nat, i: nat, chosen: seq<T>)
    requires Distinct(items, id) && i <= |Sort(o, items)| && Filling(items, must, id, Sort(o, items), i, chosen)
    requires |chosen| <= Max(limit, |must|)
    requires i == |Sort(o, items)| || |chosen| == Max(limit, |must|)
    ensures IsSelection(items, must, id, o, limit, chosen)
  {
    var order := Sort(o, items);
    SortSorts(o, items);
    if i == |order| {
      assert order[..i] == order;
      forall x | x in items ensures x in chosen {
        SortMember(o, items, x);
      }
    }
    ChosenCount(items, chosen, id);
    forall p, q | 0 <= p < |items| && 0 <= q < |items| && items[p] in chosen && id(items[p]) !in must && items[q] !in chosen
      ensures Precedes(o, items, p, q)
    {
      var a :| 0 <= a < |order[..i]| && order[..i][a] == items[p];
      SortMember(o, items, items[q]);
      var b :| 0 <= b < |order| && order[b] == items[q];
      assert forall k :: 0 <= k < i ==> order[k] in order[..i];
      assert order[a] == items[p] && order[b] == items[q] && a < i <= b;
      assert forall x, y :: 0 <= x < y < |items| ==> id(items[x]) != id(items[y]);
      SortIsStable(o, items, a, b, p, q);
    }
  }

  lemma SortedSelection<T>(items: seq<T>, must: set<int>, id: T -> int, o: Order<T>, limit: nat, chosen: seq<T>, line: Order<T>)
    requires IsSelection(items, must, id, o, limit, chosen)
    ensures IsSelection(items, must, id, o, limit, Sort(line, chosen)) && IsSorted(line, Sort(line, chosen))
  {
    SortSorts(line, chosen);
    SortKeepsIds(line, chosen, id);
    var sorted := Sort(line, chosen);
    forall x | x in sorted ensures x in items && x in chosen {
      SortMember(line, chosen, x);
    }
    forall x | x in items ensures x in sorted <==> x in chosen {
      SortMember(line, chosen, x);
    }
  }
}
