/**
 * The order in which the MVVM runner visits a set's action records:
 * `sorted(coordinates, key=lambda x: x['order'])`, ascending by `order` and
 * stable, so records of equal rank keep their slot order.
 */
module PlaybackOrder {

  import opened AutomationModel

  predicate SortedByOrder(cs: seq<Coordinate>) {
    forall i, j :: 0 <= i < j < |cs| ==> cs[i].order <= cs[j].order
  }

  /** The records of rank `v`, in the order they appear. */
  function WithOrder(cs: seq<Coordinate>, v: int): seq<Coordinate> {
    if cs == [] then [] else (if cs[0].order == v then [cs[0]] else []) + WithOrder(cs[1..], v)
  }

  /** Puts `c` in front of the first record whose rank is at least its own. */
  function Insert(c: Coordinate, sorted: seq<Coordinate>): (r: seq<Coordinate>)
    requires SortedByOrder(sorted)
    ensures SortedByOrder(r)
    ensures multiset(r) == multiset(sorted) + multiset{c}
  {
    if sorted == [] || c.order <= sorted[0].order then [c] + sorted
    else
      var rest := Insert(c, sorted[1..]);
      InsertedPastHead(c, sorted, rest);
      [sorted[0]] + rest
  }

  /** Putting the head back in front of the tail with `c` inserted keeps the order and adds exactly `c`. */
  lemma InsertedPastHead(c: Coordinate, sorted: seq<Coordinate>, rest: seq<Coordinate>)
    requires SortedByOrder(sorted) && sorted != [] && sorted[0].order < c.order
    requires SortedByOrder(rest) && multiset(rest) == multiset(sorted[1..]) + multiset{c}
    ensures SortedByOrder([sorted[0]] + rest)
    ensures multiset([sorted[0]] + rest) == multiset(sorted) + multiset{c}
  {
    assert sorted == [sorted[0]] + sorted[1..];
    HeadBelowRest(sorted[0], c, sorted[1..], rest);
  }

  /** The head of a sorted list stays below everything an insertion of a larger record yields. */
  lemma HeadBelowRest(head: Coordinate, c: Coordinate, tail: seq<Coordinate>, rest: seq<Coordinate>)
    requires head.order < c.order
    requires forall i :: 0 <= i < |tail| ==> head.order <= tail[i].order
    requires SortedByOrder(rest)
    requires multiset(rest) == multiset(tail) + multiset{c}
    ensures SortedByOrder([head] + rest)
  {
    forall i | 0 <= i < |rest|
      ensures head.order <= rest[i].order
    {
      assert rest[i] in multiset(rest);
      if rest[i] != c {
        assert rest[i] in multiset(tail);
      }
    }
  }

  /** Python's `sorted` by `order`, as an insertion sort. */
  function SortByOrder(cs: seq<Coordinate>): (r: seq<Coordinate>)
    ensures SortedByOrder(r)
    ensures multiset(r) == multiset(cs)
    ensures |r| == |cs|
  {
    if cs == [] then []
    else
      assert cs == [cs[0]] + cs[1..];
      Insert(cs[0], SortByOrder(cs[1..]))
  }

  lemma {:induction false} InsertWithOrder(c: Coordinate, sorted: seq<Coordinate>, v: int)
    requires SortedByOrder(sorted)
    ensures WithOrder(Insert(c, sorted), v) == (if c.order == v then [c] else []) + WithOrder(sorted, v)
  {
    if sorted == [] || c.order <= sorted[0].order {
      WithOrderCons(c, sorted, v);
    } else {
      InsertWithOrder(c, sorted[1..], v);
      InsertPastHead(c, sorted, v);
    }
  }

  lemma WithOrderCons(x: Coordinate, rest: seq<Coordinate>, v: int)
    ensures WithOrder([x] + rest, v) == (if x.order == v then [x] else []) + WithOrder(rest, v)
  {
    assert ([x] + rest)[1..] == rest;
  }

  /** Inserting past the head keeps the head's place among the records of its rank. */
  lemma InsertPastHead(c: Coordinate, sorted: seq<Coordinate>, v: int)
    requires SortedByOrder(sorted) && sorted != [] && sorted[0].order < c.order
    requires WithOrder(Insert(c, sorted[1..]), v) == (if c.order == v then [c] else []) + WithOrder(sorted[1..], v)
    ensures WithOrder(Insert(c, sorted), v) == (if c.order == v then [c] else []) + WithOrder(sorted, v)
  {
    InsertUnfold(c, sorted);
    WithOrderCons(sorted[0], Insert(c, sorted[1..]), v);
    SwapDisjoint(if sorted[0].order == v then [sorted[0]] else [], if c.order == v then [c] else [], WithOrder(sorted[1..], v));
  }

  lemma InsertUnfold(c: Coordinate, sorted: seq<Coordinate>)
    requires SortedByOrder(sorted) && sorted != [] && sorted[0].order < c.order
    ensures Insert(c, sorted) == [sorted[0]] + Insert(c, sorted[1..])
  {
  }

  /** Two pieces of which one is empty may be swapped. */
  lemma SwapDisjoint<T>(a: seq<T>, b: seq<T>, w: seq<T>)
    requires a == [] || b == []
    ensures a + (b + w) == b + (a + w)
  {
    if a == [] {
      assert a + (b + w) == b + w == b + (a + w);
    } else {
      assert a + (b + w) == a + w == b + (a + w);
    }
  }

  /**
   * Stability: for every rank, the records of that rank come out of the sort
   * in exactly the order they had in the set.
   */
  lemma {:induction false} SortByOrderStable(cs: seq<Coordinate>, v: int)
    ensures WithOrder(SortByOrder(cs), v) == WithOrder(cs, v)
  {
    if cs != [] {
      SortByOrderStable(cs[1..], v);
      InsertWithOrder(cs[0], SortByOrder(cs[1..]), v);
    }
  }

  /**
   * The ranks [2, 0, 1] in slots [0, 1, 2] are played as slot 1, slot 2, then slot 0.
   */
  lemma ExampleOrder(a: Coordinate, b: Coordinate, c: Coordinate)
    requires a.order == 2 && b.order == 0 && c.order == 1
    ensures SortByOrder([a, b, c]) == [b, c, a]
  {
    assert [a, b, c][1..] == [b, c];
    SortPair(b, c);
    InsertAfterPair(a, b, c);
  }

  lemma SortPair(b: Coordinate, c: Coordinate)
    requires b.order <= c.order
    ensures SortByOrder([b, c]) == [b, c]
  {
    assert [b, c][1..] == [c];
    assert [c][1..] == [];
    assert SortByOrder([c]) == [c];
  }

  lemma InsertAfterPair(a: Coordinate, b: Coordinate, c: Coordinate)
    requires b.order <= c.order < a.order
    ensures Insert(a, [b, c]) == [b, c, a]
  {
    assert [b, c][1..] == [c];
    assert [c][1..] == [];
    assert Insert(a, [c]) == [c, a];
  }
}
