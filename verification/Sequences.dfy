/** Facts about sequences that several modules use. */
module Sequences {

  function KeyAt<T, K>(items: seq<T>, key: T -> K, i: nat): K
    requires i < |items|
  {
    key(items[i])
  }

  /** No two items have the same key. */
  ghost predicate DistinctBy<T, K>(items: seq<T>, key: T -> K) {
    forall i: nat, j: nat :: i < j < |items| ==> KeyAt(items, key, i) != KeyAt(items, key, j)
  }

  lemma DifferentKeys<T, K>(items: seq<T>, key: T -> K, i: nat, j: nat)
    requires DistinctBy(items, key) && i < |items| && j < |items| && i != j
    ensures key(items[i]) != key(items[j])
  {
    assert KeyAt(items, key, if i < j then i else j) != KeyAt(items, key, if i < j then j else i);
  }

  lemma DistinctFront<T, K>(items: seq<T>, key: T -> K, n: nat)
    requires DistinctBy(items, key) && n <= |items|
    ensures DistinctBy(items[..n], key)
  {
    forall i: nat, j: nat | i < j < n
      ensures KeyAt(items[..n], key, i) != KeyAt(items[..n], key, j)
    {
      assert KeyAt(items, key, i) != KeyAt(items, key, j);
    }
  }

  ghost predicate Distinct<T>(items: seq<T>) {
    forall i, j :: 0 <= i < j < |items| ==> items[i] != items[j]
  }

  lemma Regroup<T>(a: seq<T>, b: seq<T>, c: seq<T>)
    ensures a + (b + c) == a + b + c
  {
  }

  lemma TailFrom<T>(items: seq<T>, i: nat)
    requires i < |items|
    ensures items[i..][0] == items[i] && items[i..][1..] == items[i + 1..]
  {
  }

  /*************************************** Sorting ***************************************/

  ghost predicate Ascending<T>(items: seq<T>, key: T -> nat) {
    forall i, j :: 0 <= i < j < |items| ==> key(items[i]) < key(items[j])
  }

  ghost predicate SortedBy<T>(items: seq<T>, key: T -> nat) {
    forall i, j :: 0 <= i < j < |items| ==> key(items[i]) <= key(items[j])
  }

  function InsertBy<T>(x: T, items: seq<T>, key: T -> nat): seq<T> {
    if items == [] || key(x) <= key(items[0]) then [x] + items else [items[0]] + InsertBy(x, items[1..], key)
  }

  /** `sorted(items, key=key)` */
  function SortBy<T>(items: seq<T>, key: T -> nat): seq<T> {
    if items == [] then [] else InsertBy(items[0], SortBy(items[1..], key), key)
  }

  lemma SortedCons<T>(x: T, rest: seq<T>, key: T -> nat)
    requires SortedBy(rest, key) && forall y :: y in rest ==> key(x) <= key(y)
    ensures SortedBy([x] + rest, key)
  {
  }

  lemma SortedHead<T>(items: seq<T>, key: T -> nat)
    requires items != [] && SortedBy(items, key)
    ensures SortedBy(items[1..], key) && forall y :: y in items ==> key(items[0]) <= key(y)
  {
  }

  lemma {:induction false} InsertByMembers<T>(x: T, items: seq<T>, key: T -> nat)
    ensures multiset(InsertBy(x, items, key)) == multiset([x] + items)
  {
    if items != [] && key(x) > key(items[0]) {
      InsertByMembers(x, items[1..], key);
      assert items == [items[0]] + items[1..];
    }
  }

  lemma {:induction false} InsertByMember<T>(x: T, items: seq<T>, key: T -> nat, y: T)
    requires y in InsertBy(x, items, key)
    ensures y == x || y in items
  {
    if items != [] && key(x) > key(items[0]) && y != items[0] {
      InsertByMember(x, items[1..], key, y);
    }
  }

  lemma {:induction false} InsertBySorts<T>(x: T, items: seq<T>, key: T -> nat)
    requires SortedBy(items, key)
    ensures SortedBy(InsertBy(x, items, key), key)
  {
    if items != [] {
      SortedHead(items, key);
      if key(x) <= key(items[0]) {
        SortedCons(x, items, key);
      } else {
        InsertBySorts(x, items[1..], key);
        forall y | y in InsertBy(x, items[1..], key)
          ensures key(items[0]) <= key(y)
        {
          InsertByMember(x, items[1..], key, y);
        }
        SortedCons(items[0], InsertBy(x, items[1..], key), key);
      }
    }
  }

  lemma {:induction false} SortBySorts<T>(items: seq<T>, key: T -> nat)
    ensures SortedBy(SortBy(items, key), key) && multiset(SortBy(items, key)) == multiset(items)
  {
    if items != [] {
      SortBySorts(items[1..], key);
      InsertBySorts(items[0], SortBy(items[1..], key), key);
      InsertByMembers(items[0], SortBy(items[1..], key), key);
      assert items == [items[0]] + items[1..];
    }
  }

  /** Sorting what is in ascending order changes nothing. */
  lemma {:induction false} SortAscending<T>(items: seq<T>, key: T -> nat)
    requires Ascending(items, key)
    ensures SortBy(items, key) == items
  {
    if items != [] {
      SortAscending(items[1..], key);
      assert items == [items[0]] + items[1..];
    }
  }

  lemma AscendingSnoc<T>(items: seq<T>, x: T, key: T -> nat)
    requires Ascending(items, key) && forall y :: y in items ==> key(y) < key(x)
    ensures Ascending(items + [x], key)
  {
  }
}
