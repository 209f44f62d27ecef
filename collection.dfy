/** Generic queries over a collection of the document store. A collection is a
    sequence of records in insertion order and a query document is a predicate
    on records: `find_one` returns the first match, `find` every match in
    order, and `sort(field, -1)` orders the matches by a key, largest first. */
module Collection {
  import opened Wrappers

  /** Python truthiness of an optional query parameter: `None` and the empty
      string both mean "no filter". */
  predicate Truthy(param: Option<string>) {
    param.Some? && param.value != ""
  }

  predicate Distinct<T(==)>(s: seq<T>) {
    forall i, j :: 0 <= i < j < |s| ==> s[i] != s[j]
  }

  /** The value of one field across a collection, in collection order. */
  function Keys<T>(s: seq<T>, key: T -> string): (ks: seq<string>)
    ensures |ks| == |s|
    ensures forall i :: 0 <= i < |s| ==> ks[i] == key(s[i])
  {
    seq(|s|, i requires 0 <= i < |s| => key(s[i]))
  }

  /** Position of the record `find_one` returns for the query `p`. */
  function FindFirst<T>(s: seq<T>, p: T -> bool): (r: Option<nat>)
    ensures r.Some? ==> r.value < |s| && p(s[r.value])
    ensures r.Some? ==> forall j :: 0 <= j < r.value ==> !p(s[j])
    ensures r.None? ==> forall j :: 0 <= j < |s| ==> !p(s[j])
  {
    if s == [] then None
    else if p(s[0]) then Some(0)
    else match FindFirst(s[1..], p)
      case None => None
      case Some(k) => Some(k + 1)
  }

  /** Position of the record `find_one({field: k})` returns: present exactly
      when some record carries `k` in that field. */
  function IndexOfKey<T>(s: seq<T>, key: T -> string, k: string): (r: Option<nat>)
    ensures r.Some? <==> k in Keys(s, key)
    ensures r.Some? ==> r.value < |s| && key(s[r.value]) == k
  {
    FindFirst(s, (x: T) => key(x) == k)
  }

  /** When a field is unique, `find_one` on a record's value of that field
      finds that record. */
  lemma IndexOfKeyUnique<T>(s: seq<T>, key: T -> string, i: nat)
    requires Distinct(Keys(s, key)) && i < |s|
    ensures IndexOfKey(s, key, key(s[i])) == Some(i)
  {
    var j := IndexOfKey(s, key, key(s[i])).value;
    assert Keys(s, key)[j] == Keys(s, key)[i];
  }

  /** The records `find` returns for the query `p`, in collection order. */
  function Filter<T(!new)>(s: seq<T>, p: T -> bool): (r: seq<T>)
    ensures |r| <= |s|
    ensures forall x :: x in r <==> x in s && p(x)
  {
    if s == [] then [] else (if p(s[0]) then [s[0]] else []) + Filter(s[1..], p)
  }

  /** Filtering keeps collection order: it distributes over concatenation. */
  lemma {:induction false} FilterConcat<T(!new)>(a: seq<T>, b: seq<T>, p: T -> bool)
    ensures Filter(a + b, p) == Filter(a, p) + Filter(b, p)
  {
    if a == [] {
      assert a + b == b;
    } else {
      assert (a + b)[1..] == a[1..] + b;
      FilterConcat(a[1..], b, p);
    }
  }

  /** A query and its negation split a collection between them. */
  lemma {:induction false} FilterPartition<T(!new)>(s: seq<T>, p: T -> bool, q: T -> bool)
    requires forall x :: q(x) == !p(x)
    ensures |Filter(s, p)| + |Filter(s, q)| == |s|
  {
    if s != [] {
      FilterPartition(s[1..], p, q);
    }
  }

  predicate SortedDesc<T>(s: seq<T>, key: T -> int) {
    forall i, j :: 0 <= i < j < |s| ==> key(s[i]) >= key(s[j])
  }

  /** Places `x` in front of the first record whose key is not larger. */
  function Insert<T>(x: T, s: seq<T>, key: T -> int): (r: seq<T>)
    ensures multiset(r) == multiset(s) + multiset{x}
  {
    if s == [] || key(x) >= key(s[0]) then
      [x] + s
    else
      assert s == [s[0]] + s[1..];
      [s[0]] + Insert(x, s[1..], key)
  }

  /** Inserting a record no larger than a bound keeps every key under it. */
  lemma {:induction false} InsertBounded<T>(x: T, s: seq<T>, key: T -> int, bound: int)
    requires key(x) <= bound
    requires forall i :: 0 <= i < |s| ==> key(s[i]) <= bound
    ensures forall i :: 0 <= i < |Insert(x, s, key)| ==> key(Insert(x, s, key)[i]) <= bound
  {
    if s != [] && key(x) < key(s[0]) {
      var rest := Insert(x, s[1..], key);
      InsertBounded(x, s[1..], key, bound);
      var r := Insert(x, s, key);
      assert r == [s[0]] + rest;
      forall i | 0 <= i < |r|
        ensures key(r[i]) <= bound
      {
        if i > 0 {
          assert r[i] == rest[i - 1];
        }
      }
    }
  }

  /** Inserting into a list sorted largest first keeps it sorted. */
  lemma {:induction false} InsertSorted<T>(x: T, s: seq<T>, key: T -> int)
    requires SortedDesc(s, key)
    ensures SortedDesc(Insert(x, s, key), key)
  {
    if s != [] && key(x) < key(s[0]) {
      var rest := Insert(x, s[1..], key);
      assert SortedDesc(s[1..], key);
      InsertSorted(x, s[1..], key);
      InsertBounded(x, s[1..], key, key(s[0]));
      var r := Insert(x, s, key);
      assert r == [s[0]] + rest;
      forall i, j | 0 <= i < j < |r|
        ensures key(r[i]) >= key(r[j])
      {
        assert r[j] == rest[j - 1];
        if i == 0 {
          assert r[i] == s[0];
        } else {
          assert r[i] == rest[i - 1];
        }
      }
    }
  }

  /** The records ordered by `key`, largest first: what `sort(field, -1)`
      returns. Ties are left in an order the store does not promise. */
  function SortDesc<T>(s: seq<T>, key: T -> int): (r: seq<T>)
    ensures SortedDesc(r, key)
    ensures multiset(r) == multiset(s)
  {
    if s == [] then []
    else
      assert s == [s[0]] + s[1..];
      var rest := SortDesc(s[1..], key);
      InsertSorted(s[0], rest, key);
      Insert(s[0], rest, key)
  }
}
