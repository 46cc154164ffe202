/** The store queries the routes use, over a collection held as a sequence of documents
    in natural (insertion) order: `findOne`, `find` with a filter, `sort` on a key in
    descending order, and `countDocuments`. */
module Query {
  import opened Common

  /** `findOne(filter)`: the position of the first document the filter selects. */
  function FindFirst<T>(docs: seq<T>, p: T -> bool): (r: Option<nat>)
    ensures r.Some? ==> r.value < |docs| && p(docs[r.value])
    ensures r.Some? ==> forall j :: 0 <= j < r.value ==> !p(docs[j])
    ensures r.None? <==> forall j :: 0 <= j < |docs| ==> !p(docs[j])
  {
    if docs == [] then None
    else if p(docs[0]) then Some(0)
    else
      match FindFirst(docs[1..], p)
      case None => None
      case Some(i) => Some(i + 1)
  }

  /** `find(filter)` in natural order: every document it returns matches, and each
      matching document comes back as often as it is stored. */
  function Filter<T>(docs: seq<T>, p: T -> bool): (r: seq<T>)
    ensures forall i :: 0 <= i < |r| ==> p(r[i])
    ensures multiset(r) <= multiset(docs)
    ensures forall j :: 0 <= j < |docs| && p(docs[j]) ==> multiset(r)[docs[j]] == multiset(docs)[docs[j]]
  {
    if docs == [] then []
    else
      var x, tail := docs[0], docs[1..];
      var rest := Filter(tail, p);
      assert docs == [x] + tail;
      assert forall j :: 1 <= j < |docs| ==> docs[j] == tail[j - 1];
      assert multiset(docs) == multiset{x} + multiset(tail);
      if p(x) then
        assert multiset(rest)[x] == multiset(tail)[x] by {
          if x in tail {
            var k :| 0 <= k < |tail| && tail[k] == x;
          } else {
            assert x !in multiset(rest);
          }
        }
        assert multiset([x] + rest) == multiset{x} + multiset(rest);
        [x] + rest
      else rest
  }

  /** `countDocuments(filter)`. */
  function Count<T>(docs: seq<T>, p: T -> bool): (n: nat)
    ensures n <= |docs|
    ensures n == 0 <==> forall j :: 0 <= j < |docs| ==> !p(docs[j])
    ensures n == |docs| <==> forall j :: 0 <= j < |docs| ==> p(docs[j])
  {
    if docs == [] then 0
    else
      var rest := Count(docs[1..], p);
      assert forall j :: 1 <= j < |docs| ==> docs[j] == docs[1..][j - 1];
      (if p(docs[0]) then 1 else 0) + rest
  }

  predicate SortedDesc<T>(s: seq<T>, key: T -> int) {
    forall i, j :: 0 <= i < j < |s| ==> key(s[i]) >= key(s[j])
  }

  function InsertDesc<T>(x: T, s: seq<T>, key: T -> int): (r: seq<T>)
    requires SortedDesc(s, key)
    ensures SortedDesc(r, key)
    ensures multiset(r) == multiset(s) + multiset{x}
  {
    if s == [] || key(x) >= key(s[0]) then
      SortedCons(x, s, key);
      [x] + s
    else
      var tail := s[1..];
      assert SortedDesc(tail, key);
      var rest := InsertDesc(x, tail, key);
      assert s == [s[0]] + tail;
      BoundedByMultiset(tail, x, rest, key, key(s[0]));
      SortedCons(s[0], rest, key);
      [s[0]] + rest
  }

  /** A head no smaller than every key of a sorted tail keeps the sequence sorted. */
  lemma SortedCons<T>(h: T, s: seq<T>, key: T -> int)
    requires SortedDesc(s, key) && forall i :: 0 <= i < |s| ==> key(s[i]) <= key(h)
    ensures SortedDesc([h] + s, key)
  {
    var r := [h] + s;
    forall i, j | 0 <= i < j < |r| ensures key(r[i]) >= key(r[j]) {
      assert r[j] == s[j - 1];
      if i > 0 { assert r[i] == s[i - 1]; }
    }
  }

  /** A bound on the keys of `s` and of `x` bounds every key of a sequence holding
      exactly their elements. */
  lemma BoundedByMultiset<T>(s: seq<T>, x: T, r: seq<T>, key: T -> int, b: int)
    requires forall i :: 0 <= i < |s| ==> key(s[i]) <= b
    requires key(x) <= b && multiset(r) == multiset(s) + multiset{x}
    ensures forall i :: 0 <= i < |r| ==> key(r[i]) <= b
  {
    forall i | 0 <= i < |r| ensures key(r[i]) <= b {
      assert r[i] in multiset(r);
      if r[i] != x {
        assert r[i] in multiset(s);
        var k :| 0 <= k < |s| && s[k] == r[i];
      }
    }
  }

  /** `sort({key: -1})`: the same documents, largest key first. */
  function SortDesc<T>(s: seq<T>, key: T -> int): (r: seq<T>)
    ensures SortedDesc(r, key)
    ensures multiset(r) == multiset(s)
  {
    if s == [] then []
    else
      assert s == [s[0]] + s[1..];
      InsertDesc(s[0], SortDesc(s[1..], key), key)
  }
}
