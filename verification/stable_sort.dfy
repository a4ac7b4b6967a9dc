/**
 Python's `sorted(xs, key=..., reverse=...)` on integer keys, and the
 multi-key sort that repeats it once per key, last key first.

 A sort key is a value `k` of some type `K`; `rank(k, x)` is the key of `x`
 under `k` and `desc(k)` says whether `k` sorts descending (`reverse=True`).
 `sorted` is stable in both directions: elements with equal keys keep their
 relative order even when `reverse=True`.
 */
module StableSort {

  /** Under `k`, `a` sorts strictly before `b`. */
  predicate Precedes<T, K>(rank: (K, T) -> int, desc: K -> bool, k: K, a: T, b: T) {
    if desc(k) then rank(k, a) > rank(k, b) else rank(k, a) < rank(k, b)
  }

  /** Inserts `x` in front of the first element it does not sort after. */
  function Insert<T, K>(rank: (K, T) -> int, desc: K -> bool, k: K, x: T, s: seq<T>): (r: seq<T>)
    ensures multiset(r) == multiset(s) + multiset{x}
    ensures |r| == |s| + 1
  {
    if |s| == 0 then [x]
    else if Precedes(rank, desc, k, s[0], x) then
      assert s == [s[0]] + s[1..];
      [s[0]] + Insert(rank, desc, k, x, s[1..])
    else [x] + s
  }

  /** One call of `sorted` with a single key: a stable insertion sort. */
  function Sort<T, K>(rank: (K, T) -> int, desc: K -> bool, k: K, s: seq<T>): (r: seq<T>)
    ensures multiset(r) == multiset(s)
    ensures |r| == |s|
  {
    if |s| == 0 then []
    else
      assert s == [s[0]] + s[1..];
      Insert(rank, desc, k, s[0], Sort(rank, desc, k, s[1..]))
  }

  /** One `sorted` pass per key, the last key first, so that `keys[0]` is
      applied last and is the most significant. */
  function SortAll<T, K>(rank: (K, T) -> int, desc: K -> bool, keys: seq<K>, s: seq<T>): (r: seq<T>)
    ensures multiset(r) == multiset(s)
    ensures |r| == |s|
    decreases |keys|
  {
    if |keys| == 0 then s
    else Sort(rank, desc, keys[0], SortAll(rank, desc, keys[1..], s))
  }

  /** `a` comes before `b` in the lexicographic order of `keys`, `keys[0]`
      most significant, with `tie` deciding between elements equal on every key. */
  ghost predicate LexBefore<T, K>(rank: (K, T) -> int, desc: K -> bool, keys: seq<K>, tie: (T, T) -> bool, a: T, b: T)
    decreases |keys|
  {
    if |keys| == 0 then tie(a, b)
    else
      || Precedes(rank, desc, keys[0], a, b)
      || (rank(keys[0], a) == rank(keys[0], b) && LexBefore(rank, desc, keys[1..], tie, a, b))
  }

  /** Every earlier element of `s` comes before every later one. */
  ghost predicate LexSorted<T, K>(rank: (K, T) -> int, desc: K -> bool, keys: seq<K>, tie: (T, T) -> bool, s: seq<T>) {
    forall i, j :: 0 <= i < j < |s| ==> LexBefore(rank, desc, keys, tie, s[i], s[j])
  }

  /** An element that comes before every member of a sorted sequence can be
      put in front of it. */
  lemma PrependSorted<T, K>(
    rank: (K, T) -> int, desc: K -> bool, keys: seq<K>, tie: (T, T) -> bool, y: T, t: seq<T>)
    requires LexSorted(rank, desc, keys, tie, t)
    requires forall z | z in t :: LexBefore(rank, desc, keys, tie, y, z)
    ensures LexSorted(rank, desc, keys, tie, [y] + t)
  {
    var r := [y] + t;
    forall i, j | 0 <= i < j < |r|
      ensures LexBefore(rank, desc, keys, tie, r[i], r[j])
    {
      assert r[j] == t[j - 1];
      if i > 0 {
        assert r[i] == t[i - 1];
      } else {
        assert r[j] in t;
      }
    }
  }

  /** Inserting into a sequence sorted on `keys` an element that comes before
      every member on the less significant keys keeps it sorted on `keys`. */
  lemma {:induction false} InsertKeepsSorted<T, K>(
    rank: (K, T) -> int, desc: K -> bool, keys: seq<K>, tie: (T, T) -> bool, x: T, s: seq<T>)
    requires |keys| > 0
    requires LexSorted(rank, desc, keys, tie, s)
    requires forall y | y in s :: LexBefore(rank, desc, keys[1..], tie, x, y)
    ensures LexSorted(rank, desc, keys, tie, Insert(rank, desc, keys[0], x, s))
    decreases |s|
  {
    var k := keys[0];
    if |s| == 0 {
    } else if Precedes(rank, desc, k, s[0], x) {
      var rest := Insert(rank, desc, k, x, s[1..]);
      LexSortedTail(rank, desc, keys, tie, s);
      InsertKeepsSorted(rank, desc, keys, tie, x, s[1..]);
      forall z | z in rest
        ensures LexBefore(rank, desc, keys, tie, s[0], z)
      {
        assert z in multiset(rest);
        if z != x {
          var j :| 1 <= j < |s| && s[j] == z;
        }
      }
      PrependSorted(rank, desc, keys, tie, s[0], rest);
    } else {
      forall y | y in s
        ensures LexBefore(rank, desc, keys, tie, x, y)
      {
        var j :| 0 <= j < |s| && s[j] == y;
        if j > 0 {
          assert LexBefore(rank, desc, keys, tie, s[0], y);
        }
      }
      PrependSorted(rank, desc, keys, tie, x, s);
    }
  }

  /** One stable pass on `keys[0]` over a sequence sorted on the remaining keys
      leaves it sorted on all of `keys`: ties on `keys[0]` keep their order. */
  lemma {:induction false} SortPass<T, K>(
    rank: (K, T) -> int, desc: K -> bool, keys: seq<K>, tie: (T, T) -> bool, s: seq<T>)
    requires |keys| > 0
    requires LexSorted(rank, desc, keys[1..], tie, s)
    ensures LexSorted(rank, desc, keys, tie, Sort(rank, desc, keys[0], s))
    decreases |s|
  {
    if |s| > 0 {
      LexSortedTail(rank, desc, keys[1..], tie, s);
      SortPass(rank, desc, keys, tie, s[1..]);
      var sorted := Sort(rank, desc, keys[0], s[1..]);
      forall y | y in sorted
        ensures LexBefore(rank, desc, keys[1..], tie, s[0], y)
      {
        assert y in multiset(sorted);
        var j :| 1 <= j < |s| && s[j] == y;
      }
      InsertKeepsSorted(rank, desc, keys, tie, s[0], sorted);
    }
  }

  /** The passes of `SortAll` produce the lexicographic order on `keys`,
      falling back to the input's own order (`tie`) between full ties. */
  lemma {:induction false} SortAllIsLexSorted<T, K>(
    rank: (K, T) -> int, desc: K -> bool, keys: seq<K>, tie: (T, T) -> bool, s: seq<T>)
    requires LexSorted(rank, desc, [], tie, s)
    ensures LexSorted(rank, desc, keys, tie, SortAll(rank, desc, keys, s))
    decreases |keys|
  {
    if |keys| > 0 {
      SortAllIsLexSorted(rank, desc, keys[1..], tie, s);
      SortPass(rank, desc, keys, tie, SortAll(rank, desc, keys[1..], s));
    }
  }

  /** `LexBefore` is asymmetric whenever the tie-breaker is. */
  lemma {:induction false} LexBeforeAsymmetric<T, K>(
    rank: (K, T) -> int, desc: K -> bool, keys: seq<K>, tie: (T, T) -> bool, a: T, b: T)
    requires !(tie(a, b) && tie(b, a))
    ensures !(LexBefore(rank, desc, keys, tie, a, b) && LexBefore(rank, desc, keys, tie, b, a))
    decreases |keys|
  {
    if |keys| > 0 {
      LexBeforeAsymmetric(rank, desc, keys[1..], tie, a, b);
    }
  }

  /** Dropping the first element keeps a sequence sorted. */
  lemma LexSortedTail<T, K>(rank: (K, T) -> int, desc: K -> bool, keys: seq<K>, tie: (T, T) -> bool, s: seq<T>)
    requires |s| > 0
    requires LexSorted(rank, desc, keys, tie, s)
    ensures LexSorted(rank, desc, keys, tie, s[1..])
  {
    forall i, j | 0 <= i < j < |s[1..]|
      ensures LexBefore(rank, desc, keys, tie, s[1..][i], s[1..][j])
    {
      assert s[1..][i] == s[i + 1] && s[1..][j] == s[j + 1];
    }
  }

  /** Two sorted rearrangements of each other start with the same element. */
  lemma LexSortedHeads<T, K>(
    rank: (K, T) -> int, desc: K -> bool, keys: seq<K>, tie: (T, T) -> bool, s1: seq<T>, s2: seq<T>)
    requires forall a, b :: !(tie(a, b) && tie(b, a))
    requires |s1| > 0 && |s2| > 0
    requires multiset(s1) == multiset(s2)
    requires LexSorted(rank, desc, keys, tie, s1)
    requires LexSorted(rank, desc, keys, tie, s2)
    ensures s1[0] == s2[0]
  {
    if s1[0] != s2[0] {
      assert s2[0] in multiset(s1) && s1[0] in multiset(s2);
      var i :| 0 <= i < |s1| && s1[i] == s2[0];
      var j :| 0 <= j < |s2| && s2[j] == s1[0];
      assert LexBefore(rank, desc, keys, tie, s1[0], s2[0]);
      assert LexBefore(rank, desc, keys, tie, s2[0], s1[0]);
      LexBeforeAsymmetric(rank, desc, keys, tie, s1[0], s2[0]);
      assert false;
    }
  }

  /** Removing the first element from two rearrangements of each other that
      share it leaves rearrangements of each other. */
  lemma MultisetTail<T>(s1: seq<T>, s2: seq<T>)
    requires |s1| > 0 && |s2| > 0 && s1[0] == s2[0]
    requires multiset(s1) == multiset(s2)
    ensures multiset(s1[1..]) == multiset(s2[1..])
  {
    assert s1 == [s1[0]] + s1[1..] && s2 == [s2[0]] + s2[1..];
    assert multiset(s1[1..]) == multiset(s1) - multiset{s1[0]};
    assert multiset(s2[1..]) == multiset(s2) - multiset{s2[0]};
  }

  /** Two sequences holding the same elements and both sorted by an asymmetric
      `LexBefore` are equal: the sorted order is unique. */
  lemma {:induction false} LexSortedUnique<T, K>(
    rank: (K, T) -> int, desc: K -> bool, keys: seq<K>, tie: (T, T) -> bool, s1: seq<T>, s2: seq<T>)
    requires forall a, b :: !(tie(a, b) && tie(b, a))
    requires multiset(s1) == multiset(s2)
    requires LexSorted(rank, desc, keys, tie, s1)
    requires LexSorted(rank, desc, keys, tie, s2)
    ensures s1 == s2
    decreases |s1|
  {
    assert |s1| == |multiset(s1)| == |multiset(s2)| == |s2|;
    if |s1| > 0 {
      LexSortedHeads(rank, desc, keys, tie, s1, s2);
      MultisetTail(s1, s2);
      LexSortedTail(rank, desc, keys, tie, s1);
      LexSortedTail(rank, desc, keys, tie, s2);
      LexSortedUnique(rank, desc, keys, tie, s1[1..], s2[1..]);
      assert s1 == [s1[0]] + s1[1..] && s2 == [s2[0]] + s2[1..];
    }
  }

  // ----- Tagging elements with their input position, to state stability -----

  /** Applies `f` to every element. */
  function MapSeq<U, T>(f: U -> T, s: seq<U>): (r: seq<T>)
    ensures |r| == |s|
    ensures forall i :: 0 <= i < |s| ==> r[i] == f(s[i])
  {
    if |s| == 0 then [] else [f(s[0])] + MapSeq(f, s[1..])
  }

  /** Each element paired with its position in `s`. */
  function Tag<T>(s: seq<T>): (r: seq<(nat, T)>)
    ensures |r| == |s|
    ensures forall i :: 0 <= i < |s| ==> r[i] == (i, s[i])
  {
    seq(|s|, i requires 0 <= i < |s| => (i, s[i]))
  }

  function Untag<T>(t: (nat, T)): T {
    t.1
  }

  /** Input order between tagged elements. */
  predicate ByPosition<T>(a: (nat, T), b: (nat, T)) {
    a.0 < b.0
  }

  /** The rank of a tagged element is the rank of the element. */
  function TagRank<T, K>(rank: (K, T) -> int): (K, (nat, T)) -> int {
    (k: K, t: (nat, T)) => rank(k, t.1)
  }

  /** Inserting does not look at anything but ranks, so it commutes with any
      rank-preserving map. */
  lemma {:induction false} InsertMap<U, T, K>(
    rankU: (K, U) -> int, rank: (K, T) -> int, desc: K -> bool, k: K, f: U -> T, x: U, s: seq<U>)
    requires forall k', u :: rankU(k', u) == rank(k', f(u))
    ensures Insert(rank, desc, k, f(x), MapSeq(f, s)) == MapSeq(f, Insert(rankU, desc, k, x, s))
    decreases |s|
  {
    if |s| > 0 {
      assert MapSeq(f, s)[1..] == MapSeq(f, s[1..]);
      InsertMap(rankU, rank, desc, k, f, x, s[1..]);
      if Precedes(rankU, desc, k, s[0], x) {
        assert MapSeq(f, [s[0]] + Insert(rankU, desc, k, x, s[1..]))
            == [f(s[0])] + MapSeq(f, Insert(rankU, desc, k, x, s[1..]));
      } else {
        assert MapSeq(f, [x] + s) == [f(x)] + MapSeq(f, s);
      }
    }
  }

  lemma {:induction false} SortMap<U, T, K>(
    rankU: (K, U) -> int, rank: (K, T) -> int, desc: K -> bool, k: K, f: U -> T, s: seq<U>)
    requires forall k', u :: rankU(k', u) == rank(k', f(u))
    ensures Sort(rank, desc, k, MapSeq(f, s)) == MapSeq(f, Sort(rankU, desc, k, s))
    decreases |s|
  {
    if |s| > 0 {
      assert MapSeq(f, s)[1..] == MapSeq(f, s[1..]);
      SortMap(rankU, rank, desc, k, f, s[1..]);
      InsertMap(rankU, rank, desc, k, f, s[0], Sort(rankU, desc, k, s[1..]));
    }
  }

  lemma {:induction false} SortAllMap<U, T, K>(
    rankU: (K, U) -> int, rank: (K, T) -> int, desc: K -> bool, keys: seq<K>, f: U -> T, s: seq<U>)
    requires forall k', u :: rankU(k', u) == rank(k', f(u))
    ensures SortAll(rank, desc, keys, MapSeq(f, s)) == MapSeq(f, SortAll(rankU, desc, keys, s))
    decreases |keys|
  {
    if |keys| > 0 {
      SortAllMap(rankU, rank, desc, keys[1..], f, s);
      SortMap(rankU, rank, desc, keys[0], f, SortAll(rankU, desc, keys[1..], s));
    }
  }

  /** The multi-key sort is the stable lexicographic sort: tag every element
      with its input position and sort the tagged sequence the same way; the
      result, untagged, is `SortAll`'s, it is a rearrangement of the tagged
      input, and it is ordered lexicographically on `keys` with the input
      position deciding full ties. It is also the only rearrangement so ordered. */
  lemma StableLexicographic<T, K>(rank: (K, T) -> int, desc: K -> bool, keys: seq<K>, s: seq<T>)
    ensures var tagged := SortAll(TagRank(rank), desc, keys, Tag(s));
            && MapSeq(Untag, tagged) == SortAll(rank, desc, keys, s)
            && multiset(tagged) == multiset(Tag(s))
            && LexSorted(TagRank(rank), desc, keys, ByPosition, tagged)
    ensures forall t: seq<(nat, T)> ::
              multiset(t) == multiset(Tag(s)) && LexSorted(TagRank(rank), desc, keys, ByPosition, t) ==>
              t == SortAll(TagRank(rank), desc, keys, Tag(s))
  {
    var tagged := SortAll(TagRank(rank), desc, keys, Tag(s));
    assert MapSeq(Untag, Tag(s)) == s;
    SortAllMap(TagRank(rank), rank, desc, keys, Untag, Tag(s));
    assert LexSorted(TagRank(rank), desc, [], ByPosition, Tag(s));
    SortAllIsLexSorted(TagRank(rank), desc, keys, ByPosition, Tag(s));
    forall t: seq<(nat, T)> |
      multiset(t) == multiset(Tag(s)) && LexSorted(TagRank(rank), desc, keys, ByPosition, t)
      ensures t == tagged
    {
      LexSortedUnique(TagRank(rank), desc, keys, ByPosition, t, tagged);
    }
  }
}
