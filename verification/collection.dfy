/**
 The named page list of `mudi/collection.py` and its multi-key sort.
 */
module Collections {
  import opened Base
  import opened Values
  import opened Pages
  import opened StableSort

  datatype Collection = Collection(name: string, pages: seq<Page>)

  /** `Collection.__init__` (mudi/collection.py:9-11): `pages or []`, so both a
      missing and an empty page list give an empty collection. */
  function NewCollection(name: string, pages: Option<seq<Page>>): (c: Collection)
    ensures c.name == name
    ensures pages.None? ==> c.pages == []
    ensures pages.Some? ==> c.pages == pages.value
  {
    Collection(name, if pages.None? || |pages.value| == 0 then [] else pages.value)
  }

  /** One entry of `sorted_by`'s `keys`: `(key, reverse, default)`. */
  datatype SortKey = SortKey(key: string, reverse: bool, default: Value)

  /** The value `sorted` compares for `p` under `k`: `p.get(k.key, k.default)`,
      read as an integer. */
  function KeyRank(k: SortKey, p: Page): (r: int)
    ensures IntKeyed(p, k) ==> Get(p, k.key, k.default) == Ok(VInt(r))
  {
    match Get(p, k.key, k.default)
    case Ok(VInt(i)) => i
    case _ => 0
  }

  function Reverse(k: SortKey): bool {
    k.reverse
  }

  /** `get` succeeds on `p` under `k` and yields an integer. */
  predicate IntKeyed(p: Page, k: SortKey) {
    var v := Get(p, k.key, k.default);
    v.Ok? && v.value.VInt?
  }

  /** The tie-breaker that accepts any order. */
  predicate AnyOrder(a: Page, b: Page) {
    true
  }

  /** `Collection.sorted_by` (mudi/collection.py:13-23). The result keeps the
      given name unless it is missing or empty, holds the same pages, and is
      ordered lexicographically on `keys` (`keys[0]` most significant, each
      key descending exactly when its `reverse` flag is set). Pages tied on
      every key keep their original relative order: tagging each page with
      its position and sorting the tagged pages the same way orders them by
      keys and then by position. No keys, or no pages, leave the order as it was. */
  method SortedBy(c: Collection, keys: seq<SortKey>, name: Option<string>) returns (r: Collection)
    requires forall p, k | p in c.pages && k in keys :: IntKeyed(p, k)
    ensures name.Some? && name.value != "" ==> r.name == name.value
    ensures name.None? || name.value == "" ==> r.name == c.name
    ensures multiset(r.pages) == multiset(c.pages)
    ensures LexSorted(KeyRank, Reverse, keys, AnyOrder, r.pages)
    ensures var tagged := SortAll(TagRank(KeyRank), Reverse, keys, Tag(c.pages));
            && MapSeq(Untag, tagged) == r.pages
            && multiset(tagged) == multiset(Tag(c.pages))
            && LexSorted(TagRank(KeyRank), Reverse, keys, ByPosition, tagged)
    ensures |keys| == 0 || |c.pages| == 0 ==> r.pages == c.pages
  {
    var chosen := if name.Some? && name.value != "" then name.value else c.name;
    StableLexicographic(KeyRank, Reverse, keys, c.pages);
    if |c.pages| == 0 {
      return Collection(chosen, c.pages);
    }
    var sorted := c.pages;
    var i := |keys|;
    while i > 0
      invariant 0 <= i <= |keys|
      invariant sorted == SortAll(KeyRank, Reverse, keys[i..], c.pages)
    {
      i := i - 1;
      assert keys[i..][1..] == keys[i + 1..];
      sorted := Sort(KeyRank, Reverse, keys[i], sorted);
    }
    assert keys[0..] == keys;
    SortAllIsLexSorted(KeyRank, Reverse, keys, AnyOrder, c.pages);
    r := Collection(chosen, sorted);
  }
}
