/**
 * `GET /api/home/get-popular-tiers`: the first three categories by id, each
 * with its five most-voted items and those five sorted into tiers relative
 * to one another.
 */
module PopularTiersRoute {
  import opened Entities
  import opened DataStore
  import opened Tiers

  /** Whether the categories read fails, and the categories whose items read fails. */
  datatype PopularFaults = PopularFaults(categoriesQuery: bool, failedItemQueries: set<int>)

  /** One entry of `popularTiers`; `tieredItems` is absent on a failed items read. */
  datatype PopularTier = PopularTier(category: Category, items: seq<Item>, tieredItems: Option<Buckets>)

  const CategoryLimit := 3
  const ItemLimit := 5

  /** The entry built for category `c`. */
  function Entry(items: seq<Item>, c: Category, failed: bool): (e: PopularTier)
    ensures e.category == c
    ensures failed ==> e.items == [] && e.tieredItems.None?
    ensures !failed ==> e.items == TopItems(items, c.id, ItemLimit) && e.tieredItems == Some(Classify(e.items))
  {
    if failed then PopularTier(c, [], None)
    else
      var top := TopItems(items, c.id, ItemLimit);
      PopularTier(c, top, Some(Classify(top)))
  }

  /**
   * What every entry satisfies: few items, votes descending, each classified
   * once; and an entry that was read holds its category's five most-voted
   * items (all of them when there are fewer).
   */
  ghost predicate GoodEntry(items: seq<Item>, e: PopularTier) {
    && |e.items| <= ItemLimit
    && SortedDesc(e.items, ItemVotes)
    && (forall x :: x in e.items ==> x in items && x.categoryId == e.category.id)
    && (e.tieredItems.Some? ==>
          && Contents(e.tieredItems.value) == multiset(e.items) && Size(e.tieredItems.value) == |e.items|
          && multiset(e.items) <= multiset(ItemsInCategory(items, e.category.id))
          && |e.items| == (if |ItemsInCategory(items, e.category.id)| <= ItemLimit
                           then |ItemsInCategory(items, e.category.id)| else ItemLimit)
          && (forall x, y :: x in ItemsInCategory(items, e.category.id) && x !in e.items && y in e.items ==>
                               x.votes <= y.votes))
  }

  /** Some entry of `tiers` is for category `c`. */
  ghost predicate Lists(tiers: seq<PopularTier>, c: Category) {
    exists m :: 0 <= m < |tiers| && tiers[m].category == c
  }

  lemma EntryIsGood(items: seq<Item>, c: Category, failed: bool)
    ensures GoodEntry(items, Entry(items, c, failed))
  {
    if !failed {
      ClassifyPartitions(TopItems(items, c.id, ItemLimit));
    }
  }

  /** Entries built in order from ascending categories keep that order and each is good. */
  lemma EntriesFacts(items: seq<Item>, categories: seq<Category>, cats: seq<Category>, failed: set<int>,
                     tiers: seq<PopularTier>)
    requires forall c :: c in cats ==> c in categories
    requires forall i, j :: 0 <= i < j < |cats| ==> cats[i].id <= cats[j].id
    requires |tiers| == |cats|
    requires forall k :: 0 <= k < |cats| ==> tiers[k] == Entry(items, cats[k], cats[k].id in failed)
    requires forall c, d :: c in categories && c !in cats && d in cats ==> d.id <= c.id
    ensures forall i, j :: 0 <= i < j < |tiers| ==> tiers[i].category.id <= tiers[j].category.id
    ensures forall k :: 0 <= k < |tiers| ==> tiers[k].category in categories && GoodEntry(items, tiers[k])
    ensures forall c, k :: c in categories && !Lists(tiers, c) && 0 <= k < |tiers| ==>
              tiers[k].category.id <= c.id
  {
    forall c, k | c in categories && !Lists(tiers, c) && 0 <= k < |tiers|
      ensures tiers[k].category.id <= c.id
    {
      assert forall m :: 0 <= m < |cats| ==> tiers[m].category == cats[m];
      assert tiers[k].category in cats;
    }
    forall k | 0 <= k < |tiers| ensures tiers[k].category in categories && GoodEntry(items, tiers[k]) {
      EntryIsGood(items, cats[k], cats[k].id in failed);
    }
  }

  /**
   * The body of the route's per-category callback: on a failed items read
   * the entry without tiers, otherwise the top items and the classification
   * loop run over them.
   */
  method BuildEntry(items: seq<Item>, c: Category, failed: bool) returns (e: PopularTier)
    ensures e == Entry(items, c, failed)
  {
    if failed {
      e := PopularTier(c, [], None);
    } else {
      var top := TopItems(items, c.id, ItemLimit);
      var tiered := ClassifyItems(top);
      e := PopularTier(c, top, Some(tiered));
    }
  }

  /** `s.map(f)`, built from the end as the loop below builds it. */
  function MapAll<A, B>(s: seq<A>, f: A -> B): seq<B> {
    if |s| == 0 then [] else MapAll(s[..|s| - 1], f) + [f(s[|s| - 1])]
  }

  lemma {:induction false} MapAllIndex<A, B>(s: seq<A>, f: A -> B)
    ensures |MapAll(s, f)| == |s|
    ensures forall k :: 0 <= k < |s| ==> MapAll(s, f)[k] == f(s[k])
  {
    if |s| > 0 {
      var init := s[..|s| - 1];
      MapAllIndex(init, f);
      assert forall k :: 0 <= k < |init| ==> init[k] == s[k];
    }
  }

  /** `categories.map(...)`: one entry per category, in order. */
  method BuildEntries(items: seq<Item>, cats: seq<Category>, failed: set<int>) returns (tiers: seq<PopularTier>)
    ensures |tiers| == |cats|
    ensures forall k :: 0 <= k < |cats| ==> tiers[k] == Entry(items, cats[k], cats[k].id in failed)
  {
    var f := (c: Category) => Entry(items, c, c.id in failed);
    tiers := [];
    var k := 0;
    while k < |cats|
      invariant 0 <= k <= |cats|
      invariant tiers == MapAll(cats[..k], f)
    {
      var entry := BuildEntry(items, cats[k], cats[k].id in failed);
      assert cats[..k + 1][..k] == cats[..k];
      assert entry == f(cats[k]);
      tiers := tiers + [entry];
      k := k + 1;
    }
    assert cats[..k] == cats;
    MapAllIndex(cats, f);
  }

  /**
   * 500 when the categories read fails; otherwise 200 and one entry per
   * selected category, in ascending id order, at most three of them.
   */
  method GetPopularTiers(db: Store, faults: PopularFaults) returns (status: int, popularTiers: seq<PopularTier>)
    ensures status == 500 <==> faults.categoriesQuery
    ensures status == 500 || status == 200
    ensures status == 500 ==> popularTiers == []
    ensures status == 200 ==>
              var cats := FirstCategories(db.categories, CategoryLimit);
              && |popularTiers| == |cats|
              && forall k :: 0 <= k < |cats| ==>
                   popularTiers[k] == Entry(db.items, cats[k], cats[k].id in faults.failedItemQueries)
    ensures status == 200 ==>
              |popularTiers| == if |db.categories| <= CategoryLimit then |db.categories| else CategoryLimit
    ensures status == 200 ==>
              forall c, k :: c in db.categories && !Lists(popularTiers, c) && 0 <= k < |popularTiers| ==>
                popularTiers[k].category.id <= c.id
    ensures |popularTiers| <= CategoryLimit
    ensures forall i, j :: 0 <= i < j < |popularTiers| ==> popularTiers[i].category.id <= popularTiers[j].category.id
    ensures forall k :: 0 <= k < |popularTiers| ==>
              popularTiers[k].category in db.categories && GoodEntry(db.items, popularTiers[k])
  {
    if faults.categoriesQuery {
      return 500, [];
    }
    var cats := FirstCategories(db.categories, CategoryLimit);
    popularTiers := BuildEntries(db.items, cats, faults.failedItemQueries);
    EntriesFacts(db.items, db.categories, cats, faults.failedItemQueries, popularTiers);
    status := 200;
  }
}
