/**
 * `GET /api/ranking/get-items?categoryId=...`: the category, its items by
 * votes descending, and those items sorted into the five tiers.
 *
 * The query parameter is `None` when it is missing or empty (the falsy
 * cases of the source's guard).
 */
module RankingRoute {
  import opened Entities
  import opened DataStore
  import opened Tiers

  /** Which of the two store reads fail. */
  datatype RankingFaults = RankingFaults(categoryQuery: bool, itemsQuery: bool)

  /** The JSON body of a 200 response. */
  datatype Ranking = Ranking(category: Category, items: seq<Item>, tieredItems: Buckets)

  /**
   * 400 without a category id, 404 when the `.single()` category read fails
   * or finds no row, 500 when the items read fails, otherwise 200 with the
   * category's items (votes descending) classified once each.
   */
  method GetItems(db: Store, categoryId: Option<int>, faults: RankingFaults) returns (status: int, body: Option<Ranking>)
    requires db.WellFormed()
    ensures status == 400 <==> categoryId.None?
    ensures status == 404 <==>
              categoryId.Some? && (faults.categoryQuery || FindCategory(db.categories, categoryId.value).None?)
    ensures status == 500 <==>
              categoryId.Some? && !faults.categoryQuery && FindCategory(db.categories, categoryId.value).Some?
              && faults.itemsQuery
    ensures status in {200, 400, 404, 500}
    ensures body.Some? <==> status == 200
    ensures status == 200 ==>
              categoryId.Some? && FindCategory(db.categories, categoryId.value).Some?
              && body.value.category == FindCategory(db.categories, categoryId.value).value
              && body.value.items == CategoryItems(db.items, categoryId.value)
              && body.value.tieredItems == Classify(body.value.items)
    ensures status == 200 ==>
              && body.value.category in db.categories && body.value.category.id == categoryId.value
              && (forall x :: x in body.value.items <==> x in db.items && x.categoryId == categoryId.value)
              && SortedDesc(body.value.items, ItemVotes)
              && Contents(body.value.tieredItems) == multiset(body.value.items)
              && (forall t :: SortedDesc(Bucket(body.value.tieredItems, t), ItemVotes))
  {
    if categoryId.None? {
      return 400, None;
    }
    var id := categoryId.value;
    var category := FindCategory(db.categories, id);
    if faults.categoryQuery || category.None? {
      return 404, None;
    }
    if faults.itemsQuery {
      return 500, None;
    }
    var items := CategoryItems(db.items, id);
    var tiered := ClassifyItems(items);
    ClassifyPartitions(items);
    ClassifyKeepsOrder(items);
    return 200, Some(Ranking(category.value, items, tiered));
  }
}
