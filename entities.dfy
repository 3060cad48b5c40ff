/**
 * Records shared by the routes and pages of Tier Master: the rows of the
 * `items`, `categories`, `votes`, `users` and `item_suggestions` tables, and
 * the optimistic vote-count update that both the store and the vote page use.
 *
 * Conventions: a JSON or session field that is absent (or falsy in
 * JavaScript) is modelled as the falsy value of its type, "" or 0.
 */
module Entities {

  datatype Option<+T> = None | Some(value: T)

  /** A row of `items`; `votes` is the cached number of vote rows. */
  datatype Item = Item(id: int, name: string, categoryId: int, votes: int)

  /** A row of `categories`. */
  datatype Category = Category(id: int, name: string, groupId: int)

  /** A row of `votes` (its own id and created_at are not modelled). */
  datatype Vote = Vote(userId: int, itemId: int, categoryId: int)

  /** A row of `users`, keyed by e-mail in the store. */
  datatype User = User(id: int, name: string, profileImage: string, providerId: string, providerType: string)

  /** The three-valued `status` column of `item_suggestions`. */
  datatype Status = Pending | Approved | Rejected

  /** A row of `item_suggestions`; timestamps are plain integers. */
  datatype Suggestion = Suggestion(
    id: int,
    name: string,
    categoryId: int,
    description: Option<string>,
    userEmail: string,
    userName: string,
    status: Status,
    createdAt: int,
    processedAt: Option<int>,
    processedBy: Option<string>,
    rejectionReason: Option<string>,
    itemId: Option<int>)

  /** The signed-in user as the session reports it ("" when a field is missing). */
  datatype Session = Session(email: string, name: string)

  /** The sort key "votes". */
  function ItemVotes(it: Item): int { it.votes }

  /**
   * `items.map(i => i.id === id ? { ...i, votes: i.votes + delta } : i)`:
   * the item whose id matches gets `delta` more votes, every other item and
   * the order are untouched.
   */
  function AdjustVotes(items: seq<Item>, id: int, delta: int): (r: seq<Item>)
    ensures |r| == |items|
    ensures forall k :: 0 <= k < |r| ==>
              r[k].id == items[k].id && r[k].name == items[k].name && r[k].categoryId == items[k].categoryId
    ensures forall k :: 0 <= k < |r| ==>
              r[k].votes == if items[k].id == id then items[k].votes + delta else items[k].votes
  {
    seq(|items|, k requires 0 <= k < |items| =>
      if items[k].id == id then items[k].(votes := items[k].votes + delta) else items[k])
  }

  /** Raising a count and lowering it again restores the list. */
  lemma AdjustVotesInverse(items: seq<Item>, id: int, delta: int)
    ensures AdjustVotes(AdjustVotes(items, id, delta), id, -delta) == items
  {
    var r := AdjustVotes(AdjustVotes(items, id, delta), id, -delta);
    assert |r| == |items|;
    forall k | 0 <= k < |items| ensures r[k] == items[k] {
    }
  }
}
