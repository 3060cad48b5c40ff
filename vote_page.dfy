/**
 * The client half of the one-vote-per-category rule: the vote page's state
 * (all items with their counts, the ids the user has voted for, the
 * `isVoting` debounce flag and the item being processed) and `handleVote`,
 * which toggles a vote off, or retracts the other vote in the same category
 * and then casts, updating the local counts optimistically.
 *
 * The answers of the vote route are inputs: `deleteOk` and `postOk` say
 * whether the DELETE and the POST come back ok. A request that throws
 * leaves the state as a non-ok answer does.
 */
module VotePage {
  import opened Entities
  import opened Ledger
  import opened DataStore

  /** A request to the vote route. */
  datatype Request = Retract(itemId: int) | Cast(itemId: int)

  /** `ids.filter(id => id !== x)`. */
  function RemoveId(ids: seq<int>, x: int): (r: seq<int>)
    ensures forall y :: y in r <==> y in ids && y != x
    ensures |r| <= |ids|
    ensures NoDuplicates(ids) ==> NoDuplicates(r)
  {
    if |ids| == 0 then []
    else
      var rest := RemoveId(ids[1..], x);
      assert forall k :: 1 <= k < |ids| ==> ids[k] == ids[1..][k - 1];
      if ids[0] == x then rest
      else
        assert NoDuplicates(ids) ==> ids[0] !in ids[1..];
        assert forall k :: 1 <= k < |rest| + 1 ==> ([ids[0]] + rest)[k] == rest[k - 1];
        [ids[0]] + rest
  }

  /** No id occurs twice. */
  ghost predicate NoDuplicates(ids: seq<int>) {
    forall i, j :: 0 <= i < j < |ids| ==> ids[i] != ids[j]
  }

  /**
   * `items.find(i => i.category_id === item.category_id && votedItemIds.includes(i.id) && i.id !== item.id)`.
   */
  function FindOtherVoted(items: seq<Item>, voted: seq<int>, item: Item): (r: Option<Item>)
    ensures r.Some? ==> r.value in items && r.value.categoryId == item.categoryId
                        && r.value.id in voted && r.value.id != item.id
    ensures r.None? ==> forall x :: x in items && x.categoryId == item.categoryId && x.id in voted ==> x.id == item.id
  {
    if |items| == 0 then None
    else if items[0].categoryId == item.categoryId && items[0].id in voted && items[0].id != item.id then Some(items[0])
    else
      assert forall x :: x in items[1..] <==> x in items && (x == items[0] ==> x in items[1..]);
      FindOtherVoted(items[1..], voted, item)
  }

  /**
   * What the page relies on: item ids are distinct, voted ids are distinct,
   * and no two voted items share a category.
   */
  ghost predicate ClientValid(items: seq<Item>, voted: seq<int>) {
    && DistinctIds(items)
    && NoDuplicates(voted)
    && forall p, q ::
         0 <= p < |items| && 0 <= q < |items| && p != q && items[p].id in voted && items[q].id in voted ==>
           items[p].categoryId != items[q].categoryId
  }

  /** A count update leaves ids and categories, hence the client invariant, alone. */
  lemma AdjustKeepsClientValid(items: seq<Item>, voted: seq<int>, id: int, delta: int)
    requires ClientValid(items, voted)
    ensures ClientValid(AdjustVotes(items, id, delta), voted)
  {
  }

  /** Dropping a voted id keeps the client invariant. */
  lemma RemoveKeepsClientValid(items: seq<Item>, voted: seq<int>, id: int)
    requires ClientValid(items, voted)
    ensures ClientValid(items, RemoveId(voted, id))
  {
  }

  /**
   * Appending the clicked item's id keeps the client invariant when it was
   * not voted and no other voted item is in its category.
   */
  lemma {:induction false} AppendKeepsClientValid(items: seq<Item>, voted: seq<int>, item: Item)
    requires ClientValid(items, voted)
    requires item in items && item.id !in voted
    requires OnlyVoteInCategory(items, voted, item)
    ensures ClientValid(items, voted + [item.id])
  {
    var voted' := voted + [item.id];
    forall i, j | 0 <= i < j < |voted'| ensures voted'[i] != voted'[j] {
      if j == |voted| {
        assert voted'[i] == voted[i];
      } else {
        assert voted'[i] == voted[i] && voted'[j] == voted[j];
      }
    }
    forall p, q | 0 <= p < |items| && 0 <= q < |items| && p != q && items[p].id in voted' && items[q].id in voted'
      ensures items[p].categoryId != items[q].categoryId
    {
      var n :| 0 <= n < |items| && items[n] == item;
      if items[p].id in voted && items[q].id in voted {
      } else if items[p].id in voted {
        assert items[q].id == item.id;
        assert q == n;
        assert items[p].id != item.id;
      } else {
        assert items[p].id == item.id;
        assert p == n;
        assert items[q].id != item.id;
        assert items[q].id in voted;
      }
    }
  }

  /**
   * Under the client invariant, `other` is the only voted item of its
   * category, so once it is retracted none is left there.
   */
  lemma {:induction false} RetractClearsCategory(items: seq<Item>, voted: seq<int>, other: Item)
    requires ClientValid(items, voted)
    requires other in items && other.id in voted
    ensures forall x :: x in items && x.categoryId == other.categoryId ==> x.id !in RemoveId(voted, other.id)
  {
    forall x | x in items && x.categoryId == other.categoryId
      ensures x.id !in RemoveId(voted, other.id)
    {
      var p :| 0 <= p < |items| && items[p] == x;
      var q :| 0 <= q < |items| && items[q] == other;
      if p != q {
        assert items[p].id !in voted;
      }
    }
  }

  /** No voted item of `item`'s category other than `item` itself. */
  ghost predicate OnlyVoteInCategory(items: seq<Item>, voted: seq<int>, item: Item) {
    forall x :: x in items && x.categoryId == item.categoryId && x.id in voted ==> x.id == item.id
  }

  /**
   * After the retract of `other`, the only voted item of the clicked item's
   * category, the clicked item is still on the page, still not voted, and
   * no voted item is left in its category.
   */
  lemma {:induction false} RetractLeavesNoVote(items: seq<Item>, voted: seq<int>, other: Item, item: Item)
    requires ClientValid(items, voted)
    requires other in items && other.id in voted && other.categoryId == item.categoryId
    requires item in items && item.id != other.id && item.id !in voted
    ensures item in AdjustVotes(items, other.id, -1)
    ensures item.id !in RemoveId(voted, other.id)
    ensures OnlyVoteInCategory(AdjustVotes(items, other.id, -1), RemoveId(voted, other.id), item)
  {
    var items' := AdjustVotes(items, other.id, -1);
    var n :| 0 <= n < |items| && items[n] == item;
    assert items'[n] == item;
    RetractClearsCategory(items, voted, other);
    forall x | x in items' && x.categoryId == item.categoryId
      ensures x.id !in RemoveId(voted, other.id)
    {
      var k :| 0 <= k < |items'| && items'[k] == x;
      assert items[k].id == x.id && items[k].categoryId == x.categoryId;
    }
  }

  /** `categories.filter(c => c.group_id === selectedGroupId)`; nothing when no group is selected. */
  function FilteredCategories(categories: seq<Category>, selectedGroupId: Option<int>): (r: seq<Category>)
    ensures forall c :: c in r <==> c in categories && selectedGroupId == Some(c.groupId)
    ensures |r| <= |categories|
  {
    if |categories| == 0 then []
    else
      FilteredCategories(categories[..|categories| - 1], selectedGroupId)
      + (if selectedGroupId == Some(categories[|categories| - 1].groupId) then [categories[|categories| - 1]] else [])
  }

  /** `selectedCategoryId ? items.filter(i => i.category_id === selectedCategoryId) : []`. */
  function FilteredItems(items: seq<Item>, selectedCategoryId: Option<int>): (r: seq<Item>)
    ensures selectedCategoryId.None? ==> r == []
    ensures forall x :: x in r <==> x in items && selectedCategoryId == Some(x.categoryId)
  {
    if selectedCategoryId.None? then [] else ItemsInCategory(items, selectedCategoryId.value)
  }

  class Page {
    var items: seq<Item>
    var votedItemIds: seq<int>
    var isVoting: bool
    var loadingItemId: Option<int>

    ghost predicate Valid()
      reads this
    {
      ClientValid(items, votedItemIds)
    }

    /** The page after loading: no click in progress. */
    constructor (items: seq<Item>, votedItemIds: seq<int>)
      ensures this.items == items && this.votedItemIds == votedItemIds
      ensures !isVoting && loadingItemId.None?
    {
      this.items := items;
      this.votedItemIds := votedItemIds;
      this.isVoting := false;
      this.loadingItemId := None;
    }

    /**
     * `handleVote(item)`: ignored while a click is being processed;
     * otherwise (1) a voted item is toggled off with one DELETE; (2) another
     * voted item of the same category is retracted first and a failed
     * retract stops there; (3) a POST casts the vote. Each ok answer updates
     * the counts of the matching item only and the voted ids. `isVoting`
     * stays set until the cooldown ends.
     */
    method HandleVote(item: Item, deleteOk: bool, postOk: bool) returns (sent: seq<Request>)
      modifies this
      ensures old(isVoting) ==>
                sent == [] && items == old(items) && votedItemIds == old(votedItemIds)
                && isVoting && loadingItemId == old(loadingItemId)
      ensures !old(isVoting) ==> isVoting && loadingItemId == Some(item.id)
      ensures !old(isVoting) && item.id in old(votedItemIds) ==>
                && sent == [Retract(item.id)]
                && items == (if deleteOk then AdjustVotes(old(items), item.id, -1) else old(items))
                && votedItemIds == (if deleteOk then RemoveId(old(votedItemIds), item.id) else old(votedItemIds))
      ensures !old(isVoting) && item.id !in old(votedItemIds) ==>
                match FindOtherVoted(old(items), old(votedItemIds), item)
                case Some(other) =>
                  if !deleteOk then
                    sent == [Retract(other.id)] && items == old(items) && votedItemIds == old(votedItemIds)
                  else
                    var items1 := AdjustVotes(old(items), other.id, -1);
                    var voted1 := RemoveId(old(votedItemIds), other.id);
                    && sent == [Retract(other.id), Cast(item.id)]
                    && items == (if postOk then AdjustVotes(items1, item.id, 1) else items1)
                    && votedItemIds == (if postOk then voted1 + [item.id] else voted1)
                case None =>
                  && sent == [Cast(item.id)]
                  && items == (if postOk then AdjustVotes(old(items), item.id, 1) else old(items))
                  && votedItemIds == (if postOk then old(votedItemIds) + [item.id] else old(votedItemIds))
      ensures old(Valid()) && item in old(items) ==> Valid()
    {
      sent := [];
      if isVoting {
        return;
      }
      isVoting := true;
      loadingItemId := Some(item.id);
      ghost var valid := Valid() && item in items;
      var isCurrentItemVoted := item.id in votedItemIds;
      var otherVotedItem := FindOtherVoted(items, votedItemIds, item);
      // Scenario 1: toggle off.
      if isCurrentItemVoted {
        sent := [Retract(item.id)];
        ApplyRetract(item.id, deleteOk);
        return;
      }
      // Scenario 2: retract the other vote of this category first.
      if otherVotedItem.Some? {
        var other := otherVotedItem.value;
        sent := [Retract(other.id)];
        if !deleteOk {
          return;
        }
        if valid {
          RetractLeavesNoVote(items, votedItemIds, other, item);
        }
        ApplyRetract(other.id, true);
      }
      // Scenario 3: cast.
      sent := sent + [Cast(item.id)];
      ApplyCast(item, postOk);
    }

    /** An answer to a DELETE for `id`: when ok, one vote fewer on that item and the id no longer voted. */
    method ApplyRetract(id: int, ok: bool)
      modifies this`items, this`votedItemIds
      ensures items == (if ok then AdjustVotes(old(items), id, -1) else old(items))
      ensures votedItemIds == (if ok then RemoveId(old(votedItemIds), id) else old(votedItemIds))
      ensures old(Valid()) ==> Valid()
    {
      if ok {
        if Valid() {
          RemoveKeepsClientValid(items, votedItemIds, id);
          AdjustKeepsClientValid(items, RemoveId(votedItemIds, id), id, -1);
        }
        items := AdjustVotes(items, id, -1);
        votedItemIds := RemoveId(votedItemIds, id);
      }
    }

    /** An answer to a POST for `item`: when ok, one vote more on it and its id voted. */
    method ApplyCast(item: Item, ok: bool)
      modifies this`items, this`votedItemIds
      ensures items == (if ok then AdjustVotes(old(items), item.id, 1) else old(items))
      ensures votedItemIds == (if ok then old(votedItemIds) + [item.id] else old(votedItemIds))
      ensures old(Valid()) && item in old(items) && item.id !in old(votedItemIds) &&
              OnlyVoteInCategory(old(items), old(votedItemIds), item) ==>
                Valid()
    {
      if ok {
        if Valid() && item in items && item.id !in votedItemIds && OnlyVoteInCategory(items, votedItemIds, item) {
          AppendKeepsClientValid(items, votedItemIds, item);
          AdjustKeepsClientValid(items, votedItemIds + [item.id], item.id, 1);
        }
        items := AdjustVotes(items, item.id, 1);
        votedItemIds := votedItemIds + [item.id];
      }
    }

    /** The 300 ms timer of the `finally` block: the next click is accepted again. */
    method FinishCooldown()
      modifies this
      ensures !isVoting && loadingItemId.None?
      ensures items == old(items) && votedItemIds == old(votedItemIds)
    {
      isVoting := false;
      loadingItemId := None;
    }
  }
}
