/**
 * The vote ledger as values: the `votes` rows and the `items` rows with their
 * cached counters. The two invariants of the system are stated here, and how
 * the atomic cast step (insert the row and add one to the counter), the
 * delete-then-decrement retract and the insertion of a zero-vote item affect
 * them is proved once, for the routes to use.
 */
module Ledger {
  import opened Entities

  /** The vote rows that point at item `itemId`. */
  function VotesFor(votes: set<Vote>, itemId: int): (r: set<Vote>)
    ensures forall v :: v in r <==> v in votes && v.itemId == itemId
  {
    set v | v in votes && v.itemId == itemId
  }

  /** `count(votes where item_id = itemId)`. */
  function CountVotes(votes: set<Vote>, itemId: int): nat {
    |VotesFor(votes, itemId)|
  }

  /** The vote rows of one user in one category. */
  function VotesInCategory(votes: set<Vote>, userId: int, categoryId: int): (r: set<Vote>)
    ensures forall v :: v in r <==> v in votes && v.userId == userId && v.categoryId == categoryId
  {
    set v | v in votes && v.userId == userId && v.categoryId == categoryId
  }

  /** The vote rows of one user for one item. */
  function VotesOfUserForItem(votes: set<Vote>, userId: int, itemId: int): (r: set<Vote>)
    ensures forall v :: v in r <==> v in votes && v.userId == userId && v.itemId == itemId
  {
    set v | v in VotesFor(votes, itemId) && v.userId == userId
  }

  /** At most one vote row per (user, category). */
  ghost predicate OneVotePerCategory(votes: set<Vote>) {
    forall v, w :: v in votes && w in votes && v.userId == w.userId && v.categoryId == w.categoryId ==> v == w
  }

  /** `item.votes == count(votes where item_id = item.id)` for every item. */
  ghost predicate CountersMatch(items: seq<Item>, votes: set<Vote>) {
    forall k :: 0 <= k < |items| ==> items[k].votes == CountVotes(votes, items[k].id)
  }

  /** The primary key of `items`. */
  ghost predicate DistinctIds(items: seq<Item>) {
    forall i, j :: 0 <= i < |items| && 0 <= j < |items| && i != j ==> items[i].id != items[j].id
  }

  /** Some item has this id and this category. */
  ghost predicate HasItem(items: seq<Item>, id: int, categoryId: int) {
    exists k :: 0 <= k < |items| && items[k].id == id && items[k].categoryId == categoryId
  }

  /** Every vote row names an existing item and carries that item's category. */
  ghost predicate VotesMatchItems(items: seq<Item>, votes: set<Vote>) {
    forall v :: v in votes ==> HasItem(items, v.itemId, v.categoryId)
  }

  /** Under the per-category rule a user holds at most one vote for any one item. */
  lemma {:induction false} OneVotePerItem(items: seq<Item>, votes: set<Vote>, userId: int, itemId: int)
    requires DistinctIds(items) && VotesMatchItems(items, votes) && OneVotePerCategory(votes)
    ensures |VotesOfUserForItem(votes, userId, itemId)| <= 1
  {
    var m := VotesOfUserForItem(votes, userId, itemId);
    if m != {} {
      var v :| v in m;
      forall w | w in m ensures w == v {
        var i :| 0 <= i < |items| && items[i].id == v.itemId && items[i].categoryId == v.categoryId;
        var j :| 0 <= j < |items| && items[j].id == w.itemId && items[j].categoryId == w.categoryId;
        assert i == j;
      }
      assert m == {v};
    }
  }

  /**
   * The cast step: with no vote of this user in this category, inserting the
   * row and raising that item's counter by one keeps every counter exact.
   */
  lemma {:induction false} CastKeepsCounters(items: seq<Item>, votes: set<Vote>, v: Vote)
    requires CountersMatch(items, votes)
    requires v !in votes
    ensures CountersMatch(AdjustVotes(items, v.itemId, 1), votes + {v})
  {
    var items' := AdjustVotes(items, v.itemId, 1);
    forall k | 0 <= k < |items'|
      ensures items'[k].votes == CountVotes(votes + {v}, items'[k].id)
    {
      var id := items[k].id;
      if id == v.itemId {
        assert VotesFor(votes + {v}, id) == VotesFor(votes, id) + {v};
      } else {
        assert VotesFor(votes + {v}, id) == VotesFor(votes, id);
      }
    }
  }

  /** The cast step keeps the per-category rule when the user had no vote there. */
  lemma CastKeepsOneVotePerCategory(votes: set<Vote>, v: Vote)
    requires OneVotePerCategory(votes)
    requires VotesInCategory(votes, v.userId, v.categoryId) == {}
    ensures OneVotePerCategory(votes + {v})
  {
    forall w | w in votes ensures !(w.userId == v.userId && w.categoryId == v.categoryId) {
      assert w !in VotesInCategory(votes, v.userId, v.categoryId);
    }
  }

  /** The cast step keeps every row pointing at its item. */
  lemma {:induction false} CastKeepsVotesMatchItems(items: seq<Item>, votes: set<Vote>, v: Vote, delta: int)
    requires VotesMatchItems(items, votes)
    requires HasItem(items, v.itemId, v.categoryId)
    ensures VotesMatchItems(AdjustVotes(items, v.itemId, delta), votes + {v})
  {
    AdjustKeepsVotesMatchItems(items, votes + {v}, v.itemId, delta);
  }

  /** Any counter update keeps ids and categories, hence the row-to-item links. */
  lemma {:induction false} AdjustKeepsVotesMatchItems(items: seq<Item>, votes: set<Vote>, id: int, delta: int)
    requires VotesMatchItems(items, votes)
    ensures VotesMatchItems(AdjustVotes(items, id, delta), votes)
    ensures DistinctIds(items) ==> DistinctIds(AdjustVotes(items, id, delta))
  {
    var items' := AdjustVotes(items, id, delta);
    forall w | w in votes ensures HasItem(items', w.itemId, w.categoryId) {
      var k :| 0 <= k < |items| && items[k].id == w.itemId && items[k].categoryId == w.categoryId;
      assert items'[k].id == w.itemId && items'[k].categoryId == w.categoryId;
    }
  }

  /**
   * The two steps of a retract together: removing the one row and then
   * lowering that item's counter by one keeps every counter exact.
   */
  lemma {:induction false} RetractKeepsCounters(items: seq<Item>, votes: set<Vote>, v: Vote)
    requires CountersMatch(items, votes)
    requires v in votes
    ensures CountersMatch(AdjustVotes(items, v.itemId, -1), votes - {v})
  {
    var items' := AdjustVotes(items, v.itemId, -1);
    forall k | 0 <= k < |items'|
      ensures items'[k].votes == CountVotes(votes - {v}, items'[k].id)
    {
      var id := items[k].id;
      if id == v.itemId {
        assert VotesFor(votes, id) == VotesFor(votes - {v}, id) + {v};
      } else {
        assert VotesFor(votes - {v}, id) == VotesFor(votes, id);
      }
    }
  }

  /**
   * The first retract step alone (the row is deleted, the decrement then
   * fails) leaves that item's counter one above the number of its rows.
   */
  lemma {:induction false} DeleteWithoutDecrementMiscounts(items: seq<Item>, votes: set<Vote>, v: Vote, k: nat)
    requires CountersMatch(items, votes)
    requires v in votes && k < |items| && items[k].id == v.itemId
    ensures items[k].votes == CountVotes(votes - {v}, v.itemId) + 1
  {
    assert VotesFor(votes, v.itemId) == VotesFor(votes - {v}, v.itemId) + {v};
  }

  /** Removing rows keeps the per-category rule and the row-to-item links. */
  lemma RemoveKeepsWellFormed(items: seq<Item>, votes: set<Vote>, gone: set<Vote>)
    requires OneVotePerCategory(votes) && VotesMatchItems(items, votes)
    ensures OneVotePerCategory(votes - gone) && VotesMatchItems(items, votes - gone)
  {
  }

  /** A new item with zero votes, under an id no row mentions, keeps every counter exact. */
  lemma {:induction false} AddItemKeepsCounters(items: seq<Item>, votes: set<Vote>, it: Item)
    requires CountersMatch(items, votes)
    requires it.votes == 0
    requires forall v :: v in votes ==> v.itemId != it.id
    ensures CountersMatch(items + [it], votes)
  {
    var items' := items + [it];
    forall k | 0 <= k < |items'| ensures items'[k].votes == CountVotes(votes, items'[k].id) {
      if k == |items| {
        assert VotesFor(votes, it.id) == {};
      } else {
        assert items'[k] == items[k];
      }
    }
  }

  /** A new item keeps the row-to-item links (old witnesses stay valid). */
  lemma {:induction false} AddItemKeepsVotesMatchItems(items: seq<Item>, votes: set<Vote>, it: Item)
    requires VotesMatchItems(items, votes)
    ensures VotesMatchItems(items + [it], votes)
  {
    forall w | w in votes ensures HasItem(items + [it], w.itemId, w.categoryId) {
      var k :| 0 <= k < |items| && items[k].id == w.itemId && items[k].categoryId == w.categoryId;
      assert (items + [it])[k] == items[k];
    }
  }

  /**
   * A retract of the (user, item) rows under the invariants: there is exactly
   * one such row; removing it keeps the per-category rule and the links; the
   * decrement that follows restores exact counters, and without it the
   * counters are off.
   */
  lemma {:induction false} RetractFacts(items: seq<Item>, votes: set<Vote>, userId: int, itemId: int)
    requires DistinctIds(items) && VotesMatchItems(items, votes) && OneVotePerCategory(votes)
    requires VotesOfUserForItem(votes, userId, itemId) != {}
    ensures |VotesOfUserForItem(votes, userId, itemId)| == 1
    ensures OneVotePerCategory(votes - VotesOfUserForItem(votes, userId, itemId))
    ensures VotesMatchItems(items, votes - VotesOfUserForItem(votes, userId, itemId))
    ensures CountersMatch(items, votes) ==>
              CountersMatch(AdjustVotes(items, itemId, -1), votes - VotesOfUserForItem(votes, userId, itemId))
    ensures CountersMatch(items, votes) ==> !CountersMatch(items, votes - VotesOfUserForItem(votes, userId, itemId))
  {
    var gone := VotesOfUserForItem(votes, userId, itemId);
    OneVotePerItem(items, votes, userId, itemId);
    var v :| v in gone;
    assert gone == {v} by {
      forall w | w in gone ensures w == v {
        assert |gone| == 1;
      }
    }
    RemoveKeepsWellFormed(items, votes, gone);
    if CountersMatch(items, votes) {
      RetractKeepsCounters(items, votes, v);
      var k :| 0 <= k < |items| && items[k].id == v.itemId && items[k].categoryId == v.categoryId;
      DeleteWithoutDecrementMiscounts(items, votes, v, k);
    }
  }

  /**
   * The cast step under the invariants: when the user holds no vote in the
   * item's category, inserting the row and raising that counter keeps the
   * per-category rule, the links, the primary key and exact counters.
   */
  lemma {:induction false} CastFacts(items: seq<Item>, votes: set<Vote>, v: Vote)
    requires DistinctIds(items) && VotesMatchItems(items, votes) && OneVotePerCategory(votes)
    requires HasItem(items, v.itemId, v.categoryId)
    requires VotesInCategory(votes, v.userId, v.categoryId) == {}
    ensures v !in votes
    ensures OneVotePerCategory(votes + {v})
    ensures VotesMatchItems(AdjustVotes(items, v.itemId, 1), votes + {v})
    ensures DistinctIds(AdjustVotes(items, v.itemId, 1))
    ensures CountersMatch(items, votes) ==> CountersMatch(AdjustVotes(items, v.itemId, 1), votes + {v})
  {
    assert v !in VotesInCategory(votes, v.userId, v.categoryId);
    CastKeepsOneVotePerCategory(votes, v);
    CastKeepsVotesMatchItems(items, votes, v, 1);
    AdjustKeepsVotesMatchItems(items, votes, v.itemId, 1);
    if CountersMatch(items, votes) {
      CastKeepsCounters(items, votes, v);
    }
  }
}
