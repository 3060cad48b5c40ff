/**
 * `POST /api/vote` (cast) and `DELETE /api/vote` (retract) over the store.
 *
 * Each handler runs as one sequential step. The stored procedure
 * `increment_votes_and_insert_vote` is one atomic step: it inserts the vote
 * row and adds one to the item's counter, or fails and changes nothing.
 * `decrement_votes` subtracts one from the counter or fails and changes
 * nothing. A retract is two steps: the rows are deleted first, and the
 * decrement may then fail on its own.
 */
module VoteRoute {
  import opened Entities
  import opened Ledger
  import opened DataStore

  /** Which of the store calls of a cast fail. */
  datatype PostFaults = PostFaults(userQuery: bool, itemQuery: bool, existingQuery: bool, rpc: bool)

  /** Which of the store calls of a retract fail. */
  datatype DeleteFaults = DeleteFaults(userQuery: bool, checkQuery: bool, delete: bool, rpc: bool)

  /** `!session?.user?.email`. */
  predicate SignedOut(session: Option<Session>) {
    session.None? || session.value.email == ""
  }

  /**
   * Cast a vote for `itemId`.
   * 401 when signed out; 400 when the user or the item is not found; 500 when
   * a read or the stored procedure fails; 409 when the user already holds a
   * vote in the item's category (whichever item it is for); otherwise 200 with
   * the one new row and that item's counter one higher. Only a 200 changes
   * the store.
   */
  method Post(db: Store, session: Option<Session>, itemId: int, faults: PostFaults) returns (status: int)
    requires db.WellFormed()
    modifies db`votes, db`items
    ensures db.WellFormed()
    ensures old(db.Consistent()) ==> db.Consistent()
    ensures status == 401 <==> SignedOut(session)
    ensures status == 400 <==>
              !SignedOut(session)
              && (faults.userQuery || session.value.email !in db.users
                  || faults.itemQuery || FindItem(db.items, itemId).None?)
    ensures status == 409 <==>
              !SignedOut(session) && !faults.userQuery && session.value.email in db.users
              && !faults.itemQuery && FindItem(old(db.items), itemId).Some? && !faults.existingQuery
              && VotesInCategory(old(db.votes), db.users[session.value.email].id,
                                 old(db.items)[FindItem(old(db.items), itemId).value].categoryId) != {}
    ensures status == 500 <==>
              !SignedOut(session) && !faults.userQuery && session.value.email in db.users
              && !faults.itemQuery && FindItem(old(db.items), itemId).Some?
              && (faults.existingQuery
                  || (VotesInCategory(old(db.votes), db.users[session.value.email].id,
                                      old(db.items)[FindItem(old(db.items), itemId).value].categoryId) == {}
                      && faults.rpc))
    ensures status in {200, 400, 401, 409, 500}
    ensures status != 200 ==> db.votes == old(db.votes) && db.items == old(db.items)
    ensures status == 200 ==>
              var uid := db.users[session.value.email].id;
              var k := FindItem(old(db.items), itemId);
              && !faults.rpc && k.Some?
              && var categoryId := old(db.items)[k.value].categoryId;
              && VotesInCategory(old(db.votes), uid, categoryId) == {}
              && db.votes == old(db.votes) + {Vote(uid, itemId, categoryId)}
              && db.items == AdjustVotes(old(db.items), itemId, 1)
  {
    if SignedOut(session) {
      return 401;
    }
    var email := session.value.email;
    var item := FindItem(db.items, itemId);
    if faults.userQuery || email !in db.users {
      return 400;
    }
    if faults.itemQuery || item.None? {
      return 400;
    }
    var uid := db.users[email].id;
    var categoryId := db.items[item.value].categoryId;
    var existing := VotesInCategory(db.votes, uid, categoryId);
    if faults.existingQuery {
      return 500;
    }
    if existing != {} {
      return 409;
    }
    if faults.rpc {
      return 500;
    }
    assert HasItem(db.items, itemId, categoryId) by {
      assert db.items[item.value].id == itemId;
    }
    IncrementVotesAndInsertVote(db, Vote(uid, itemId, categoryId));
    return 200;
  }

  /**
   * `increment_votes_and_insert_vote`, called once the user is known to hold
   * no vote in the item's category: the new row and the counter one higher,
   * in one step.
   */
  method IncrementVotesAndInsertVote(db: Store, v: Vote)
    requires db.WellFormed()
    requires HasItem(db.items, v.itemId, v.categoryId)
    requires VotesInCategory(db.votes, v.userId, v.categoryId) == {}
    modifies db`votes, db`items
    ensures db.WellFormed()
    ensures v !in old(db.votes)
    ensures db.votes == old(db.votes) + {v} && db.items == AdjustVotes(old(db.items), v.itemId, 1)
    ensures old(db.Consistent()) ==> db.Consistent()
  {
    CastFacts(db.items, db.votes, v);
    db.votes := db.votes + {v};
    db.items := AdjustVotes(db.items, v.itemId, 1);
  }

  /**
   * `delete from votes where user_id = userId and item_id = itemId`, run
   * once such a row is known to exist: exactly one row goes. On its own it
   * leaves that item's counter one too high; the decrement that follows
   * would make the counters exact again.
   */
  method DeleteVote(db: Store, userId: int, itemId: int)
    requires db.WellFormed()
    requires VotesOfUserForItem(db.votes, userId, itemId) != {}
    modifies db`votes
    ensures db.WellFormed()
    ensures |VotesOfUserForItem(old(db.votes), userId, itemId)| == 1
    ensures db.votes == old(db.votes) - VotesOfUserForItem(old(db.votes), userId, itemId)
    ensures old(db.Consistent()) ==> !db.Consistent() && CountersMatch(AdjustVotes(db.items, itemId, -1), db.votes)
  {
    RetractFacts(db.items, db.votes, userId, itemId);
    db.votes := db.votes - VotesOfUserForItem(db.votes, userId, itemId);
  }

  /** `decrement_votes`: that item's counter one lower, nothing else. */
  method DecrementVotes(db: Store, itemId: int)
    requires db.WellFormed()
    modifies db`items
    ensures db.WellFormed()
    ensures db.items == AdjustVotes(old(db.items), itemId, -1)
  {
    AdjustKeepsVotesMatchItems(db.items, db.votes, itemId, -1);
    db.items := AdjustVotes(db.items, itemId, -1);
  }

  /**
   * Retract the user's vote for `itemId` (the match is on the item, not the
   * category).
   * 401 when signed out; 400 when the user is not found; 500 when the check
   * fails; 404 when the user holds no vote for the item; 500 when the delete
   * fails (nothing changed) or when the decrement fails (the row is gone, the
   * counter is not lowered); otherwise 200 with the row gone and that item's
   * counter one lower.
   */
  method Delete(db: Store, session: Option<Session>, itemId: int, faults: DeleteFaults) returns (status: int)
    requires db.WellFormed()
    modifies db`votes, db`items
    ensures db.WellFormed()
    ensures status == 401 <==> SignedOut(session)
    ensures status == 400 <==> !SignedOut(session) && (faults.userQuery || session.value.email !in db.users)
    ensures status == 404 <==>
              !SignedOut(session) && !faults.userQuery && session.value.email in db.users && !faults.checkQuery
              && VotesOfUserForItem(old(db.votes), db.users[session.value.email].id, itemId) == {}
    ensures status in {200, 400, 401, 404, 500}
    ensures db.items == old(db.items) || db.items == AdjustVotes(old(db.items), itemId, -1)
    ensures status != 200 && status != 500 ==> db.votes == old(db.votes) && db.items == old(db.items)
    ensures status == 200 ==>
              var gone := VotesOfUserForItem(old(db.votes), db.users[session.value.email].id, itemId);
              && |gone| == 1
              && db.votes == old(db.votes) - gone
              && db.items == AdjustVotes(old(db.items), itemId, -1)
    ensures status == 200 <==>
              !SignedOut(session) && !faults.userQuery && session.value.email in db.users && !faults.checkQuery
              && VotesOfUserForItem(old(db.votes), db.users[session.value.email].id, itemId) != {}
              && !faults.delete && !faults.rpc
    ensures !SignedOut(session) && !faults.userQuery && session.value.email in db.users && !faults.checkQuery
            && VotesOfUserForItem(old(db.votes), db.users[session.value.email].id, itemId) != {}
            && !faults.delete && faults.rpc ==>
              status == 500 && db.items == old(db.items)
              && db.votes == old(db.votes) - VotesOfUserForItem(old(db.votes), db.users[session.value.email].id, itemId)
    ensures status == 500 && (faults.checkQuery || faults.delete) ==>
              db.votes == old(db.votes) && db.items == old(db.items)
    ensures status == 500 && db.votes != old(db.votes) ==>
              faults.rpc && !faults.delete && db.items == old(db.items)
              && db.votes == old(db.votes) - VotesOfUserForItem(old(db.votes), db.users[session.value.email].id, itemId)
    ensures old(db.Consistent()) && status == 200 ==> db.Consistent()
    ensures old(db.Consistent()) && status != 200 && db.votes == old(db.votes) ==> db.Consistent()
    ensures old(db.Consistent()) && status == 500 && db.votes != old(db.votes) ==> !db.Consistent()
  {
    if SignedOut(session) {
      return 401;
    }
    var email := session.value.email;
    if faults.userQuery || email !in db.users {
      return 400;
    }
    var uid := db.users[email].id;
    var existing := VotesOfUserForItem(db.votes, uid, itemId);
    if faults.checkQuery {
      return 500;
    }
    if existing == {} {
      return 404;
    }
    if faults.delete {
      return 500;
    }
    DeleteVote(db, uid, itemId);
    if faults.rpc {
      return 500;
    }
    DecrementVotes(db, itemId);
    return 200;
  }
}
