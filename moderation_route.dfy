/**
 * `POST /api/admin/process-suggestion`: the pending -> approved / rejected
 * state machine of `item_suggestions`.
 *
 * Approving is two store steps, not one transaction: the new item is
 * inserted first (zero votes, the suggestion's name and category), then the
 * suggestion row is updated; the update can fail after the insert. The
 * clock is the parameter `now`. There is no role check: any signed-in user
 * may call the route.
 */
module ModerationRoute {
  import opened Entities
  import opened Ledger
  import opened DataStore

  /** Which store calls fail: the read, the item insert, the status update. */
  datatype ProcessFaults = ProcessFaults(fetch: bool, insertItem: bool, update: bool)

  const DefaultRejectionReason: string := "관리자에 의해 거부됨"

  /** `!id || !action || !['approve', 'reject'].includes(action)`; a missing id is 0. */
  predicate ValidRequest(id: int, action: string) {
    id != 0 && (action == "approve" || action == "reject")
  }

  /** `reason || '관리자에 의해 거부됨'`. */
  function ReasonOrDefault(reason: string): (r: string)
    ensures r != ""
    ensures reason != "" ==> r == reason
  {
    if reason == "" then DefaultRejectionReason else reason
  }

  /** The approving update: status, time, moderator and the new item; nothing else changes. */
  function ApprovedRecord(s: Suggestion, now: int, moderator: string, itemId: int): (r: Suggestion)
    ensures r.status == Approved && r.processedAt == Some(now) && r.processedBy == Some(moderator) && r.itemId == Some(itemId)
    ensures r.(status := s.status, processedAt := s.processedAt, processedBy := s.processedBy, itemId := s.itemId) == s
  {
    s.(status := Approved, processedAt := Some(now), processedBy := Some(moderator), itemId := Some(itemId))
  }

  /** The rejecting update: status, time, moderator and reason; nothing else changes. */
  function RejectedRecord(s: Suggestion, now: int, moderator: string, reason: string): (r: Suggestion)
    ensures r.status == Rejected && r.processedAt == Some(now) && r.processedBy == Some(moderator)
    ensures r.rejectionReason == Some(ReasonOrDefault(reason))
    ensures r.(status := s.status, processedAt := s.processedAt, processedBy := s.processedBy,
               rejectionReason := s.rejectionReason) == s
  {
    s.(status := Rejected, processedAt := Some(now), processedBy := Some(moderator),
       rejectionReason := Some(ReasonOrDefault(reason)))
  }

  /**
   * 401 without a session; 400 for an invalid request; 404 when the
   * suggestion is not found; 400 when it is no longer pending; 500 when a
   * store step fails; otherwise 200 with the suggestion processed.
   */
  method Process(db: Store, session: Option<Session>, id: int, action: string, reason: string, now: int,
                 faults: ProcessFaults) returns (status: int)
    requires db.WellFormed()
    modifies db`items, db`nextItemId, db`suggestions
    ensures db.WellFormed()
    ensures old(db.Consistent()) ==> db.Consistent()
    ensures status in {200, 400, 401, 404, 500}
    ensures status == 401 <==> session.None?
    ensures status == 404 <==> session.Some? && ValidRequest(id, action) && (faults.fetch || id !in db.suggestions)
    ensures status == 400 <==>
              session.Some? && (!ValidRequest(id, action)
                                || (!faults.fetch && id in old(db.suggestions) && old(db.suggestions)[id].status != Pending))
    ensures status == 500 <==>
              session.Some? && ValidRequest(id, action) && !faults.fetch && id in old(db.suggestions)
              && old(db.suggestions)[id].status == Pending
              && ((action == "approve" && (faults.insertItem || faults.update)) || (action == "reject" && faults.update))
    ensures status != 200 && !(status == 500 && action == "approve" && !faults.insertItem) ==>
              db.items == old(db.items) && db.nextItemId == old(db.nextItemId) && db.suggestions == old(db.suggestions)
    ensures status == 500 && action == "approve" && !faults.insertItem ==>
              && faults.update && id in old(db.suggestions) && db.suggestions == old(db.suggestions)
              && db.nextItemId == old(db.nextItemId) + 1
              && db.items == old(db.items) + [Item(old(db.nextItemId), old(db.suggestions)[id].name,
                                                   old(db.suggestions)[id].categoryId, 0)]
              && db.suggestions[id].status == Pending
    ensures status == 200 && action == "approve" ==>
              && id in old(db.suggestions)
              && db.items == old(db.items) + [Item(old(db.nextItemId), old(db.suggestions)[id].name,
                                                   old(db.suggestions)[id].categoryId, 0)]
              && db.nextItemId == old(db.nextItemId) + 1
              && db.suggestions == old(db.suggestions)[id := ApprovedRecord(old(db.suggestions)[id], now,
                                                                             session.value.email, old(db.nextItemId))]
    ensures status == 200 && action == "reject" ==>
              && id in old(db.suggestions)
              && db.items == old(db.items) && db.nextItemId == old(db.nextItemId)
              && db.suggestions == old(db.suggestions)[id := RejectedRecord(old(db.suggestions)[id], now,
                                                                             session.value.email, reason)]
    ensures status == 200 ==> id in old(db.suggestions) && id in db.suggestions && old(db.suggestions)[id].status == Pending && db.suggestions[id].status != Pending
  {
    if session.None? {
      return 401;
    }
    if !ValidRequest(id, action) {
      return 400;
    }
    if faults.fetch || id !in db.suggestions {
      return 404;
    }
    var suggestion := db.suggestions[id];
    if suggestion.status != Pending {
      return 400;
    }
    var email := session.value.email;
    if action == "approve" {
      if faults.insertItem {
        return 500;
      }
      var newId := InsertItem(db, suggestion.name, suggestion.categoryId);
      if faults.update {
        return 500;
      }
      UpdateSuggestion(db, ApprovedRecord(suggestion, now, email, newId));
      return 200;
    } else {
      if faults.update {
        return 500;
      }
      UpdateSuggestion(db, RejectedRecord(suggestion, now, email, reason));
      return 200;
    }
  }

  /** `insert into items (name, category_id, votes) values (name, categoryId, 0)`, under the next id. */
  method InsertItem(db: Store, name: string, categoryId: int) returns (newId: int)
    requires db.WellFormed()
    modifies db`items, db`nextItemId
    ensures db.WellFormed()
    ensures newId == old(db.nextItemId) && db.nextItemId == newId + 1
    ensures db.items == old(db.items) + [Item(newId, name, categoryId, 0)]
    ensures old(db.Consistent()) ==> db.Consistent()
  {
    newId := db.nextItemId;
    var newItem := Item(newId, name, categoryId, 0);
    AddItemFacts(db.items, db.votes, newItem, db.nextItemId);
    db.items := db.items + [newItem];
    db.nextItemId := db.nextItemId + 1;
  }

  /** `update item_suggestions set ... where id = s.id` on an existing row. */
  method UpdateSuggestion(db: Store, s: Suggestion)
    requires db.WellFormed() && s.id in db.suggestions
    modifies db`suggestions
    ensures db.WellFormed()
    ensures db.suggestions == old(db.suggestions)[s.id := s]
  {
    db.suggestions := db.suggestions[s.id := s];
  }

  /**
   * An item inserted under the next id keeps the primary key, the id bound,
   * the row-to-item links and, with zero votes, the counters.
   */
  lemma {:induction false} AddItemFacts(items: seq<Item>, votes: set<Vote>, it: Item, nextItemId: int)
    requires DistinctIds(items) && VotesMatchItems(items, votes)
    requires forall k :: 0 <= k < |items| ==> 0 < items[k].id < nextItemId
    requires 0 < nextItemId && it.id == nextItemId && it.votes == 0
    ensures DistinctIds(items + [it])
    ensures forall k :: 0 <= k < |items + [it]| ==> 0 < (items + [it])[k].id < nextItemId + 1
    ensures VotesMatchItems(items + [it], votes)
    ensures CountersMatch(items, votes) ==> CountersMatch(items + [it], votes)
  {
    AddItemKeepsVotesMatchItems(items, votes, it);
    forall v | v in votes ensures v.itemId != it.id {
      var k :| 0 <= k < |items| && items[k].id == v.itemId && items[k].categoryId == v.categoryId;
    }
    if CountersMatch(items, votes) {
      AddItemKeepsCounters(items, votes, it);
    }
  }
}
