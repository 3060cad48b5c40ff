/**
 * `POST /api/submit`: a signed-in user suggests a new item for a category,
 * at most `MaxSubmissions` times per month.
 *
 * The month window `[from, to]` and the insert time `now` are parameters
 * (timestamps as integers); both ends of the window are inclusive, as the
 * `gte` / `lte` filters are.
 */
module SubmitRoute {
  import opened Entities
  import opened DataStore
  import Constants

  /** Which store calls fail: the count, the insert. */
  datatype SubmitFaults = SubmitFaults(countQuery: bool, insert: bool)

  /** The fixed monthly limit; every user gets the same one. */
  const MaxSubmissions: nat := 2

  /** The fixed limit is the free tier's; the tier table is not consulted, so paid tiers get no more. */
  lemma FixedLimitIsFreeLimit()
    ensures Constants.MonthlySubmissionLimit(Constants.TierId(Constants.Free)) == Some(MaxSubmissions)
    ensures Constants.MonthlySubmissionLimit(Constants.TierId(Constants.Premium)).value > MaxSubmissions
  {
  }

  const AnonymousName: string := "익명"

  /** The ids of `email`'s suggestions created within `[from, to]`. */
  function SuggestionsInWindow(suggestions: map<int, Suggestion>, email: string, from: int, to: int): (r: set<int>)
    ensures forall id :: id in r <==>
              id in suggestions && suggestions[id].userEmail == email && from <= suggestions[id].createdAt <= to
  {
    set id | id in suggestions && suggestions[id].userEmail == email && from <= suggestions[id].createdAt <= to
  }

  /** `count && count >= maxSubmissions`; a null count never exceeds. */
  predicate QuotaExceeded(count: Option<nat>) {
    count.Some? && count.value != 0 && count.value >= MaxSubmissions
  }

  /** With a limit above zero the truthiness test adds nothing: the quota is exceeded at 2. */
  lemma QuotaExceededAtLimit(count: Option<nat>)
    ensures QuotaExceeded(count) <==> count.Some? && count.value >= 2
  {
  }

  /** The inserted row. */
  function NewSuggestion(id: int, name: string, categoryId: int, description: string, session: Session,
                         now: int): (s: Suggestion)
    ensures s.id == id && s.name == name && s.categoryId == categoryId && s.status == Pending
    ensures s.description == (if description == "" then None else Some(description))
    ensures s.userEmail == session.email
    ensures s.userName == (if session.name == "" then AnonymousName else session.name)
    ensures s.createdAt == now
    ensures s.processedAt.None? && s.processedBy.None? && s.rejectionReason.None? && s.itemId.None?
  {
    Suggestion(id, name, categoryId, if description == "" then None else Some(description), session.email,
               if session.name == "" then AnonymousName else session.name, Pending, now, None, None, None, None)
  }

  /** A new row under a fresh id adds one to the window count exactly when it falls in the window. */
  lemma InsertCount(suggestions: map<int, Suggestion>, id: int, s: Suggestion, email: string, from: int, to: int)
    requires id !in suggestions
    ensures |SuggestionsInWindow(suggestions[id := s], email, from, to)|
            == |SuggestionsInWindow(suggestions, email, from, to)|
               + (if s.userEmail == email && from <= s.createdAt <= to then 1 else 0)
  {
    var before := SuggestionsInWindow(suggestions, email, from, to);
    var after := SuggestionsInWindow(suggestions[id := s], email, from, to);
    if s.userEmail == email && from <= s.createdAt <= to {
      assert after == before + {id};
    } else {
      assert after == before;
    }
  }

  /**
   * 401 without a session, 400 without a name or a category, 500 when the
   * count fails, 403 when the user already has two suggestions in the
   * window, 500 when the insert fails, otherwise 200 with one pending row
   * added.
   */
  method Submit(db: Store, session: Option<Session>, name: string, categoryId: int, description: string,
                now: int, from: int, to: int, faults: SubmitFaults) returns (status: int)
    requires db.WellFormed()
    modifies db`suggestions, db`nextSuggestionId
    ensures db.WellFormed()
    ensures status in {200, 400, 401, 403, 500}
    ensures status == 401 <==> session.None?
    ensures status == 400 <==> session.Some? && (name == "" || categoryId == 0)
    ensures status == 403 <==>
              session.Some? && name != "" && categoryId != 0 && !faults.countQuery
              && QuotaExceeded(Some(|SuggestionsInWindow(old(db.suggestions), session.value.email, from, to)|))
    ensures status == 500 <==>
              session.Some? && name != "" && categoryId != 0
              && (faults.countQuery
                  || (!QuotaExceeded(Some(|SuggestionsInWindow(old(db.suggestions), session.value.email, from, to)|))
                      && faults.insert))
    ensures status != 200 ==> db.suggestions == old(db.suggestions) && db.nextSuggestionId == old(db.nextSuggestionId)
    ensures status == 200 ==>
              && old(db.nextSuggestionId) !in old(db.suggestions)
              && db.suggestions == old(db.suggestions)[old(db.nextSuggestionId) :=
                   NewSuggestion(old(db.nextSuggestionId), name, categoryId, description, session.value, now)]
              && db.nextSuggestionId == old(db.nextSuggestionId) + 1
    ensures status == 200 ==>
              |SuggestionsInWindow(old(db.suggestions), session.value.email, from, to)| < MaxSubmissions
              && |SuggestionsInWindow(db.suggestions, session.value.email, from, to)|
                 == |SuggestionsInWindow(old(db.suggestions), session.value.email, from, to)|
                    + (if from <= now <= to then 1 else 0)
  {
    if session.None? {
      return 401;
    }
    if name == "" || categoryId == 0 {
      return 400;
    }
    var email := session.value.email;
    if faults.countQuery {
      return 500;
    }
    var count := |SuggestionsInWindow(db.suggestions, email, from, to)|;
    if QuotaExceeded(Some(count)) {
      return 403;
    }
    if faults.insert {
      return 500;
    }
    var id := db.nextSuggestionId;
    var row := NewSuggestion(id, name, categoryId, description, session.value, now);
    InsertCount(db.suggestions, id, row, email, from, to);
    db.suggestions := db.suggestions[id := row];
    db.nextSuggestionId := id + 1;
    return 200;
  }
}
