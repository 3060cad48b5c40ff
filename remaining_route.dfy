/**
 * `GET /api/submit/remaining`: how many suggestions the user may still make
 * this month, from the same count, window and limit as the submit route.
 * The route only reads.
 */
module RemainingRoute {
  import opened Entities
  import opened DataStore
  import opened SubmitRoute

  /** The JSON body of a 200 response. */
  datatype RemainingBody = RemainingBody(remaining: nat, max: nat)

  /** `Math.max(0, maxSubmissions - (count || 0))`. */
  function Remaining(count: Option<nat>): (r: nat)
    ensures r <= MaxSubmissions
    ensures count.None? ==> r == MaxSubmissions
    ensures count.Some? && count.value <= MaxSubmissions ==> r == MaxSubmissions - count.value
    ensures count.Some? && count.value >= MaxSubmissions ==> r == 0
  {
    var c := if count.None? then 0 else count.value;
    if MaxSubmissions - c > 0 then MaxSubmissions - c else 0
  }

  /** Something remains exactly when the submit route's quota check would admit. */
  lemma RemainingAgreesWithQuota(count: Option<nat>)
    ensures Remaining(count) > 0 <==> !QuotaExceeded(count)
  {
  }

  /** One more suggestion in the window lowers what remains by one, down to zero. */
  lemma RemainingAfterSubmit(count: nat)
    ensures Remaining(Some(count + 1)) == if Remaining(Some(count)) == 0 then 0 else Remaining(Some(count)) - 1
  {
  }

  /**
   * 401 without a session, 500 when the count fails, otherwise 200 with the
   * remaining quota and the limit.
   */
  method GetRemaining(db: Store, session: Option<Session>, from: int, to: int, countFails: bool)
    returns (status: int, body: Option<RemainingBody>)
    ensures status in {200, 401, 500}
    ensures status == 401 <==> session.None?
    ensures status == 500 <==> session.Some? && countFails
    ensures body.Some? <==> status == 200
    ensures status == 200 ==>
              var count := |SuggestionsInWindow(db.suggestions, session.value.email, from, to)|;
              && body == Some(RemainingBody(Remaining(Some(count)), MaxSubmissions))
              && body.value.remaining <= body.value.max == 2
              && (body.value.remaining > 0 <==> !QuotaExceeded(Some(count)))
  {
    if session.None? {
      return 401, None;
    }
    if countFails {
      return 500, None;
    }
    var count := |SuggestionsInWindow(db.suggestions, session.value.email, from, to)|;
    RemainingAgreesWithQuota(Some(count));
    return 200, Some(RemainingBody(Remaining(Some(count)), MaxSubmissions));
  }
}
