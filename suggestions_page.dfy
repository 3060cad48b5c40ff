/**
 * The admin suggestions page: the client copy of the suggestion list, the
 * status tabs, and the approve / reject handlers with their `processingId`
 * guard. The answer of the moderation route is an input; the clock is the
 * parameter `now`.
 */
module SuggestionsPage {
  import opened Entities
  import opened ModerationRoute

  /** The four tabs. */
  datatype Tab = All | Only(status: Status)

  /** What the route answers: its JSON body, or a thrown request. */
  datatype Reply = Reply(success: bool, message: string) | NetworkError

  /** The request body sent to the moderation route. */
  datatype ProcessRequest = ProcessRequest(id: int, action: string, reason: Option<string>)

  /** The banner above the list. */
  datatype StatusMessage = StatusMessage(text: string, success: bool)

  const ServerErrorText: string := "서버 오류가 발생했습니다. 잠시 후 다시 시도해 주세요."

  /** `suggestions.filter(s => activeTab === 'all' || s.status === activeTab)`. */
  function FilteredSuggestions(list: seq<Suggestion>, tab: Tab): (r: seq<Suggestion>)
    ensures tab == All ==> r == list
    ensures forall s :: s in r <==> s in list && (tab == All || s.status == tab.status)
    ensures |r| <= |list|
  {
    if |list| == 0 then []
    else
      var last := list[|list| - 1];
      assert list == list[..|list| - 1] + [last];
      FilteredSuggestions(list[..|list| - 1], tab) + (if tab == All || last.status == tab.status then [last] else [])
  }

  /** The count shown on a status tab: `suggestions.filter(s => s.status === status).length`. */
  function CountStatus(list: seq<Suggestion>, status: Status): nat {
    if |list| == 0 then 0
    else CountStatus(list[..|list| - 1], status) + (if list[|list| - 1].status == status then 1 else 0)
  }

  /** The tab count is the length of that tab's list. */
  lemma {:induction false} CountIsTabLength(list: seq<Suggestion>, status: Status)
    ensures CountStatus(list, status) == |FilteredSuggestions(list, Only(status))|
  {
    if |list| > 0 {
      CountIsTabLength(list[..|list| - 1], status);
    }
  }

  /** With three statuses the three tab counts add up to the "all" count. */
  lemma {:induction false} TabCountsSum(list: seq<Suggestion>)
    ensures CountStatus(list, Pending) + CountStatus(list, Approved) + CountStatus(list, Rejected)
            == |FilteredSuggestions(list, All)|
  {
    if |list| > 0 {
      TabCountsSum(list[..|list| - 1]);
    }
  }

  /** `session?.user?.email || null`. */
  function EmailOrNull(email: string): (r: Option<string>)
    ensures r.None? <==> email == ""
    ensures r.Some? ==> r.value == email
  {
    if email == "" then None else Some(email)
  }

  /**
   * `prev.map(s => s.id === id ? { ...s, status, processed_at, processed_by, ... } : s)`:
   * the suggestion with that id gets `update` applied, the others stay.
   */
  function MarkApproved(list: seq<Suggestion>, id: int, now: int, email: string): (r: seq<Suggestion>)
    ensures |r| == |list|
    ensures forall k :: 0 <= k < |r| && list[k].id != id ==> r[k] == list[k]
    ensures forall k :: 0 <= k < |r| && list[k].id == id ==>
              r[k] == list[k].(status := Approved, processedAt := Some(now), processedBy := EmailOrNull(email))
  {
    seq(|list|, k requires 0 <= k < |list| =>
      if list[k].id == id
      then list[k].(status := Approved, processedAt := Some(now), processedBy := EmailOrNull(email))
      else list[k])
  }

  function MarkRejected(list: seq<Suggestion>, id: int, now: int, email: string, reason: string): (r: seq<Suggestion>)
    ensures |r| == |list|
    ensures forall k :: 0 <= k < |r| && list[k].id != id ==> r[k] == list[k]
    ensures forall k :: 0 <= k < |r| && list[k].id == id ==>
              r[k] == list[k].(status := Rejected, processedAt := Some(now), processedBy := EmailOrNull(email),
                               rejectionReason := Some(reason))
  {
    seq(|list|, k requires 0 <= k < |list| =>
      if list[k].id == id
      then list[k].(status := Rejected, processedAt := Some(now), processedBy := EmailOrNull(email),
                    rejectionReason := Some(reason))
      else list[k])
  }

  /** Approving a pending suggestion moves one entry from the pending tab to the approved tab. */
  lemma ApproveMovesOne(list: seq<Suggestion>, id: int, now: int, email: string, k: nat)
    requires k < |list| && list[k].id == id && list[k].status == Pending
    requires forall j :: 0 <= j < |list| && j != k ==> list[j].id != id
    ensures CountStatus(MarkApproved(list, id, now, email), Pending) == CountStatus(list, Pending) - 1
    ensures CountStatus(MarkApproved(list, id, now, email), Approved) == CountStatus(list, Approved) + 1
    ensures CountStatus(MarkApproved(list, id, now, email), Rejected) == CountStatus(list, Rejected)
  {
    var list' := MarkApproved(list, id, now, email);
    MoveOne(list, list', k, Pending);
    MoveOne(list, list', k, Approved);
    MoveOne(list, list', k, Rejected);
  }

  /** Changing the status of entry `k` from Pending to another status, leaving the rest, moves one count. */
  lemma {:induction false} MoveOne(list: seq<Suggestion>, list': seq<Suggestion>, k: nat, st: Status)
    requires |list'| == |list| && k < |list|
    requires forall j :: 0 <= j < |list| && j != k ==> list'[j].status == list[j].status
    requires list[k].status == Pending && list'[k].status != Pending
    ensures st == Pending ==> CountStatus(list', st) == CountStatus(list, st) - 1
    ensures st == list'[k].status ==> CountStatus(list', st) == CountStatus(list, st) + 1
    ensures st != Pending && st != list'[k].status ==> CountStatus(list', st) == CountStatus(list, st)
  {
    var n := |list| - 1;
    if k < n {
      MoveOne(list[..n], list'[..n], k, st);
    } else {
      SameStatuses(list[..n], list'[..n], st);
    }
  }

  /** Lists with the same statuses, position by position, have the same tab counts. */
  lemma {:induction false} SameStatuses(list: seq<Suggestion>, list': seq<Suggestion>, st: Status)
    requires |list'| == |list|
    requires forall j :: 0 <= j < |list| ==> list'[j].status == list[j].status
    ensures CountStatus(list', st) == CountStatus(list, st)
  {
    if |list| > 0 {
      SameStatuses(list[..|list| - 1], list'[..|list| - 1], st);
    }
  }

  class Page {
    var suggestions: seq<Suggestion>
    var processingId: Option<int>
    var rejectionReason: string
    var showRejectModal: bool
    var currentSuggestion: Option<Suggestion>
    var statusMessage: Option<StatusMessage>

    /** The page after the list is loaded. */
    constructor (suggestions: seq<Suggestion>)
      ensures this.suggestions == suggestions
      ensures processingId.None? && rejectionReason == "" && !showRejectModal
      ensures currentSuggestion.None? && statusMessage.None?
    {
      this.suggestions := suggestions;
      processingId := None;
      rejectionReason := "";
      showRejectModal := false;
      currentSuggestion := None;
      statusMessage := None;
    }

    /**
     * `handleApprove(id)`: a no-op while another request is in flight;
     * otherwise one approve request, the list updated only on `success`,
     * the route's message (or the server-error text) shown, and
     * `processingId` cleared again.
     */
    method HandleApprove(id: int, reply: Reply, now: int, email: string) returns (sent: Option<ProcessRequest>)
      modifies this
      ensures old(processingId).Some? ==>
                sent.None? && suggestions == old(suggestions) && processingId == old(processingId)
                && statusMessage == old(statusMessage)
      ensures old(processingId).None? ==>
                && sent == Some(ProcessRequest(id, "approve", None))
                && processingId.None?
                && suggestions == (if reply.Reply? && reply.success then MarkApproved(old(suggestions), id, now, email)
                                  else old(suggestions))
                && statusMessage == Some(if reply.Reply? then StatusMessage(reply.message, reply.success)
                                         else StatusMessage(ServerErrorText, false))
      ensures rejectionReason == old(rejectionReason) && showRejectModal == old(showRejectModal)
      ensures currentSuggestion == old(currentSuggestion)
    {
      if processingId.Some? {
        return None;
      }
      processingId := Some(id);
      sent := Some(ProcessRequest(id, "approve", None));
      if reply.NetworkError? {
        statusMessage := Some(StatusMessage(ServerErrorText, false));
      } else if reply.success {
        suggestions := MarkApproved(suggestions, id, now, email);
        statusMessage := Some(StatusMessage(reply.message, true));
      } else {
        statusMessage := Some(StatusMessage(reply.message, false));
      }
      processingId := None;
    }

    /** `openRejectModal(s)`: remember the suggestion, clear the reason, show the modal. */
    method OpenRejectModal(s: Suggestion)
      modifies this
      ensures currentSuggestion == Some(s) && rejectionReason == "" && showRejectModal
      ensures suggestions == old(suggestions) && processingId == old(processingId)
      ensures statusMessage == old(statusMessage)
    {
      currentSuggestion := Some(s);
      rejectionReason := "";
      showRejectModal := true;
    }

    /** The reason text box. */
    method EditReason(text: string)
      modifies this
      ensures rejectionReason == text
      ensures suggestions == old(suggestions) && processingId == old(processingId)
      ensures currentSuggestion == old(currentSuggestion) && showRejectModal == old(showRejectModal)
      ensures statusMessage == old(statusMessage)
    {
      rejectionReason := text;
    }

    /**
     * `handleReject()`: a no-op without a current suggestion or while a
     * request is in flight; otherwise one reject request with the entered
     * reason or the default, the list updated and the modal closed only on
     * `success`, and `processingId` cleared again.
     */
    method HandleReject(reply: Reply, now: int, email: string) returns (sent: Option<ProcessRequest>)
      modifies this
      ensures old(currentSuggestion).None? || old(processingId).Some? ==>
                sent.None? && suggestions == old(suggestions) && processingId == old(processingId)
                && showRejectModal == old(showRejectModal) && statusMessage == old(statusMessage)
      ensures old(currentSuggestion).Some? && old(processingId).None? ==>
                var id := old(currentSuggestion).value.id;
                var reason := ReasonOrDefault(old(rejectionReason));
                && sent == Some(ProcessRequest(id, "reject", Some(reason)))
                && processingId.None?
                && suggestions == (if reply.Reply? && reply.success
                                  then MarkRejected(old(suggestions), id, now, email, reason)
                                  else old(suggestions))
                && showRejectModal == (if reply.Reply? && reply.success then false else old(showRejectModal))
                && statusMessage == Some(if reply.Reply? then StatusMessage(reply.message, reply.success)
                                         else StatusMessage(ServerErrorText, false))
      ensures rejectionReason == old(rejectionReason) && currentSuggestion == old(currentSuggestion)
    {
      if currentSuggestion.None? || processingId.Some? {
        return None;
      }
      var current := currentSuggestion.value;
      processingId := Some(current.id);
      var reason := ReasonOrDefault(rejectionReason);
      sent := Some(ProcessRequest(current.id, "reject", Some(reason)));
      if reply.NetworkError? {
        statusMessage := Some(StatusMessage(ServerErrorText, false));
      } else if reply.success {
        suggestions := MarkRejected(suggestions, current.id, now, email, reason);
        statusMessage := Some(StatusMessage(reply.message, true));
        showRejectModal := false;
      } else {
        statusMessage := Some(StatusMessage(reply.message, false));
      }
      processingId := None;
    }
  }
}
