/**
 * The plugin object and the three request handlers that change the feedback
 * table: the REST submission handler, the bulk delete at the top of the admin
 * page, and the AJAX single delete. Each handler is a method on the table
 * owner. The submission handler and the AJAX delete are proved against
 * functions that state their outcome (`SubmissionOutcome`,
 * `AjaxDeleteOutcome`); `RenderAdminPage` states its outcome directly in its
 * postconditions.
 */
module Feedback {
  import opened Php
  import opened Wrappers
  import opened Storage
  import WordPress
  import ClientInfo
  import AdminList

  const FormNonceAction: string := "feedback_form_nonce"
  const RestNonceAction: string := "wp_rest"
  const BulkDeleteNonceAction: string := "bulk_delete_feedback"
  const DeleteNonceAction: string := "delete_feedback_nonce"
  const BulkDeleteCommand: string := "bulk_delete"

  // ---------------------------------------------------------------- submission

  /**
   * A submission as the handler reads it: the route parameters (after the
   * route's sanitizers) and the `X-WP-Nonce` header; an absent value is "".
   */
  datatype SubmitRequest = SubmitRequest(
    nonce: string,
    restNonce: string,
    name: string,
    email: string,
    message: string)

  /** The typed errors of the submission endpoint. */
  datatype SubmitError = InvalidNonce | MissingFields | RateLimit | DatabaseError
  {
    /** A machine-readable code: non-empty, lower-case letters and underscores only. */
    function Code(): (code: string)
      ensures |code| > 0
      ensures forall i :: 0 <= i < |code| ==> 'a' <= code[i] <= 'z' || code[i] == '_'
    {
      match this
      case InvalidNonce => "invalid_nonce"
      case MissingFields => "missing_fields"
      case RateLimit => "rate_limit"
      case DatabaseError => "database_error"
    }

    /** Only the storage failure is a server-side (5xx) status; the others are client errors. */
    function Status(): (status: nat)
      ensures 400 <= status < 600
      ensures status >= 500 <==> this == DatabaseError
    {
      match this
      case InvalidNonce => 403
      case MissingFields => 400
      case RateLimit => 429
      case DatabaseError => 500
    }

    /** A human-readable sentence: it starts with a capital letter and ends with a full stop. */
    function Message(): (message: string)
      ensures |message| > 0 && 'A' <= message[0] <= 'Z' && message[|message| - 1] == '.'
    {
      // Two literals are split in two only so that the verifier can index them;
      // each value is the single literal of feedback-manager.php:209 and :240.
      match this
      case InvalidNonce => "Security check failed. " + "Please refresh the page and try again."
      case MissingFields => "All fields are required."
      case RateLimit => "Please wait 30 seconds " + "before submitting another feedback."
      case DatabaseError => "Failed to save feedback. Please try again."
    }
  }

  /** Each error is told apart from the others by its code, its status and its message alike. */
  lemma ErrorsDistinguishable(a: SubmitError, b: SubmitError)
    requires a != b
    ensures a.Code() != b.Code() && a.Status() != b.Status() && a.Message() != b.Message()
  {
    // The codes differ in their first character and the messages in their length.
    assert a.Code()[0] != b.Code()[0];
    assert |a.Message()| != |b.Message()|;
  }

  /** `{success: true, message: ...}` with status 200, or a `WP_Error`. */
  datatype SubmitResponse = Thanks | Rejected(error: SubmitError)
  {
    /** 200 exactly on success; every rejection carries its error's 4xx or 5xx status. */
    function Status(): (status: nat)
      ensures status == 200 <==> Thanks?
      ensures Rejected? ==> 400 <= status < 600 && status == error.Status()
    {
      if Thanks? then 200 else error.Status()
    }

    /** The thank-you text on success, otherwise the error's own message. */
    function Message(): (message: string)
      ensures Thanks? ==> message == "Thank you for your feedback!"
      ensures Rejected? ==> message == error.Message()
    {
      if Thanks? then "Thank you for your feedback!" else error.Message()
    }
  }

  /** The anti-forgery gate: the form nonce verifies, or failing that the REST header nonce does. */
  function NonceVerified(req: SubmitRequest, wp: WordPress.Api): (ok: bool)
    ensures Empty(req.nonce) && Empty(req.restNonce) ==> !ok
    ensures ok ==> wp.verifyNonce(req.nonce, FormNonceAction) || wp.verifyNonce(req.restNonce, RestNonceAction)
    ensures !Empty(req.nonce) && wp.verifyNonce(req.nonce, FormNonceAction) ==> ok
    ensures !Empty(req.restNonce) && wp.verifyNonce(req.restNonce, RestNonceAction) ==> ok
  {
    (!Empty(req.nonce) && wp.verifyNonce(req.nonce, FormNonceAction))
    || (!Empty(req.restNonce) && wp.verifyNonce(req.restNonce, RestNonceAction))
  }

  /** Some field is empty in PHP's sense; every such case gives the one `missing_fields` error. */
  function FieldMissing(req: SubmitRequest): (missing: bool)
    ensures req.name == "" || req.email == "" || req.message == "" ==> missing
    ensures req.name == "0" || req.email == "0" || req.message == "0" ==> missing
    ensures |req.name| >= 2 && |req.email| >= 2 && |req.message| >= 2 ==> !missing
  {
    Empty(req.name) || Empty(req.email) || Empty(req.message)
  }

  /** The row an accepted submission stores. */
  function NewRow(id: int, req: SubmitRequest, ip: string, userAgent: string, now: int): Row
  {
    Row(id, req.name, req.email, req.message, ip, userAgent, now)
  }

  /**
   * The response of the submission handler for the given stored rows, client
   * address and clock, and whether the database accepts the insert. The four
   * checks run in order and the first failure decides; the rate limit is
   * the `COUNT(*)` query of the plugin, which is positive exactly when a
   * stored row from the same address lies inside the window.
   */
  function SubmissionOutcome(
    req: SubmitRequest, wp: WordPress.Api, ip: string, rows: seq<Row>, now: int, insertSucceeds: bool
  ): (resp: SubmitResponse)
    ensures resp == Rejected(InvalidNonce) <==> !NonceVerified(req, wp)
    ensures resp == Rejected(MissingFields) <==> NonceVerified(req, wp) && FieldMissing(req)
    ensures resp == Rejected(RateLimit) <==>
      NonceVerified(req, wp) && !FieldMissing(req) && SubmittedWithin(rows, ip, now)
    ensures resp == Rejected(DatabaseError) <==>
      NonceVerified(req, wp) && !FieldMissing(req) && !SubmittedWithin(rows, ip, now) && !insertSucceeds
    ensures resp == Thanks <==>
      NonceVerified(req, wp) && !FieldMissing(req) && !SubmittedWithin(rows, ip, now) && insertSucceeds
  {
    RecentCountPositive(rows, ip, now);
    if !NonceVerified(req, wp) then Rejected(InvalidNonce)
    else if FieldMissing(req) then Rejected(MissingFields)
    else if RecentCount(rows, ip, now) > 0 then Rejected(RateLimit)
    else if !insertSucceeds then Rejected(DatabaseError)
    else Thanks
  }

  /**
   * Once a submission from `ip` has been stored at `earlier`, any later request
   * from the same address that passes the nonce and field checks before
   * `earlier + 30` is rate limited, whatever its fields and whatever the database
   * would do.
   */
  lemma ResubmissionRateLimited(
    first: SubmitRequest, second: SubmitRequest, wp: WordPress.Api, ip: string, userAgent: string,
    rows: seq<Row>, id: int, earlier: int, now: int, insertSucceeds: bool)
    requires SubmissionOutcome(first, wp, ip, rows, earlier, true) == Thanks
    requires now < earlier + RateWindow
    requires NonceVerified(second, wp) && !FieldMissing(second)
    ensures SubmissionOutcome(second, wp, ip, rows + [NewRow(id, first, ip, userAgent, earlier)], now, insertSucceeds)
      == Rejected(RateLimit)
  {
    var stored := rows + [NewRow(id, first, ip, userAgent, earlier)];
    assert IsRecentFrom(stored[|rows|], ip, now);
  }

  /**
   * When every stored row from `ip` is at least 30 seconds old, a request that
   * passes the nonce and field checks is accepted if the insert succeeds.
   */
  lemma WindowElapsedAccepted(req: SubmitRequest, wp: WordPress.Api, ip: string, rows: seq<Row>, now: int)
    requires NonceVerified(req, wp) && !FieldMissing(req)
    requires forall i :: 0 <= i < |rows| && rows[i].ipAddress == ip ==> rows[i].createdAt + RateWindow <= now
    ensures SubmissionOutcome(req, wp, ip, rows, now, true) == Thanks
  {
  }

  // ---------------------------------------------------------------- admin deletes

  /** The `$_POST` fields of the admin page, `feedback_ids` already passed through `intval`. */
  datatype AdminPost = AdminPost(action: Option<string>, wpnonce: string, feedbackIds: seq<int>)

  /** The admin page: refused by `wp_die`, refused by `check_admin_referer`, or rendered. */
  datatype AdminPage =
    | AccessDenied
    | RefererRejected
    | Listing(deletedNotice: bool, query: AdminList.ListQuery, totalItems: nat, totalPages: nat)

  predicate BulkDeleteRequested(post: AdminPost)
  {
    post.action == Some(BulkDeleteCommand)
  }

  const PermissionDeniedText: string := "Permission denied."
  const InvalidIdText: string := "Invalid feedback ID."
  const DeleteFailedText: string := "Failed to delete feedback."
  const DeletedText: string := "Feedback deleted successfully."

  /** The AJAX reply: `check_ajax_referer` dies with -1, or a JSON error or success body. */
  datatype AjaxReply = RefererDie | JsonError(message: string) | JsonSuccess(message: string)

  /** `intval($_POST['id'])`, or 0 when `id` is absent. */
  function RequestedId(postId: Option<int>): (id: int)
    ensures postId.None? ==> id == 0
    ensures postId.Some? ==> id == postId.value
  {
    if postId.Some? then postId.value else 0
  }

  /**
   * The reply of the AJAX delete. The checks run in order: nonce, capability,
   * a positive id; then the reply is a success exactly when the database call
   * succeeded and removed a row, that is when a row with that id was stored.
   */
  function AjaxDeleteOutcome(nonceValid: bool, isAdmin: bool, id: int, rows: seq<Row>, deleteSucceeds: bool): (reply: AjaxReply)
    ensures reply == RefererDie <==> !nonceValid
    ensures reply == JsonError(PermissionDeniedText) <==> nonceValid && !isAdmin
    ensures reply == JsonError(InvalidIdText) <==> nonceValid && isAdmin && id <= 0
    ensures reply == JsonSuccess(DeletedText) <==> nonceValid && isAdmin && id > 0 && deleteSucceeds && HasId(rows, id)
    ensures reply == JsonError(DeleteFailedText) <==>
      nonceValid && isAdmin && id > 0 && !(deleteSucceeds && HasId(rows, id))
  {
    if !nonceValid then RefererDie
    else if !isAdmin then JsonError(PermissionDeniedText)
    else if id <= 0 then JsonError(InvalidIdText)
    else
      var removed := |rows| - |Without(rows, [id])|;
      RemovesIffPresent(rows, id);
      if deleteSucceeds && removed > 0 then JsonSuccess(DeletedText) else JsonError(DeleteFailedText)
  }

  // ---------------------------------------------------------------- the plugin object

  /** The plugin object together with the `feedback_manager` table it owns. */
  class FeedbackManager {
    var rows: seq<Row>
    /** The table's next AUTO_INCREMENT value. */
    var nextId: int

    /** Ids are positive, below the counter and ascending; every stored row is complete. */
    ghost predicate Valid()
      reads this
    {
      && nextId >= 1
      && IdsAscending(rows)
      && forall r :: r in rows ==> 1 <= r.id < nextId && Complete(r)
    }

    /** A freshly created, empty table. */
    constructor ()
      ensures Valid() && rows == [] && nextId == 1
    {
      rows := [];
      nextId := 1;
    }

    /** The rate-limit query `SELECT COUNT(*) ... WHERE ip_address = ip AND created_at > NOW() - 30 s`. */
    method CountRecentSubmissions(ip: string, now: int) returns (n: nat)
      ensures n == RecentCount(rows, ip, now)
      ensures n > 0 <==> SubmittedWithin(rows, ip, now)
    {
      n := 0;
      var i := 0;
      while i < |rows|
        invariant 0 <= i <= |rows|
        invariant n == RecentCount(rows[..i], ip, now)
      {
        assert rows[..i + 1][..i] == rows[..i];
        if IsRecentFrom(rows[i], ip, now) {
          n := n + 1;
        }
        i := i + 1;
      }
      assert rows[..|rows|] == rows;
      RecentCountPositive(rows, ip, now);
    }

    /** `$wpdb->insert`: appends one row under the next id, or changes nothing when the database refuses. */
    method InsertRow(row: Row, succeeds: bool) returns (ok: bool)
      requires Valid() && Complete(row) && row.id == nextId
      modifies this
      ensures Valid()
      ensures ok == succeeds
      ensures ok ==> rows == old(rows) + [row] && nextId == old(nextId) + 1
      ensures !ok ==> rows == old(rows) && nextId == old(nextId)
    {
      if !succeeds {
        return false;
      }
      forall i | 0 <= i < |rows|
        ensures rows[i].id < row.id
      {
        assert rows[i] in rows;
      }
      rows := rows + [row];
      nextId := nextId + 1;
      ok := true;
    }

    /** `DELETE FROM ... WHERE id IN (ids)`; returns the number of rows removed. */
    method DeleteWhereIdIn(ids: seq<int>) returns (affected: nat)
      requires Valid()
      modifies this
      ensures Valid()
      ensures rows == Without(old(rows), ids) && nextId == old(nextId)
      ensures affected == |old(rows)| - |rows|
    {
      var kept: seq<Row> := [];
      var i := 0;
      while i < |rows|
        invariant 0 <= i <= |rows|
        invariant kept == Without(rows[..i], ids)
      {
        assert rows[..i + 1][..i] == rows[..i];
        if rows[i].id !in ids {
          kept := kept + [rows[i]];
        }
        i := i + 1;
      }
      assert rows[..|rows|] == rows;
      WithoutMember(rows, ids);
      WithoutAscending(rows, ids);
      affected := |rows| - |kept|;
      rows := kept;
    }

    /**
     * `handle_feedback_submission`: answers as `SubmissionOutcome` says and
     * stores exactly one new row, under a fresh id and stamped `now`, when it
     * answers `Thanks`; on every error the table is left as it was.
     */
    method HandleFeedbackSubmission(
      req: SubmitRequest, server: map<string, string>, wp: WordPress.Api, now: int, insertSucceeds: bool
    ) returns (resp: SubmitResponse)
      requires Valid()
      modifies this
      ensures Valid()
      ensures resp == SubmissionOutcome(req, wp, ClientInfo.ClientIp(server, wp), old(rows), now, insertSucceeds)
      ensures resp.Thanks? ==>
        && rows == old(rows) + [NewRow(old(nextId), req, ClientInfo.ClientIp(server, wp), ClientInfo.UserAgent(server, wp), now)]
        && nextId == old(nextId) + 1
      ensures !resp.Thanks? ==> rows == old(rows) && nextId == old(nextId)
    {
      var verified := false;
      if !Empty(req.nonce) && wp.verifyNonce(req.nonce, FormNonceAction) {
        verified := true;
      }
      if !verified {
        if !Empty(req.restNonce) && wp.verifyNonce(req.restNonce, RestNonceAction) {
          verified := true;
        }
      }
      if !verified {
        return Rejected(InvalidNonce);
      }

      if Empty(req.name) || Empty(req.email) || Empty(req.message) {
        return Rejected(MissingFields);
      }

      var ip := ClientInfo.ClientIp(server, wp);
      var recent := CountRecentSubmissions(ip, now);
      if recent > 0 {
        return Rejected(RateLimit);
      }

      var row := NewRow(nextId, req, ip, ClientInfo.UserAgent(server, wp), now);
      var inserted := InsertRow(row, insertSucceeds);
      if !inserted {
        return Rejected(DatabaseError);
      }
      resp := Thanks;
    }

    /**
     * The table-changing part of `render_admin_page` and the listing
     * parameters it then computes: non-administrators are refused; a bulk
     * delete with a failing referer nonce is refused; a bulk delete with a
     * non-empty id list removes exactly the listed rows (nothing if the
     * database refuses) and shows the success notice either way.
     */
    method RenderAdminPage(
      isAdmin: bool, post: AdminPost, get: AdminList.ListRequest, wp: WordPress.Api, deleteSucceeds: bool
    ) returns (page: AdminPage)
      requires Valid()
      modifies this
      ensures Valid() && nextId == old(nextId)
      ensures page == AccessDenied <==> !isAdmin
      ensures page == RefererRejected <==>
        isAdmin && BulkDeleteRequested(post) && !wp.verifyNonce(post.wpnonce, BulkDeleteNonceAction)
      ensures !page.Listing? ==> rows == old(rows)
      ensures page.Listing? ==>
        var deleting := BulkDeleteRequested(post) && |post.feedbackIds| > 0;
        && page.deletedNotice == deleting
        && rows == (if deleting && deleteSucceeds then Without(old(rows), post.feedbackIds) else old(rows))
        && page.query == AdminList.Normalise(get, wp)
        && page.totalItems == |rows|
        && page.totalPages == AdminList.TotalPages(|rows|)
    {
      if !isAdmin {
        return AccessDenied;
      }
      var notice := false;
      if BulkDeleteRequested(post) {
        if !wp.verifyNonce(post.wpnonce, BulkDeleteNonceAction) {
          return RefererRejected;
        }
        if |post.feedbackIds| > 0 {
          if deleteSucceeds {
            var _ := DeleteWhereIdIn(post.feedbackIds);
          }
          notice := true;
        }
      }
      var query := AdminList.Normalise(get, wp);
      var totalItems := |rows|;
      page := Listing(notice, query, totalItems, AdminList.TotalPages(totalItems));
    }

    /**
     * `ajax_delete_feedback`: replies as `AjaxDeleteOutcome` says; on success
     * exactly the row with the requested id is gone, otherwise the table is
     * unchanged (a missing id included).
     */
    method AjaxDeleteFeedback(
      nonce: string, isAdmin: bool, postId: Option<int>, wp: WordPress.Api, deleteSucceeds: bool
    ) returns (reply: AjaxReply)
      requires Valid()
      modifies this
      ensures Valid() && nextId == old(nextId)
      ensures reply == AjaxDeleteOutcome(
        wp.verifyNonce(nonce, DeleteNonceAction), isAdmin, RequestedId(postId), old(rows), deleteSucceeds)
      ensures rows == if reply.JsonSuccess? then Without(old(rows), [RequestedId(postId)]) else old(rows)
    {
      if !wp.verifyNonce(nonce, DeleteNonceAction) {
        return RefererDie;
      }
      if !isAdmin {
        return JsonError(PermissionDeniedText);
      }
      var id := RequestedId(postId);
      if id <= 0 {
        return JsonError(InvalidIdText);
      }
      if !deleteSucceeds {
        return JsonError(DeleteFailedText);
      }
      ghost var before := rows;
      RemovesIffPresent(before, id);
      var affected := DeleteWhereIdIn([id]);
      if affected > 0 {
        reply := JsonSuccess(DeletedText);
      } else {
        reply := JsonError(DeleteFailedText);
      }
    }
  }
}
