# Feedback Manager — a Dafny model of the submission and deletion core

Feedback Manager is a WordPress plugin that collects visitor feedback through
a REST endpoint (`feedback-manager/v1/submit`), stores it in one table
(`feedback_manager`), and lets administrators list, delete and export it.
This project models the part of `feedback-manager.php` that decides what
happens to that table:

- the submission handler `handle_feedback_submission`. Its checks run in a
  fixed order and the first failure ends the request:
  1. the anti-forgery gate (form nonce, else the `X-WP-Nonce` header nonce);
  2. the field-presence check;
  3. the per-address 30-second rate limit, counted over the stored rows;
  4. the insert.
- the route argument validators for `name`, `email` and `message`;
- the client address choice `get_client_ip` and `get_user_agent`;
- the bulk delete and the sort/page normalisation in `render_admin_page`;
- the AJAX single delete `ajax_delete_feedback`.

Modules, one file each:

- `Wrappers` (`wrappers.dfy`) holds `Option`.
- `Php` (`php.dfy`) models the PHP built-ins the code relies on:
  - `empty()` on strings, where "0" is empty;
  - `strlen` as the number of bytes of the UTF-8 encoding;
  - array lookup.
- `WordPress` (`wordpress.dfy`) is a record of opaque functions standing for
  `wp_verify_nonce`, `is_email` and `sanitize_text_field`.
- `Storage` (`storage.dfy`) holds the row shape and two specification functions:
  - `RecentCount` is the rate-limit `COUNT(*)`;
  - `Without` is `DELETE ... WHERE id IN (...)`.
  It also holds the lemmas that give these two their meaning.
- `RouteArgs`, `ClientInfo` and `AdminList` hold the pure selections and
  arithmetic.
- `Feedback` (`feedback.dfy`) holds the plugin object as the class
  `FeedbackManager`. Its fields are the table's rows and the table's next
  AUTO_INCREMENT value. Its methods are the three handlers that change the
  table, and the three `$wpdb` calls they make (`CountRecentSubmissions`,
  `InsertRow`, `DeleteWhereIdIn`). The submission handler and the AJAX delete are proved against
  functions that state their outcome (`SubmissionOutcome`, `AjaxDeleteOutcome`).
  `RenderAdminPage` states its outcome directly in its postconditions.

The class invariant `Valid` says three things:
- ids are positive and below the counter;
- ids are strictly ascending in storage order;
- every stored row has a non-empty name, email and message.
Every handler preserves it.

Some inputs are parameters:
- the clock (`now`, in whole seconds, shared by `NOW()` and the `created_at` default);
- the current user's capability (`isAdmin`);
- whether the database accepts an insert or a delete (`insertSucceeds`, `deleteSucceeds`).

Absent request parameters, headers and `$_SERVER` entries (PHP `null`) are read as "". Every use of such a value goes through `empty()` or is stored as a string.

Behaviour of the code worth knowing:
- Lengths are checked in bytes (`strlen`), not characters, and on the raw value before any sanitizer trims it. 128 copies of "é" are 128 characters but 256 bytes, so the name is refused (`RouteArgs.NameLimitCountsBytes`).
- `is_email` alone decides the email; the route sets no length bound of its own.
- Every empty field gives the one `missing_fields` error.
- The value "0" counts as missing, because PHP's `empty("0")` is true.
- The bulk delete shows its success notice whenever the id list is non-empty. It does so even when no listed id exists and even when the query fails.
- The whole `X-Forwarded-For` header is used as the address, not its first entry.

## Model

| member | source | states |
|---|---|---|
| `Php.Empty` | feedback-manager.php:220 | PHP `empty()` on a string: "" and "0" are empty, no string of two or more characters is |
| `Php.Strlen` | feedback-manager.php:156 | `strlen` of a text lies between its number of characters and four times that number |
| `Php.StrlenAscii` | feedback-manager.php:156 | on ASCII text `strlen` equals the number of characters |
| `Php.StrlenTwoByte` | feedback-manager.php:172 | text made only of two-byte characters has `strlen` twice its character count |
| `RouteArgs.ValidName` | feedback-manager.php:155-157 | an accepted name is non-empty and has at most 255 characters; every non-empty name of at most 63 characters is accepted; on ASCII it is accepted iff non-empty and at most 255 characters |
| `RouteArgs.ValidMessage` | feedback-manager.php:171-173 | the same for messages with the 5000-byte bound: accepted implies at most 5000 characters, at most 1250 characters always fits, exact on ASCII |
| `RouteArgs.ValidEmail` | feedback-manager.php:163-165 | the email is accepted exactly when `is_email` holds; no length bound is added |
| `RouteArgs.NameLimitCountsBytes` | feedback-manager.php:155-157 | 128 copies of "é" are refused (256 bytes), "0" is refused as empty, "Ana" is accepted |
| `Storage.RecentCount` | feedback-manager.php:230-235 | the rate-limit count never exceeds the number of stored rows |
| `Storage.RecentCountPositive` | feedback-manager.php:228-237 | the count is positive iff some stored row has the client's address and `created_at > now - 30` |
| `Storage.Without` | feedback-manager.php:330 | a delete never adds rows |
| `Storage.WithoutMember` | feedback-manager.php:326-330 | a row survives the delete iff it was stored and its id is not listed |
| `Storage.WithoutIds` | feedback-manager.php:326-330 | the ids left are exactly the stored ids minus the listed ones; unknown ids are ignored |
| `Storage.WithoutAscending` | feedback-manager.php:330 | a delete keeps the ascending id order of the table |
| `Storage.WithoutNoneListed` | feedback-manager.php:330 | a delete whose ids are all absent leaves the table unchanged |
| `Storage.WithoutDropsListed` | feedback-manager.php:330 | a delete listing a stored id removes at least one row |
| `Storage.RemovesIffPresent` | feedback-manager.php:427-433 | deleting one id removes a row iff a row with that id is stored, and otherwise changes nothing |
| `Storage.IdsCount` | feedback-manager.php:110-117 | with unique ascending ids the table has one row per id |
| `Storage.WithoutCount` | feedback-manager.php:326-330 | the number of rows removed is the number of listed ids that are present (ids [3, 7, 999] with only 3 and 7 stored remove two rows) |
| `ClientInfo.FirstNonEmpty` | feedback-manager.php:574-580 | reference priority choice: the index of the first non-empty candidate, all earlier ones being empty |
| `ClientInfo.ClientIp` | feedback-manager.php:571-583 | the address is the sanitized `HTTP_CLIENT_IP` if non-empty, else `HTTP_X_FORWARDED_FOR` if non-empty, else `REMOTE_ADDR` |
| `ClientInfo.ClientIpIsFirstNonEmpty` | feedback-manager.php:571-583 | the address agrees with the reference priority choice, falling back to `REMOTE_ADDR` |
| `ClientInfo.UserAgent` | feedback-manager.php:588-590 | the sanitized user-agent header when it is set, "" when it is absent |
| `AdminList.Whitelist` | feedback-manager.php:347-355 | the result is always in the whitelist, equals the value when it is allowed and the default otherwise |
| `AdminList.CurrentPage` | feedback-manager.php:337 | the current page is at least 1, equal to `paged` when that is at least 1 |
| `AdminList.Offset` | feedback-manager.php:338 | for pages from 1 the offset is non-negative, a multiple of 20, and page `p` ends where page `p + 1` starts (`offset + 20 == p * 20`) |
| `AdminList.TotalPages` | feedback-manager.php:398 | the page count is the least number of 20-row pages covering all items |
| `AdminList.Normalise` | feedback-manager.php:336-355 | sort column in {id, name, email, created_at} (default created_at), direction in {ASC, DESC} (default DESC), page `max(1, paged)` (1 when `paged` is absent), offset `(page - 1) * 20` |
| `AdminList.ItemPage` | feedback-manager.php:337-338 | item `k` of `total` lies on page `k / 20 + 1`, and that page is between 1 and the page count |
| `AdminList.PageOfItemUnique` | feedback-manager.php:337-338 | any page from 1 on that holds item `k` is page `k / 20 + 1`, so pages do not overlap |
| `Feedback.SubmitError.Code` | feedback-manager.php:207-263 | every error carries a non-empty machine-readable code of lower-case letters and underscores (`invalid_nonce`, `missing_fields`, `rate_limit`, `database_error`) |
| `Feedback.SubmitError.Status` | feedback-manager.php:207-263 | every error status lies in 400..599, and only `database_error` is a 5xx status (403, 400, 429, 500) |
| `Feedback.SubmitError.Message` | feedback-manager.php:207-263 | every error carries a human-readable sentence: capitalised and ending in a full stop |
| `Feedback.ErrorsDistinguishable` | feedback-manager.php:207-263 | two different errors differ in code, in status and in message |
| `Feedback.SubmitResponse.Status` | feedback-manager.php:206-269 | status 200 exactly on success; every rejection carries its error's status, within 400..599 |
| `Feedback.SubmitResponse.Message` | feedback-manager.php:206-269 | "Thank you for your feedback!" on success, otherwise the error's own message |
| `Feedback.NonceVerified` | feedback-manager.php:190-204 | with both tokens empty the gate fails; it passes only if the form nonce verifies for `feedback_form_nonce` or the header nonce for `wp_rest`, and it passes whenever either non-empty token verifies |
| `Feedback.FieldMissing` | feedback-manager.php:220 | a field that is "" or "0" counts as missing; fields of two or more characters never do |
| `Feedback.SubmissionOutcome` | feedback-manager.php:186-270 | 403 `invalid_nonce` iff neither nonce verifies, whatever the fields; 400 `missing_fields` iff verified and a field is empty; 429 `rate_limit` iff those pass and a stored row from the address is within 30 s; 500 `database_error` iff the insert fails after that; success otherwise |
| `Feedback.ResubmissionRateLimited` | feedback-manager.php:228-256 | after an accepted submission from an address, any valid request from that address within the next 30 seconds is rate limited |
| `Feedback.WindowElapsedAccepted` | feedback-manager.php:228-243 | when every stored row from the address is at least 30 seconds old, a valid request is accepted if the insert succeeds |
| `Feedback.RequestedId` | feedback-manager.php:420 | the posted id, or 0 when `id` is absent |
| `Feedback.AjaxDeleteOutcome` | feedback-manager.php:413-434 | nonce failure dies; non-admin gets "Permission denied."; id ≤ 0 gets "Invalid feedback ID."; success iff the delete succeeds and a row with the id is stored; "Failed to delete feedback." otherwise |
| `Feedback.FeedbackManager.constructor` | feedback-manager.php:109-120 | a new table is empty, valid, with the counter at 1 |
| `Feedback.FeedbackManager.CountRecentSubmissions` | feedback-manager.php:229-235 | the scan returns the rate-limit count, positive iff a recent row from the address is stored |
| `Feedback.FeedbackManager.InsertRow` | feedback-manager.php:246-256 | on success exactly one row, under the next id, is appended and the counter advances; on failure nothing changes |
| `Feedback.FeedbackManager.DeleteWhereIdIn` | feedback-manager.php:328-330 | the new table is `Without(old table, ids)` and the count returned is the number of rows removed |
| `Feedback.FeedbackManager.HandleFeedbackSubmission` | feedback-manager.php:186-270 | the response is `SubmissionOutcome`; on success exactly one row is appended with the given fields, the client address and agent, a fresh id and `created_at = now`; on every error the table is unchanged |
| `Feedback.FeedbackManager.RenderAdminPage` | feedback-manager.php:318-355 | non-admins are refused and a failing bulk-delete nonce is refused, both without change; a bulk delete with ids removes exactly those rows when the database accepts the query, and the notice shows either way; the listing uses the normalised query and the row count |
| `Feedback.FeedbackManager.AjaxDeleteFeedback` | feedback-manager.php:413-434 | the reply is `AjaxDeleteOutcome`; on success exactly the requested id is removed, otherwise the table is unchanged |

## Left out

- Nonce cryptography (`wp_verify_nonce`, `check_admin_referer`, `check_ajax_referer`): each check is the opaque `verifyNonce(token, action)`. A failed referer check ends the request, modelled as a distinct reply.
- `is_email` and the `sanitize_*` functions are opaque; `RouteArgs.ValidEmail` only consults `is_email`.
- The WordPress REST dispatcher is not part of this model. It checks required parameters, runs the validators and sanitizers before the handler, and produces its own 400 response. The handler is modelled on the values it receives. So the route validators are separate predicates and are not composed with the handler.
- Request values are sequences of Unicode characters and `strlen` is computed from their UTF-8 encoding. PHP works on raw bytes, so a raw request value whose bytes are not valid UTF-8 is outside the model.
- `intval` is not modelled: `feedback_ids`, `id` and `paged` are taken as already converted integers.
- PHP's 64-bit integer width is not modelled. `intval` caps `paged` at `PHP_INT_MAX`, and `($current_page - 1) * $per_page` then overflows to a float; `AdminList.CurrentPage` and `AdminList.Offset` use unbounded integers, so their results agree with PHP only for pages below `PHP_INT_MAX / 20`.
- The admin search and date filters are left out. They depend on SQL `LIKE` collation and MySQL calendar functions. The listing's item count is therefore the whole table, as when both filters are empty.
- The `SELECT` that fetches one page of rows, with its SQL ordering, is left out. Only its parameters are modelled.
- The `ip_address` comparison is exact string equality. The column collation's case and trailing-space rules are not modelled.
- A failure of the rate-limit `SELECT` itself is not modelled. The query is assumed to answer.
- The conditions under which MySQL refuses an insert or delete are not modelled. An example is an address longer than the 45-character column. These outcomes are the parameters `insertSucceeds` and `deleteSucceeds`.
- `Feedback.FeedbackManager.InsertRow`: a refused insert leaves the AUTO_INCREMENT counter unchanged. MySQL may consume a value on a failed insert; ids stay fresh either way.
- The race between the rate-limit check and the insert is not modelled. It is a concurrency issue and the model is sequential.
- Translation by `__()` is not modelled: every message is its English text, and `Feedback.SubmitError.Message` promises its sentence shape only for that text.
- CSV export, shortcode form rendering, asset enqueueing, the admin template and the JavaScript are left out. They are output and UI.
- The singleton, hook wiring, activation and deactivation, and table creation are left out, apart from the row shape.
