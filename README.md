# SafeVault admin console: a Dafny model of its state machines

The admin console is a React single-page application. Administrators use it to
review user accounts, deposits, withdrawals and notifications, all held by a
REST backend. Nearly all of the console is rendering. Under the JSX sit a few
small state machines, and this project models them and proves what they do:

- **Session.** The `AuthProvider` holds the signed-in administrator and a
  loading flag. The credential (`adminToken`) lives in `localStorage`.
- **HTTP interceptors.** The request interceptor attaches the credential as a
  bearer token, in the form of section 2.1 of RFC 6750. The response
  interceptor drops the credential on a 401.
- **Request descriptors.** Each `adminApi` member maps its arguments to a verb,
  a path, query pairs and a JSON body.
- **Paginated list views.** The users, deposits, withdrawals and notifications
  pages each hold a zero-based page, a page size, an optional filter, rows, a
  total, an error banner and a loading flag.
- **Action dialogs.** Each page runs open → fill in → guarded submit → success
  (close, clear, refetch) or failure (keep everything, report).
- **Notification menu.** The menu in the application frame keeps the first
  page of ten notifications the backend returns, and an unread counter.
- **Account approval queue.** Accounts waiting for approval, with the TRC-20
  address check.

### How the model is built

Each component becomes a Dafny `class` whose fields are its `useState` hooks.
Each handler becomes a `method` that runs as one atomic step.

- **Backend replies are parameters.** A reply is `Reply<T> = Ok(data) |
  Failed(status, message)`.
- **Calls are an out-parameter.** Every handler returns `calls`, the `adminApi`
  members it invoked, in order. `Api.RequestOf` maps each call to the HTTP
  request it sends.
- **Refetches run inside the step.** A handler that refetches after success
  takes the refetch's reply as a second parameter (`refetch`). The list then
  settles inside the same step.
- **The in-flight marker is an out-parameter.** A flag such as
  `processingDeposit` or `actionLoading` is visible only while a request is
  outstanding. It is returned as `busy`.
- **The list state is shared.** It is one value type, `ListView.ListState`,
  which every page keeps in a field and reassigns.
- **The snackbar keeps only its severity.** It is modelled as
  `Option<Severity>`; the message text is left out.

Deposits and withdrawals differ only in the ledger they call, so
`Reviews.ReviewPage` models both, with the ledger as a constant.

### Where the code and its documentation differ

The model follows the code in each case:

- **`adminApi` is missing five members.** `src/services/api.ts` does not define
  `adjustUserBalance`, `updateUserTrcAddress`, `getPendingUsers`, `approveUser`
  or `rejectUser`, yet the users page and the approval queue call them. The
  model keeps these calls as `Api.Call` values with a backend reply, as the
  pages use them. `Api.RequestOf` gives `None` for them, because no path, verb
  or body exists for them in the source. If the bundle were built without type
  checking, each of these calls would throw a `TypeError`, and the handler's
  catch branch would run; that is the model's `Failed` reply.
- **The response interceptor also sees the login call.** A 401 from a failed
  login therefore removes a credential stored earlier, and
  `Auth.AuthProvider.Login` states this.
- **The users page's Cancel button does not clear the selected user.** The
  dialog's `onClose` only closes the dialog.
- **The approval dialog's `onClose` keeps the typed TRC address.** Only Cancel
  clears it.
- **An invalid TRC address in the approval queue returns from inside the
  `try`.** The `finally` therefore still resets `actionLoading`, which was
  never raised.
- **A successful rejection in the approval queue leaves the error banner as it
  was.** A successful approval clears it.
- **A success reply can still take a catch branch.** The handlers of the users
  page read from the payload before they close the dialog: the reset reads
  `newPassword`, the balance adjustment `user.balanceChange.toFixed(2)` and the
  TRC update `user.trcAddress`. A 2xx reply for which that read throws takes
  the error branch (`Users.UserPayload`).
- **A list fetch can succeed without `pagination`.** The rows have then already
  been replaced when reading `pagination.totalItems` throws. The error banner is
  set and the old total is kept (`ListView.ListState.Settle`).

## Model

| member | source | states |
|---|---|---|
| Http.Authorize | src/services/api.ts:16-23 | Headers are added to exactly when a non-empty token is stored and the config has headers. The `Authorization` value then reads back as the stored token in bearer form, no other header changes, and no header is removed. Otherwise the headers are untouched. |
| Http.BearerRoundTrip | src/services/api.ts:20 | The bearer form `Bearer <token>` reads back as the token it was built from. |
| Http.InterceptRequest | src/services/api.ts:16-23 | The request interceptor leaves the config's headers as `Authorize` of the old headers and the stored token. |
| Http.InterceptResponse | src/services/api.ts:30-40 | Every reply is passed on unchanged. A 401 removes the stored credential and changes nothing else in storage. |
| Http.UnauthorizedDropsCredential | src/services/api.ts:33-38 | After a 401 the next request goes out without a credential. Any other outcome leaves the stored credential as it was. |
| Api.ListQuery | src/services/api.ts:126-131 | A list query always has `page` and `limit`, defaulting to 1 and 20, in that order. It has the extra parameter exactly when that is a non-empty string. |
| Api.RequestOf | src/services/api.ts:114-219 | Every `adminApi` member maps to one request, and only the five members `adminApi` lacks map to none. Only the four list reads carry query parameters. No GET carries a body. Every path is absolute. |
| Api.UsersQuery | src/services/api.ts:126-133 | The user list is a GET on /admin/users. It carries page and limit, and carries `search` only for a non-empty term, with that term. |
| Api.LedgerQuery | src/services/api.ts:148-173 | The deposit and withdrawal lists are GETs on their own paths. They carry page and limit, and carry `status` only when it is non-empty. |
| Api.NotificationsQuery | src/services/api.ts:184-190 | The notification list sends `page` and `limit` and no other parameter. |
| Api.WirePageReadBack | src/services/api.ts:126-129 | The backend parses back from the `page` parameter exactly the page number the list call was given. |
| Api.DecisionRequest | src/services/api.ts:157-181 | A decision is a PUT. Its body is `{adminNotes}`. Its path reads back as /admin/{deposit or withdraw}/{id}/{approve or reject}. |
| Api.UserActionRequest | src/services/api.ts:135-145 | Block, unblock and reset-password are body-less PUTs. Their paths read back as /admin/users/{id}/block, unblock or reset-password. |
| Text.IntToStringRoundTrip | src/services/api.ts:128-129 | The decimal rendering of `page.toString()` parses back to the same integer, negative ones included. |
| Text.TrimEmptyIffAllSpace | src/pages/PendingUsersPage.tsx:100 | `trim()` yields the empty string exactly when the input is all white space. |
| Records.TopicOf | src/components/Layout.tsx:120-126 | A wire name read back as a notification type is that type's name. |
| Records.TopicNameRoundTrip | src/pages/NotificationsPage.tsx:66-70 | Each of the four notification types survives the trip to its wire name and back, so the names are distinct. |
| Auth.AuthProvider.constructor | src/contexts/AuthContext.tsx:27-28 | The provider starts with no user and loading. |
| Auth.AuthProvider.Mount | src/contexts/AuthContext.tsx:30-39 | With no non-empty stored token, loading ends with no request, and the user and storage are unchanged. Otherwise the profile is verified. |
| Auth.AuthProvider.VerifyToken | src/contexts/AuthContext.tsx:41-59 | With a token, the profile is requested. Success sets the user and keeps the token. Failure removes the token and clears the user. Loading ends in every case, and the route gate then shows content or redirects to login. |
| Auth.AuthProvider.Login | src/contexts/AuthContext.tsx:61-79 | It sends one login call. Success stores the returned token and sets the returned user. Failure reports failure and keeps the user, and storage changes only by the interceptor's 401 rule. Loading ends in both cases. |
| Auth.AuthProvider.Logout | src/contexts/AuthContext.tsx:81-84 | It removes the credential and the user with no backend call, and the session is no longer authenticated. |
| ListView.ListState.Settle | src/pages/UsersPage.tsx:67-80 | The error is cleared exactly when the reply is good and has a total. Rows come from any good reply, otherwise the old rows are kept. The total changes only with the error cleared. Loading ends and the cursor is untouched. |
| Inbox.MarkRead | src/components/Layout.tsx:106-112 | Every entry carrying the id becomes read, and every other entry, the length and the order are unchanged. |
| Inbox.MarkAllRead | src/components/Layout.tsx:320-322 | Each entry becomes read, with the length and order kept. |
| Inbox.MarkAllReadLeavesNoUnread | src/components/Layout.tsx:319-323 | After marking all read, no entry is unread, so a counter of 0 agrees with the list. |
| Inbox.UnreadEntries | src/components/Layout.tsx:94 | The filter keeps every unread entry and nothing else, and is no longer than the list. |
| Inbox.UnreadEntriesMultiplicity | src/components/Layout.tsx:94 | The filter keeps each unread entry exactly as many times as the list holds it, and no read entry. |
| Inbox.UnreadCount | src/components/Layout.tsx:94 | The badge number is at most the list's length, and it is 0 exactly when every entry is read. |
| Inbox.UnreadCountIsFilterLength | src/components/Layout.tsx:94 | The entry-by-entry count equals the length of the filtered list, which is how the source computes the badge. |
| Inbox.MarkReadAbsent | src/components/Layout.tsx:106-112 | Marking an id no entry carries changes nothing. |
| Inbox.MarkReadCountsDown | src/components/Layout.tsx:104-113 | With distinct ids, marking an unread entry's id lowers the number of unread entries by exactly one. |
| Inbox.MarkEntryCountsDown | src/components/Layout.tsx:102-115 | With distinct ids, marking a clicked unread entry read lowers the number of unread entries by exactly one. |
| Inbox.Destination | src/components/Layout.tsx:119-126 | A deposit goes to /deposits and a withdrawal to /withdrawals. Every other type, and only those, goes to /notifications. |
| Inbox.NotificationMenu.constructor | src/components/Layout.tsx:50-51 | The menu starts empty, closed and with a zero counter that agrees with the list. |
| Inbox.NotificationMenu.Fetch | src/components/Layout.tsx:89-98 | It requests page 1 of 10. Success replaces the list with the payload (empty if absent) and makes the counter equal to its unread entries. Failure changes nothing. |
| Inbox.NotificationMenu.OpenMenu | src/components/Layout.tsx:80-83 | It opens the menu and fetches, as `Fetch`. |
| Inbox.NotificationMenu.CloseMenu | src/components/Layout.tsx:85-87 | Only the menu closes. |
| Inbox.NotificationMenu.Click | src/components/Layout.tsx:100-129 | A read entry makes no call and changes nothing. An unread one is marked on the backend. On success the list becomes `MarkRead` and the counter drops by one, floored at 0. On failure nothing changes. It navigates by type in every case and closes the menu. With distinct ids, a counter that agreed with the list still does. |
| Inbox.NotificationMenu.MarkAll | src/components/Layout.tsx:317-326 | It sends one mark-all call. Success marks every entry read and zeroes the counter, which then agrees with the list. Failure changes nothing. |
| Validation.CheckTrc | src/pages/UsersPage.tsx:162-169 | A blank address is skipped. An address is accepted exactly when it starts with 'T' and is 34 characters long, and is then passed on unchanged. |
| Users.RowActions | src/pages/UsersPage.tsx:333-396 | Block is offered exactly for active accounts and unblock for all others. Reset, balance and TRC edit are always offered. |
| Users.FetchCall | src/pages/UsersPage.tsx:70 | The list request is a GET of /admin/users. Its query reads back `page + 1`, which the backend parses back to that number, and the page size. It carries `search` exactly when the term is non-empty. |
| Users.ActionCall | src/pages/UsersPage.tsx:104-111 | Block, unblock and reset each map to their own call, and to no other, on the selected id. |
| Users.CheckBalance | src/pages/UsersPage.tsx:129-136 | It returns at once exactly when either field is blank. It rejects exactly a non-numeric or negative amount. It accepts only the parsed non-negative amount. |
| Users.SubmitDisabled | src/pages/UsersPage.tsx:552-555 | Confirmations are never disabled. The balance dialog is disabled exactly when the handler would return at once, whatever the amount parses to. The TRC dialog is disabled exactly when `CheckTrc` skips. |
| Users.UsersPage.constructor | src/pages/UsersPage.tsx:54-65 | The page starts at page 0 of 20 rows, loading, with no term, no selection, no dialog and empty forms. |
| Users.UsersPage.Fetch | src/pages/UsersPage.tsx:67-80 | It sends the list call for the current cursor and term and settles the list. Nothing else changes. |
| Users.UsersPage.Search | src/pages/UsersPage.tsx:86-89 | It sets the term and resets page to 0. It refetches exactly when the term or the page changed. |
| Users.UsersPage.ChangePage | src/pages/UsersPage.tsx:91-93 | It sets only the page, and refetches when it changed. |
| Users.UsersPage.ChangeRowsPerPage | src/pages/UsersPage.tsx:95-98 | It sets the size and resets page to 0, and refetches when either changed. |
| Users.UsersPage.Open | src/pages/UsersPage.tsx:336-396 | It selects the user and opens the dialog. The balance dialog is prefilled with the deposit amount and an empty reason. The TRC dialog is prefilled with the stored address or "". |
| Users.UsersPage.Cancel | src/pages/UsersPage.tsx:532-536 | It closes the dialog and resets both forms, but keeps the selection. |
| Users.UsersPage.CloseDialog | src/pages/UsersPage.tsx:432 | Only the dialog closes. |
| Users.UsersPage.HandleUserAction | src/pages/UsersPage.tsx:100-126 | Without a selection nothing happens. Otherwise it sends the action's call. A reply the action can report closes the dialog, clears the selection and refetches. A failure, or a reset whose reply body is `null`, reports the error and keeps the dialog, selection and list. |
| Users.UsersPage.HandleBalanceAdjustment | src/pages/UsersPage.tsx:128-159 | With no selection or a blank field, nothing happens. An invalid amount is reported with no call. Otherwise the amount and reason are sent. A reply whose `user.balanceChange` is a number closes, clears, resets the form and refetches. A failure, or a reply without that number (whose `toFixed` read throws into the catch branch), reports the error and keeps the dialog, selection, form and list. |
| Users.UsersPage.HandleTrcAddressUpdate | src/pages/UsersPage.tsx:161-189 | With no selection or a blank address, nothing happens. A malformed address is reported with no call. Otherwise the address is sent. A reply whose payload holds `user` closes, clears, resets the field and refetches. A failure, or a reply without `user` (whose read throws into the catch branch), reports the error and keeps the dialog, selection, field and list. |
| Users.UsersPage.Submit | src/pages/UsersPage.tsx:541-555 | A disabled button changes nothing. An enabled one dispatches on the open dialog to the matching handler, whose first call it states. |
| Reviews.RowActions | src/pages/DepositsPage.tsx:254-293 | View is always offered. Approve and reject are offered exactly for pending records. |
| Reviews.SubmitDisabled | src/pages/DepositsPage.tsx:464 | The button is disabled exactly while the selected record's own decision is outstanding. With nothing in flight, no selection, or another record's request in flight, it is enabled. |
| Reviews.FetchCall | src/pages/DepositsPage.tsx:70 | The list request is a GET of the ledger's path. Its query reads back `page + 1`, which the backend parses back to that number, and the page size. It carries `status` exactly when the filter is non-empty. |
| Reviews.ReviewPage.constructor | src/pages/DepositsPage.tsx:54-65 | The page starts on its ledger at page 0 of 20 rows, with no filter, selection, notes or processing. |
| Reviews.ReviewPage.Fetch | src/pages/DepositsPage.tsx:67-80 | It sends the ledger's list call and settles the list, with the ledger's failure text. |
| Reviews.ReviewPage.ChangeStatusFilter | src/pages/DepositsPage.tsx:95-98 | It sets the filter and resets page to 0, and refetches when either changed. |
| Reviews.ReviewPage.ChangePage | src/pages/DepositsPage.tsx:86-88 | It sets only the page, and refetches when it changed. |
| Reviews.ReviewPage.ChangeRowsPerPage | src/pages/DepositsPage.tsx:90-93 | It sets the size and resets page to 0, and refetches when either changed. |
| Reviews.ReviewPage.Open | src/pages/DepositsPage.tsx:254-290 | It selects the record and opens the dialog, and the notes keep what they held. |
| Reviews.ReviewPage.Dismiss | src/pages/DepositsPage.tsx:450-455 | Cancel, Close and `onClose` clear the dialog, the selection and the notes. |
| Reviews.ReviewPage.HandleAction | src/pages/DepositsPage.tsx:100-124 | Without a selection nothing happens. Otherwise the decision is sent with the notes as typed. During the call the processing marker is the selected id, which disables submit; afterwards it is cleared in every case. Success reports, closes, clears the selection and notes, and refetches. Failure keeps the dialog, selection, notes and list. |
| Reviews.ReviewPage.Submit | src/pages/DepositsPage.tsx:460-464 | A disabled button changes nothing. An enabled one sends the open dialog's decision for the selected record with the notes. The processing marker is that record's id during the call and cleared after. Success closes the dialog, clears the selection and notes, and refetches the list as its second call. Failure keeps the dialog, selection, notes and list, and makes only the one call. |
| Notifications.FetchCall | src/pages/NotificationsPage.tsx:75 | The list request is a GET of /admin/notifications whose query holds only `page` and `limit`. The page reads back as `page + 1`, which the backend parses back to that number. |
| Notifications.SendCall | src/pages/NotificationsPage.tsx:102 | The send call carries the form's recipient and message, and a type name that reads back as the form's type. |
| Notifications.SendEnabled | src/pages/NotificationsPage.tsx:385 | The blank form a dialog starts from cannot be sent. An enabled button never sends an empty recipient or message. |
| Notifications.NotificationsPage.constructor | src/pages/NotificationsPage.tsx:54-70 | The page starts at page 0 of 20 rows, with closed dialogs and the blank form `{'', '', general}`. |
| Notifications.NotificationsPage.Fetch | src/pages/NotificationsPage.tsx:72-85 | It sends the list call and settles the list, and nothing else changes. |
| Notifications.NotificationsPage.ChangePage | src/pages/NotificationsPage.tsx:91-93 | It sets only the page, and refetches when it changed. |
| Notifications.NotificationsPage.ChangeRowsPerPage | src/pages/NotificationsPage.tsx:95-98 | It sets the size and resets page to 0, and refetches when either changed. |
| Notifications.NotificationsPage.OpenSend | src/pages/NotificationsPage.tsx:163 | It opens the send dialog on the current form. |
| Notifications.NotificationsPage.EditForm | src/pages/NotificationsPage.tsx:307-358 | A field change replaces the form, and the type stays one of the four. |
| Notifications.NotificationsPage.DismissSend | src/pages/NotificationsPage.tsx:374-377 | Cancel and `onClose` close the dialog and reset the form to the blank one. |
| Notifications.NotificationsPage.HandleSend | src/pages/NotificationsPage.tsx:100-111 | It sends the form as it is. Success reports, closes, resets the form and refetches. Failure reports and keeps the dialog and form. |
| Notifications.NotificationsPage.PressSend | src/pages/NotificationsPage.tsx:383-385 | With the recipient or the message blank, the button does nothing. Otherwise it sends the form. Success reports, closes the dialog, resets the form and refetches. Failure reports and keeps the dialog, the form and the list. |
| Notifications.NotificationsPage.OpenView | src/pages/NotificationsPage.tsx:247-250 | It selects the notification and opens the view. |
| Notifications.NotificationsPage.CloseView | src/pages/NotificationsPage.tsx:449-452 | It closes the view and clears the selection. |
| Pending.Without | src/pages/PendingUsersPage.tsx:86 | The filtered queue holds exactly the accounts of the old queue whose id differs from the removed one. |
| Pending.WithoutOfConcat | src/pages/PendingUsersPage.tsx:86 | Filtering works piecewise, so the kept accounts keep their order. |
| Pending.WithoutAbsent | src/pages/PendingUsersPage.tsx:86 | Removing an id that no account carries leaves the queue unchanged. |
| Pending.WithoutIdempotent | src/pages/PendingUsersPage.tsx:107 | Removing the same id twice removes nothing more. |
| Pending.EnabledSubmitPassesGuard | src/pages/PendingUsersPage.tsx:352 | An enabled submit button always passes the handler's blank-field guard. An all-whitespace address keeps the button disabled, although the handler would only refuse it as malformed. |
| Pending.SubmitDisabled | src/pages/PendingUsersPage.tsx:352 | The button is disabled while a call is outstanding. Otherwise the reject dialog is disabled exactly when the reason is all white space, and the approve dialog exactly when the address is. |
| Pending.PendingUsersPage.constructor | src/pages/PendingUsersPage.tsx:45-52 | The queue starts empty and loading, with no dialog, selection or input. |
| Pending.PendingUsersPage.Fetch | src/pages/PendingUsersPage.tsx:58-70 | Success replaces the queue wholesale and clears the error. Failure keeps the queue and sets the error. Loading ends. |
| Pending.PendingUsersPage.Open | src/pages/PendingUsersPage.tsx:235-249 | It selects the account and opens the dialog, keeping both inputs. |
| Pending.PendingUsersPage.Close | src/pages/PendingUsersPage.tsx:267-271 | It clears the dialog, selection and reason, but keeps the TRC address. |
| Pending.PendingUsersPage.Cancel | src/pages/PendingUsersPage.tsx:339-343 | It clears the dialog, selection, reason and TRC address. |
| Pending.PendingUsersPage.HandleApprove | src/pages/PendingUsersPage.tsx:72-97 | With no selection or a blank address, nothing happens. A malformed address sets the error, makes no call and leaves the queue, with loading not raised. Otherwise loading is true during the call. Success removes exactly the selected id and clears the dialog, selection, address and error. Failure shows the server's message or the fallback. Loading ends afterwards. |
| Pending.PendingUsersPage.HandleReject | src/pages/PendingUsersPage.tsx:99-117 | It needs a reason that is non-blank after trimming, and sends it untrimmed. Success removes exactly the selected id and clears the dialog, selection and reason, but not the error. Failure sets the error. Loading is true during the call and false after. |
| Pending.PendingUsersPage.Submit | src/pages/PendingUsersPage.tsx:349-352 | A disabled button changes nothing, so an all-whitespace address never reaches the format error. An enabled button runs approve or reject according to the open dialog and states its call. |

## Left out

- Rendering, styling, icons and the theme files (`src/theme/`, the logo component) are left out; they are presentation only.
- The snackbar's message text (including the new password after a reset and the balance change with `toFixed(2)`) is left out; only its severity is kept.
- The axios transport, base URL and 10-second timeout are left out: a call is its descriptor plus a reply parameter.
- `URLSearchParams` percent-encoding is left out; queries are ordered key/value pairs.
- `window.location.href = '/login'` after a 401 and react-router navigation are left out; only the target path a click chooses is modelled.
- Http.InterceptResponse: the page classes do not carry `localStorage`, so a 401 on a page's own call does not drop the credential in those classes; the rule itself is modelled once here and for the session store.
- `parseFloat`/`isNaN` in the balance check are left out: the parsed amount is the parameter `parsed: Option<real>` (None for NaN).
- `Intl.NumberFormat`, date formatting and JavaScript's exponent notation for integers of 1e21 and more are left out; `Text.IntToString` is plain decimal.
- String length is counted in code points, not UTF-16 code units, in the 34-character TRC check.
- The TRC check is only the prefix-and-length test the source makes; base58 and checksum validation are not part of the source.
- The 30-second notification polling and the mount-time fetch of the menu are timer/effect driven and left out; `Fetch` models one poll.
- Overlapping requests and stale responses are left out: each handler is one atomic step, and a refetch settles within it.
- Api.RequestOf: the five `adminApi` members the source does not define (`adjustUserBalance`, `updateUserTrcAddress`, `getPendingUsers`, `approveUser`, `rejectUser`) have no HTTP request in the model.
- Users.UsersPage.Submit: for an enabled button only the first call of the dispatched handler is stated; the rest is the handler's own contract.
- Pending.PendingUsersPage.Submit: for an enabled button only the call and the busy flag are stated; the rest is the handler's own contract.
- Notification `type` and `status` are closed datatypes (four topics, read or unread), while the source keeps the menu's list as untyped JSON; a wire value outside those sets cannot be represented, so `Inbox.Destination`'s fallback route is only seen for `profit` and `general`.
- The settings page, the dashboard and the login form are single fetch/submit forms without further logic and are not part of this model; so is the profile menu.
- The `loading` flag of the list pages is true only while a fetch is outstanding, which an atomic step never shows; `Settle` states that it is false afterwards.
- Auth.AuthProvider.IsAuthenticated and RouteGate are plain definitions (`!!user`, src/contexts/AuthContext.tsx:88, and src/App.tsx:19-27) used in the session contracts rather than members with contracts of their own.
