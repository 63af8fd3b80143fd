# Kerala public grievance portal — verified model of its logic

The portal lets citizens file complaints about government services. A citizen
tracks their own complaints on a dashboard. An administrator filters all
complaints, changes their status and writes a response. An edge function relays
a status change to the citizen by SMS through the MessageBird gateway.

This project models the parts of that code that decide something:

- `SmsRelay` (sms_relay.dfy): the SMS handler. It checks the gateway credentials, reads the
  request and checks its parameters. It truncates the message, fills the text
  template and normalises the recipient to `+91`. Then it maps the gateway's reply to
  `{success, messageId, status}` or to `{success: false, error}` with HTTP 500.
  The environment variables, the parsed request body and the gateway's reply are
  inputs. The handler returns the gateway call it made, if any, with the response, so every
  error path can be shown to make no call.
- `AdminRoute` (admin_route.dfy): the guard in front of `/admin`, and the session states it is
  meant to serve.
- `Complaints` (complaints.dfy): the complaint record and the four statuses. The store is
  modelled as a map from id to record, with its insert, its update by id and its
  contract for ordered queries. The store answers queries itself, so a query answer
  is an input that must be correct for the current store (`IsAnswer`).
  `AnswerExists` proves that a correct answer always exists.
- `AdminPanel` (admin_panel.dfy): the three-way filter, the district and category choices
  (distinct and sorted) and the update payload. The class `Panel` holds the panel's
  state (`complaints`, `loading`, `filter`, `adminResponse`,
  `selectedComplaint`, `updating`) and the store it writes. A status update is
  split at its `await`: `StartUpdate` sends it and `FinishUpdate` takes the store's
  answer. `pending` holds the update in flight in between, and any other panel
  operation may run in that window.
- `ComplaintForm` (complaint_form.dfy): the fixed district and category lists, the
  field-wise change, the insert payload (status `pending`, the anonymous owner id,
  an empty email) and the class `Form`. On submit, `Form` resets the fields only after a successful insert.
- `UserDashboard` (user_dashboard.dfy): the redirect without a session, the own-rows fetch,
  the status label and badge, the response block, and the decision to show a notice on
  an update. The class `Dashboard` holds the list and the `loading` flag.
- `Js` (js.dfy) holds the JavaScript string rules the code relies on: truthiness,
  `substring`, `startsWith`, one-character `toUpperCase`, and the order of the
  default `sort()`. `Wrappers` (wrappers.dfy) holds `Option` and `Result`.

Notes on the code's behaviour:

- The form's handler checks no field. Required fields are enforced only by the
  browser's `required` attribute.
- Statuses are not checked on update. `ValidStatus` is kept as an invariant
  that updates with one of the four offered values preserve.
- The SMS preflight answers with the body `ok`, not an empty body.

## Model

| member | source | states |
|---|---|---|
| `SmsRelay.TruncateMessage` | supabase/functions/send-sms/index.ts:33-35 | the result is at most 100 characters; an absent or empty message gives ""; a message of at most 100 is kept; a longer one keeps its first 97 characters followed by "..." |
| `SmsRelay.TruncateIdempotent` | supabase/functions/send-sms/index.ts:33-35 | truncating a truncated message changes nothing |
| `SmsRelay.Heading` | supabase/functions/send-sms/index.ts:37 | the first line is "Complaint #", then the id's first min(8, length) characters, then " Status: ", then the status |
| `SmsRelay.SmsBody` | supabase/functions/send-sms/index.ts:37 | the text is the heading, then a newline and the message when the message is not empty, then the contact line; with an empty message it is exactly the heading and the contact line |
| `SmsRelay.SmsBodyDeterminesMessage` | supabase/functions/send-sms/index.ts:37 | for a fixed id and status, the text determines the message: different messages give different texts |
| `SmsRelay.SmsBodyBounded` | supabase/functions/send-sms/index.ts:33-37 | a text built from a truncated message has at most 152 characters plus the status |
| `SmsRelay.Recipient` | supabase/functions/send-sms/index.ts:47 | the recipient starts with '+' and ends with `to`; it is `to` when `to` starts with '+', otherwise "+91" + `to` |
| `SmsRelay.RecipientIdempotent` | supabase/functions/send-sms/index.ts:47 | normalising twice equals normalising once |
| `SmsRelay.Prepare` | supabase/functions/send-sms/index.ts:17-51 | missing or empty credentials fail with "Missing MessageBird credentials" whatever the request; a body that does not parse fails with the parse error; a missing or empty `to`, `complaintId` or `status` fails with "Missing required parameters"; otherwise the call goes to the gateway URL with the key, the originator, the one normalised recipient and the formatted text |
| `SmsRelay.FailureResponse` | supabase/functions/send-sms/index.ts:71-83 | every failure is HTTP 500 with the JSON headers and `{success: false, error}`, the error defaulting to "Failed to send SMS" |
| `SmsRelay.FirstDescription` | supabase/functions/send-sms/index.ts:53-56 | the error is the first gateway error's description when it is there and not empty, else "Failed to send SMS" |
| `SmsRelay.GatewayOutcome` | supabase/functions/send-sms/index.ts:53-83 | an OK reply gives 200 with `{success: true}` and the gateway's id and status; a rejected or unreadable reply gives the failure response |
| `SmsRelay.Serve` | supabase/functions/send-sms/index.ts:11-85 | OPTIONS gets 200, body "ok" and the CORS headers, and no gateway call; a gateway call is made exactly when the credentials and parameters are present; any error before the call (missing credentials, a body that does not parse, missing parameters) gives the 500 failure with that error and makes no call; the code is 500 exactly when the answer is a failure |
| `SmsRelay.CallsAreWellFormed` | supabase/functions/send-sms/index.ts:37-51 | every gateway call has one recipient starting with '+' and a text ending with the contact line, within the length bound |
| `SmsRelay.SuccessOnlyFromGateway` | supabase/functions/send-sms/index.ts:53-69 | a non-preflight answer is a success exactly when the gateway was called and accepted, and then it carries the gateway's id and status |
| `AdminRoute.Guard` | src/components/AdminRoute.tsx:12-28 | loading shows the spinner whatever else holds; otherwise no session redirects to /admin/login; a session without the admin flag redirects to /; the page renders exactly when not loading, with a session and the admin flag |
| `AdminRoute.RequireAdmin` | src/components/AdminRoute.tsx:9-28 | over the session states: anonymous goes to the admin login, resolving shows the spinner, a citizen goes to /, only an admin sees the page |
| `AdminRoute.RedirectTargets` | src/components/AdminRoute.tsx:20-26 | a redirect always goes to /admin/login or /, never to the guarded page |
| `Complaints.Insert` | src/components/ComplaintForm.tsx:55-60 | an insert adds exactly one record under the new id, with the payload's fields and no response, and keeps every other record |
| `Complaints.Patched` | src/components/AdminPanel.tsx:78-81 | a patch sets the status; it sets the response only when the payload has one; every other field is kept |
| `Complaints.ApplyUpdate` | src/components/AdminPanel.tsx:76-82 | an update by id changes only the record with that id, if any, and keeps the set of ids |
| `Complaints.UpdateIdempotent` | src/components/AdminPanel.tsx:76-82 | repeating an update gives the same store as doing it once |
| `Complaints.UpdateKeepsInvariants` | src/components/AdminPanel.tsx:76-82 | an update keeps every record under its id, never changes an id, an owner or a creation time, and keeps all statuses valid when the new status is valid |
| `Complaints.RowsOf` | src/components/AdminPanel.tsx:62 | `data \|\| []`: null rows read as the empty list |
| `Complaints.AnswerExists` | src/components/AdminPanel.tsx:56-59 | every store has a correct answer to every query: in-scope records only, each exactly once, all of them, newest first |
| `Complaints.UpdateVisibleInAnswer` | src/components/AdminPanel.tsx:76-82 | after an update, every correct answer for a scope that holds the record contains the patched record |
| `Complaints.AnonymousNotListed` | src/components/ComplaintForm.tsx:57 | a submission filed under the anonymous owner never shows in a signed-in user's own list |
| `AdminPanel.FilterComplaints` | src/components/AdminPanel.tsx:97-103 | a complaint is listed exactly when it is in the list and equals every non-empty filter field; the list never grows |
| `AdminPanel.FilterNothing` | src/components/AdminPanel.tsx:97-103 | with all three fields empty the list is returned unchanged |
| `AdminPanel.FilterNarrowing` | src/components/AdminPanel.tsx:97-103 | setting more filter fields gives a subsequence of the previous result: it never adds or reorders entries |
| `AdminPanel.FilterKeepsOrder` | src/components/AdminPanel.tsx:97-103 | the filtered list is an order-preserving subsequence of the complaints |
| `AdminPanel.FilterKeepsEveryMatch` | src/components/AdminPanel.tsx:97-103 | each matching complaint is kept as many times as it occurs in the list, and no other complaint is kept |
| `AdminPanel.SortedDistinct` | src/components/AdminPanel.tsx:105-106 | `[...new Set(xs)].sort()` is strictly ascending and holds exactly the values of `xs` |
| `AdminPanel.AscendingUnique` | src/components/AdminPanel.tsx:105-106 | two strictly ascending lists with the same values are equal, so the choices do not depend on the list's order |
| `AdminPanel.DistrictOptions` | src/components/AdminPanel.tsx:105 | the district choices are strictly ascending and are exactly the districts present in the list |
| `AdminPanel.CategoryOptions` | src/components/AdminPanel.tsx:106 | the category choices are strictly ascending and are exactly the categories present in the list |
| `AdminPanel.UpdatePatch` | src/components/AdminPanel.tsx:78-81 | the payload carries the status, and carries the response text only when it is not empty |
| `AdminPanel.UpdateSeenByAdminAndOwner` | src/components/AdminPanel.tsx:76-82 | after setting a status and a non-empty response, the next full list and the owner's next own list both show the complaint with them |
| `AdminPanel.Panel.constructor` | src/components/AdminPanel.tsx:21-26 | the panel starts loading, with an empty list, no filter, no response text, nothing selected and no update running |
| `AdminPanel.Panel.Visible` | src/components/AdminPanel.tsx:97-103 | the shown list holds exactly the complaints that match the current filter |
| `AdminPanel.Panel.FetchComplaints` | src/components/AdminPanel.tsx:54-69 | a reply replaces the list with the store's rows, newest first, and null gives the empty list; an error keeps the list; `loading` ends false either way |
| `AdminPanel.Panel.OnTableChange` | src/components/AdminPanel.tsx:33-52 | any change to the table triggers a full refetch |
| `AdminPanel.Panel.StartUpdate` | src/components/AdminPanel.tsx:71-82 | a call while an update is in flight changes nothing; otherwise `updating` is raised and the pending update holds the id, the status and the response text only when it is not empty |
| `AdminPanel.Panel.FinishUpdate` | src/components/AdminPanel.tsx:84-94 | `updating` drops and nothing is pending afterwards; success applies the pending patch to that record only and clears the response text and the selection; failure keeps the store and both; the store's invariants are kept |
| `AdminPanel.Panel.UpdateComplaintStatus` | src/components/AdminPanel.tsx:71-95 | with nothing else happening before the store answers: a call during an update changes nothing; otherwise the update runs to completion with the outcomes of `FinishUpdate` |
| `AdminPanel.SecondClickRefused` | src/components/AdminPanel.tsx:72-75 | a second call made while the first update is in flight is refused, so only the first update reaches the store |
| `AdminPanel.Panel.SelectComplaint` | src/components/AdminPanel.tsx:211 | "Add Response" opens the response box for that complaint |
| `AdminPanel.Panel.SetAdminResponse` | src/components/AdminPanel.tsx:201 | typing sets the response text |
| `AdminPanel.Panel.SetFilter` | src/components/AdminPanel.tsx:128-151 | a filter select sets the filter |
| `ComplaintForm.Districts` | src/components/ComplaintForm.tsx:8-23 | fourteen distinct district names, none of them empty, so the empty placeholder is not a choice |
| `ComplaintForm.ServiceCategories` | src/components/ComplaintForm.tsx:25-39 | thirteen distinct category names, none of them empty, so the empty placeholder is not a choice |
| `ComplaintForm.Change` | src/components/ComplaintForm.tsx:79-81 | the named field takes the value and every other field is unchanged |
| `ComplaintForm.ChangesCommute` | src/components/ComplaintForm.tsx:80 | changes to two different fields give the same form in either order |
| `ComplaintForm.LastChangeWins` | src/components/ComplaintForm.tsx:80 | of two changes to one field only the last counts |
| `ComplaintForm.OwnerId` | src/components/ComplaintForm.tsx:57 | the owner is the user's id, or the all-zero id when there is no user or the id is empty; it is never empty |
| `ComplaintForm.OwnerEmail` | src/components/ComplaintForm.tsx:58 | the email is the user's email, or "" when there is none |
| `ComplaintForm.InsertPayload` | src/components/ComplaintForm.tsx:55-60 | the payload has status "pending", the six fields copied unchanged, and the owner id and email |
| `ComplaintForm.SubmissionCreatesPendingRecord` | src/components/ComplaintForm.tsx:55-60 | the created record is pending with no response and the form's fields; without a user it belongs to the anonymous owner with an empty email |
| `ComplaintForm.Form.constructor` | src/components/ComplaintForm.tsx:43-50 | the form starts with all six fields empty |
| `ComplaintForm.Form.HandleChange` | src/components/ComplaintForm.tsx:79-81 | the form data becomes the field-wise change of the old data |
| `ComplaintForm.Form.HandleSubmit` | src/components/ComplaintForm.tsx:52-77 | the payload is built from the current fields; a successful insert resets all six fields to "", and a failed one leaves them unchanged |
| `UserDashboard.OnSession` | src/components/UserDashboard.tsx:23-31 | without a session the effect redirects; with one it fetches and subscribes |
| `UserDashboard.StatusLabel` | src/components/UserDashboard.tsx:144 | the label has the status's length: its first character is upper-cased and the rest is unchanged |
| `UserDashboard.StatusLabels` | src/components/UserDashboard.tsx:144 | the labels read "Pending", "In_progress", "Resolved" and "Rejected" |
| `UserDashboard.StatusLabelIdempotent` | src/components/UserDashboard.tsx:144 | labelling a label changes nothing |
| `UserDashboard.BadgeColour` | src/components/UserDashboard.tsx:133-142 | pending is yellow, in_progress blue, resolved green, anything else red |
| `UserDashboard.BadgeTellsStatusesApart` | src/components/UserDashboard.tsx:133-142 | among the four statuses only rejected is red, and different statuses get different colours |
| `UserDashboard.OnUpdate` | src/components/UserDashboard.tsx:62-71 | the notice is shown exactly when the updated row's response is non-empty, and a refetch always follows |
| `UserDashboard.ResponseShown` | src/components/UserDashboard.tsx:158-163 | the response block is shown exactly when the response is set and not empty |
| `UserDashboard.Render` | src/components/UserDashboard.tsx:90-167 | spinner while loading; the empty state for an empty list; otherwise one card per complaint, in order |
| `UserDashboard.Dashboard.constructor` | src/components/UserDashboard.tsx:20-21 | the dashboard starts loading with an empty list |
| `UserDashboard.Dashboard.FetchComplaints` | src/components/UserDashboard.tsx:33-49 | a reply replaces the list with the user's own rows, newest first, and null gives the empty list; an error keeps the list; `loading` ends false either way |
| `UserDashboard.Dashboard.Mount` | src/components/UserDashboard.tsx:23-31 | without a session: navigate to /login, no fetch and no subscription; with one: fetch and subscribe |
| `UserDashboard.Dashboard.OnComplaintUpdated` | src/components/UserDashboard.tsx:62-71 | the notice iff the response is non-empty, then a refetch whose result replaces the list |

## Left out

- Rendering, CSS classes, icons, toasts and console output are left out. The decisions behind them are kept: which screen is shown, the badge colour, whether a notice is shown.
- The store client calls, the realtime channels and subscribe/unsubscribe are left out. They are library and asynchronous plumbing. The store is a map, and a query's answer is an input that must be correct for the current store.
- Query ties: rows with equal `created_at` may come in any order. `createdAt` is modelled as an instant (an integer), not the timestamp string.
- The Deno server, `Deno.env`, `fetch`, `req.json` and `JSON.stringify` are I/O. Their results are parameters. Request fields that are not strings, and gateway replies without `id` or `status`, are not modelled.
- `toLocaleDateString('en-IN', ...)` is left out. It depends on the locale and time-zone data.
- The route table is left out. Its one guarded route, `/admin`, is covered by `AdminRoute.Guard`.
- Concurrent edits by two admins (last write wins) are left out. So is the order in which change events arrive. Both come from the platform, not this code.
- The admin check of update rights is left out. It is done by the store's row-level rules, which are not part of this model.
- `UserDashboard.StatusLabel` upper-cases only the ASCII letters a-z. JavaScript's `toUpperCase` also maps other letters, and can change the length, for example "ß" becomes "SS". All four statuses are ASCII.
- `SmsRelay.TruncateMessage` counts lengths in Unicode code points. JavaScript counts UTF-16 code units, so the two differ for characters outside the Basic Multilingual Plane. The same holds for `Js.Prefix`, which models `substring`, and for `Js.Less`, which models the order of the default `sort()`.
- `ComplaintForm.Change` takes the field as one of the six form fields. A `name` attribute outside the form would add a new key; the form has no such input.
- `UserDashboard.Dashboard.FetchComplaints` takes the signed-in user's id as a string. A session without a user, which would filter on `undefined`, is not modelled.
- The effects' cleanup is left out. Neither effect returns the unsubscribe function, so a subscription outlives the component. This is lifecycle plumbing.
