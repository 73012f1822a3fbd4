# surf-hub rules, modelled in Dafny

surf-hub is a surf-community web application. It has a forum of topics and
replies that users vote on and report, a moderation console for
administrators, a catalogue of surf spots, and account sign-up behind a
request gate. This project models the sequential rules under those
features and proves what they promise:

- **The forum store** (`ForumModel`, `ForumStore`, `ForumTopics`). A class
  holds the topic and reply collections as maps from id to document. Its
  methods are the vote ledger, the report recorder, reply and topic
  creation, and the moderator's cascading delete and approve. Its
  invariant covers the per-item rules and the reply links:
  - each user holds at most one vote on an item;
  - `reportedBy` has no repeats and `reportCount` is its length;
  - every reply's topic exists and lists the reply.
- **The listings.**
  - The topic listing's filter and page arithmetic (`ForumTopics`).
  - The moderation listing's flagged, reported and search filters and its
    per-type windows (`ModerationListing`).
  - The admin spot list (`AdminSpots`).
  - The public spot list's query and sort (`SpotsList`).
  - The forum sidebar's tag counts (`TagCounts`).
- **Pure helpers.**
  - The page-link window (`Pagination`).
  - The relative "last activity" label (`RelativeTime`).
  - Username derivation and the sign-up schema (`Signup`).
  - The request gate (`Middleware`).
  - The spot filter bar's URL updates (`SpotFilters`).
  - The new-topic form's tag picker (`TopicForm`).
  - The image picker's guards (`ImageUpload`).

Four modules are shared. `Common` holds `Option`, `Response` and the
session. `Text` holds characters, substring search and decimal digits.
`Seqs` holds filter, count and duplicate-freedom. `Query` models the
document store's sort, skip/limit and page count over in-memory sequences.

Conventions:
- Document ids are naturals handed out by a counter.
- Times are naturals (milliseconds).
- A JSON field that is missing or falsy is `""` for a string and `None`
  for an id.
- The store's `limit(0)` means "no limit", and a negative `skip` is refused
  by the store, which the handlers answer with 500.
- `Math.ceil(n / 0)` reaches the client as `null`, which is `None` here.

Behaviour of the code that a reader might not expect, which the model
follows:
- An unauthenticated request for /login or /register is passed on without
  the security headers, because the gate returns `null` there.
- Moderation listing with type "all" pages the topics with `(skip, limit)`
  but always takes the newest `limit / 2` replies (skip 0). Type "topics"
  ignores the page number, so page 0 is not an error there.
- A moderation delete whose type is neither "topic" nor "reply" deletes a
  reply by that id without detaching it from its topic.
- Topic tags outside the fixed list pass the request schema but fail the
  document enum on save, so the answer is 500 and nothing is stored.
- A sign-up name made only of whitespace derives an empty username. Saving
  then fails the required-field rule, so the answer is 500.
- The filter bar's Apply button, sort select and clear buttons write the
  URL from the values as they were before the click (see Findings).

## Model

| member | source | states |
|---|---|---|
| ForumModel.UserVote | app/api/forum/vote/route.ts:65-69 | `userVote` is upvote iff the user is in the up list, downvote iff only in the down list, null iff in neither |
| ForumModel.CastUpvote | app/api/forum/vote/route.ts:47-53 | after "upvote" the caller is in the up list exactly once and not in the down list |
| ForumModel.CastDownvote | app/api/forum/vote/route.ts:47-48 | after "downvote" the caller is in the down list exactly once and not in the up list |
| ForumModel.CastOther | app/api/forum/vote/route.ts:47-56 | any action other than "upvote"/"downvote" (null included) leaves the caller in neither list |
| ForumModel.CastVoteKeepsOthers | app/api/forum/vote/route.ts:47-55 | other users' entries are exactly as before, in the same order; a new vote is the last element of its list |
| ForumModel.CastVoteIdempotent | app/api/forum/vote/route.ts:47-55 | casting the same action twice gives the lists of casting it once |
| ForumModel.CastVoteUserVote | app/api/forum/vote/route.ts:47-69 | the reported `userVote` is the vote the action asked for |
| ForumModel.UpvoteThenDownvote | app/api/forum/vote/route.ts:47-55 | upvote then downvote leaves the caller only in the down list, once |
| ForumModel.CastVoteKeepsOneVoteEach | app/api/forum/vote/route.ts:47-55 | "at most one vote per user across both lists" is preserved |
| ForumModel.TryReport | app/api/forum/report/route.ts:39-54 | the report is refused iff the caller is already in `reportedBy` |
| ForumModel.TryReportEffect | app/api/forum/report/route.ts:44-54 | a report adds 1 to `reportCount`, puts the caller in `reportedBy` exactly once, appends exactly one entry, keeps the bookkeeping consistent and leaves the review fields alone |
| ForumModel.ReportTwice | app/api/forum/report/route.ts:39-41 | a second report by the same user is refused, so the count rises by one only |
| ForumModel.Approve | app/api/admin/moderation/route.ts:179-183 | approval sets reviewed, reviewer and time and keeps the report fields |
| ForumModel.ApproveKeepsReports | app/api/admin/moderation/route.ts:179-183 | approval preserves report consistency |
| ForumModel.FreshItemOk | models/ForumTopic.ts:4-25 | a new document's defaults satisfy the item invariant |
| ForumStore.Forum.constructor | models/ForumReply.ts:3-17 | the empty store satisfies the invariant |
| ForumStore.Forum.Vote | app/api/forum/vote/route.ts:12-75 | 401 without a session, 400 for a missing id, type or action (null allowed), 404 for an unknown id, with nothing changed; otherwise the item's lists become the ledger update, a type other than "topic" addresses replies, and the reply carries both lists and `userVote` |
| ForumStore.Forum.Report | app/api/forum/report/route.ts:18-61 | 401, 400 "Invalid input" unless the type is topic/reply and the reason is 1-500 characters, 404 `<type> not found`, 400 for a repeat reporter, all without change; otherwise only that item's moderation fields take the report and the message is `<type> reported successfully` |
| ForumStore.Forum.CreateReply | app/api/forum/reply/route.ts:12-70 | 401; an id-less session is resolved by email, else 404; 400 for missing topic or content; 404 for an unknown topic with nothing stored; otherwise a fresh reply with the content, caller and topic is stored, its id appended to that topic's `replies`, and no other topic changes |
| ForumStore.Forum.CreateTopic | app/api/forum/route.ts:84-119 | 401; 400 with exactly the failing fields; 500 for a tag outside the fixed list; otherwise a new topic authored by the session user with `linkedSpot` as supplied is stored under a fresh id |
| ForumStore.Forum.Moderate | app/api/admin/moderation/route.ts:138-187 | 401 unless admin; 400 for missing fields or an unknown action; delete of a topic removes it and every reply it lists; delete of a reply removes it and pulls its id from its topic; approve applies `Approve` to that item only |
| ForumStore.Forum.DeletedTopicLeavesNoReplies | app/api/admin/moderation/route.ts:160-164 | after removing a topic's listed replies, no remaining reply points at it |
| ForumTopics.TopicFieldErrors | app/api/forum/route.ts:27-32 | no field errors iff title 5-100, content 10-5000 and 1-5 tags |
| ForumTopics.NewTopic | app/api/forum/route.ts:103-109 | the new topic has the session user as author, the request's title, content, tags and `linkedSpot`, and schema defaults |
| ForumTopics.NewTopicIgnoresBodyAuthor | app/api/forum/route.ts:99-106 | the body's `author` field never affects the stored topic |
| ForumTopics.ListTopics | app/api/forum/route.ts:41-75 | 500 iff page 0 with a positive limit; otherwise every listed topic matches the search/spot filter, the list is newest first and at most `limit` long, `totalTopics` is the number of matching topics and `totalPages` is ceil(totalTopics/limit) |
| ForumTopics.ListTopicsDefaults | app/api/forum/route.ts:20-22 | without paging parameters, page 1 holds the ten newest matches |
| ForumTopics.ListTopicsPage | app/api/forum/route.ts:47-63 | page p (p >= 1) is exactly the window of the newest-first matches starting at `PageOffset(p, limit)`, at most `limit` long |
| ModerationListing.BuildFilter | app/api/admin/moderation/route.ts:53-84 | the filter is "reported" iff status is reported; a search term replaces the flagged-word condition |
| ModerationListing.SelectTopic | app/api/admin/moderation/route.ts:53-84 | a topic is listed iff (per status) always / a flagged word is in title or content / `reportCount > 0`, with a search term replacing the flagged condition and conjoined with the reported one |
| ModerationListing.SelectReply | app/api/admin/moderation/route.ts:53-84 | the same selection on the reply's content |
| ModerationListing.FlaggedSearchIsSearch | app/api/admin/moderation/route.ts:71-84 | with a search term, "flagged" lists exactly what "all" lists |
| ModerationListing.PageOf | app/api/admin/moderation/route.ts:92-129 | totals are the match counts, `totalItems` their sum, `totalPages` ceil(totalItems/limit); each type's list is its newest-first page at that type's skip and limit, and an unqueried type is empty |
| ModerationListing.ListModeration | app/api/admin/moderation/route.ts:34-132 | 401 iff not admin; 500 iff page 0 with a positive limit for a type that uses the page offset; otherwise 200 with `PageOf` |
| ModerationListing.ListedAreSelected | app/api/admin/moderation/route.ts:92-115 | every listed topic and reply is in its collection and satisfies the selection |
| ModerationListing.AllTypesWindows | app/api/admin/moderation/route.ts:96-109 | type "all" shows at most `limit` topics and `limit/2` replies, the replies always the newest |
| ModerationListing.TopicsOnlyIgnoresPage | app/api/admin/moderation/route.ts:96-97 | type "topics" shows the same topics on every page |
| Query.TotalPages | app/api/forum/route.ts:73 | `Math.ceil(total/limit)`: the least count of pages covering the total, null for limit 0 |
| Query.PageOffset | app/api/forum/route.ts:47 | the skip `(page - 1) * limit` is negative exactly for page 0 with a positive limit, and 0 on page 1 |
| Query.PageOffsetNext | app/api/forum/route.ts:47 | consecutive pages start `limit` apart |
| Query.NewestPage | app/api/admin/moderation/route.ts:94-97 | a sorted newest-first window whose elements are the sorted list's from `skip` on, at most `limit` of them |
| Pagination.RangeOf | components/ui/pagination.tsx:82-88 | 1 <= start, end <= total, at most 5 pages, exactly 5 when total >= 5, and a real current page lies in the window |
| Pagination.Pages | components/ui/pagination.tsx:90 | the pages are the ascending consecutive numbers start..end, all between 1 and total |
| Pagination.FirstItems | components/ui/pagination.tsx:109-128 | the page-1 link appears iff start > 1, with an ellipsis iff start > 2 |
| Pagination.LastItems | components/ui/pagination.tsx:145-164 | the last-page link appears iff end < total, with an ellipsis iff end < total-1 |
| Pagination.PageItems | components/ui/pagination.tsx:130-143 | one link per page, active exactly when it is the current page |
| Pagination.PreviousAndNext | components/ui/pagination.tsx:95-107 | "Previous" to current-1 appears iff current > 1, "Next" to current+1 iff current < total, with no other targets |
| Pagination.CurrentIsActive | components/ui/pagination.tsx:130-143 | for a real current page, its link is in the bar and is the only active item |
| RelativeTime.Bucket | components/forum-topic-card.tsx:21-33 | "just now" iff the distance is under a minute; for each unit, the result is that unit with the distance floored to it (weeks, months and years as 7, 30 and 365 days) iff the distance lies in the unit's range: [1 min, 1 h), [1 h, 1 day), [1, 7), [7, 30), [30, 365) days, and from 365 days on; the count is at least 1 |
| RelativeTime.BucketSymmetric | components/forum-topic-card.tsx:21 | the result depends only on the absolute difference |
| RelativeTime.BucketOrdered | components/forum-topic-card.tsx:27-33 | a longer distance never gets a smaller unit |
| RelativeTime.Label | components/forum-topic-card.tsx:28-33 | the label is the decimal count, the unit, "s" iff the count exceeds 1, and "ago" |
| RelativeTime.PluralIffMany | components/forum-topic-card.tsx:28-33 | the label ends in "s ago" iff the count is above one |
| RelativeTime.FormatLastActivity | components/forum-topic-card.tsx:18-34 | the text is "Just now" iff the times are under a minute apart, and otherwise the label of the bucket |
| RelativeTime.UnitsOfMs | components/forum-topic-card.tsx:22-25 | flooring seconds to minutes, minutes to hours and hours to days equals flooring the milliseconds by the unit length |
| TagCounts.GetTagCounts | app/forum/layout.tsx:11-38 | one entry per known tag in the fixed order; each count is the last aggregated count for that tag, 0 when absent or when the aggregation failed |
| TagCounts.LastCountAbsent | app/forum/layout.tsx:27-32 | a tag no row names keeps count 0 |
| TagCounts.LastCountUnique | app/forum/layout.tsx:28-32 | a tag named by one row gets that row's count |
| TagCounts.TagCountsAreOccurrences | app/forum/layout.tsx:15-32 | with rows grouped from the topics' tag lists, each count equals the tag's number of occurrences |
| Signup.RemoveSpaces | app/api/auth/signup/route.ts:12 | no whitespace and no upper-case letter remains, and every non-space character survives lower-cased |
| Signup.RemoveSpacesChar | app/api/auth/signup/route.ts:12 | a whitespace character is removed, any other character is lower-cased |
| Signup.RemoveSpacesAppend | app/api/auth/signup/route.ts:12 | the result for a concatenation is the concatenation of the results, so order and multiplicity are kept |
| Signup.RemoveSpacesIdempotent | app/api/auth/signup/route.ts:12 | applying it twice is applying it once |
| Signup.SignupFieldErrors | app/api/auth/signup/route.ts:14-24 | name 2-50, a valid email and the password rule are each rejected iff violated |
| Signup.CandidateInjective | app/api/auth/signup/route.ts:37-39 | different attempts try different usernames |
| Signup.UserStore.constructor | app/api/auth/signup/route.ts:49-56 | the empty user collection satisfies the uniqueness invariant |
| Signup.UserStore.UniqueUsername | app/api/auth/signup/route.ts:33-40 | the result is free, has the base as prefix, is the base when that is free, and is the first candidate not taken |
| Signup.UserStore.SignUp | app/api/auth/signup/route.ts:26-64 | 400 on schema failure, 409 on a used email, 500 for an empty username, all without change; otherwise 201 with the chosen username and one appended user with display name, email, hash and role "user" |
| Middleware.Decide | middleware.ts:5-33 | the decision is a redirect or a bare pass, or none |
| Middleware.SecurityHeaders | middleware.ts:36-43 | exactly the four security headers with their values |
| Middleware.Handle | middleware.ts:5-50 | only matcher paths run; auth pages redirect signed-in users to "/" and pass others bare; signed-out forum/admin requests go to /login with the path as callback; non-admins on /admin go to "/"; every other request continues with exactly the four security headers and their values |
| Middleware.MatchedPrefixes | middleware.ts:8-9 | on matched paths the prefix tests coincide with the matcher's sections |
| Middleware.GateIsSound | middleware.ts:11-33 | a request let through never reaches forum or admin signed out, nor admin as a non-admin |
| AdminSpots.NewSpot | app/api/admin/spots/route.ts:73-76 | the stored spot satisfies the schema, keeps every field of the request and has `createdBy` = session user |
| AdminSpots.NewSpotIgnoresBodyCreator | app/api/admin/spots/route.ts:69-76 | a `createdBy` sent in the body never reaches the stored spot |
| AdminSpots.SpotStore.constructor | app/api/admin/spots/route.ts:14-37 | the empty collection satisfies the schema invariant |
| AdminSpots.SpotStore.List | app/api/admin/spots/route.ts:39-49 | 401 iff not admin; otherwise exactly the stored spots, newest first |
| AdminSpots.SpotStore.Create | app/api/admin/spots/route.ts:58-85 | 401 unless admin, 400 on schema failure, both without change; otherwise 201 and one appended spot created by the session user |
| SpotsList.SortOption | components/spots-list.tsx:39-55 | the difficulty and newest keys are chosen by exactly their values; everything else sorts by name |
| SpotsList.LexLeTotal | components/spots-list.tsx:42 | the name order compares any two names |
| SpotsList.LexLeTransitive | components/spots-list.tsx:42 | the name order is transitive |
| SpotsList.BeforeIsPreorder | components/spots-list.tsx:39-55 | each sort key induces a total preorder |
| SpotsList.FindSpots | components/spots-list.tsx:19-59 | exactly the spots matching every active constraint, each once, ordered by the selected key |
| SpotsList.LoadSpots | components/spots-list.tsx:19-65 | the load fails iff the difficulty is active and `Number.parseInt` reads no number from it (NaN fails the store's number cast); otherwise it yields the found spots |
| SpotsList.UnreadableDifficultyFails | components/spots-list.tsx:112-118 | `difficulty=abc` renders the load-error alert, not "No surf spots found" |
| SpotsList.ReadableDifficultyLoads | components/spots-list.tsx:25-27 | a readable or inactive difficulty never renders the load-error alert |
| SpotsList.Render | components/spots-list.tsx:71-118 | error alert iff the load failed, "No surf spots found" iff the result is empty, else the spots as cards |
| SpotsList.DifficultyDigits | components/spots-list.tsx:25-27 | a digit-string difficulty selects exactly the spots with that number |
| SpotsList.HexDifficulty | components/spots-list.tsx:25-27 | `Number.parseInt` without a radix reads a `0x` prefix as base 16: `0x<h>` selects exactly the spots whose difficulty is the hexadecimal value of h |
| Text.ParseInt | components/spots-list.tsx:26 | a number is read iff a digit follows the optional whitespace and sign (a hexadecimal digit after a `0x` prefix); its sign is the written one |
| Text.ParseIntOfHex | components/spots-list.tsx:26 | `0x` followed by hexadecimal digits parses to their base-16 value |
| Text.ParseIntStopsAtNonDigit | components/spots-list.tsx:26 | digits followed by anything that is not a digit (a `.`, a letter, the end) read as the digits' decimal value |
| Text.ParseIntNegates | components/spots-list.tsx:26 | a leading `-` negates what the rest reads as, and NaN stays NaN |
| Text.ParseIntSkipsSpaces | components/spots-list.tsx:26 | leading whitespace does not change the result |
| Text.ParseIntTrailing | components/spots-list.tsx:26 | `3.7` and `3abc` both read as 3 |
| Text.ParseIntNaN | components/spots-list.tsx:26 | `abc` and a bare `0x` read as NaN |
| Text.ParseIntSpaceExample | components/spots-list.tsx:26 | ` -3` reads as -3 |
| SpotFilters.SetOrDelete | components/spot-filters.tsx:48-52 | the key is set or removed and no other key changes |
| SpotFilters.Params | components/spot-filters.tsx:45-76 | each non-empty filter is written and each empty one removed; sort is written only when non-empty and not "name"; other parameters are untouched |
| SpotFilters.ReadBackParams | app/spots/page.tsx:30-34 | reading the written URL back gives the values written (empty sort as "name") |
| SpotFilters.AnyIsWritten | components/spot-filters.tsx:253-257 | after the dialog's Reset, the "any" values are written to the URL and still count as active filters |
| SpotFilters.FilterBar.constructor | components/spot-filters.tsx:31-41 | committed and temporary values start from the props, dialog closed |
| SpotFilters.FilterBar.ApplyFilters | components/spot-filters.tsx:45-79 | the URL becomes `Params` of the old URL and the committed values, and reads back as them |
| SpotFilters.FilterBar.ResetFilters | components/spot-filters.tsx:81-91 | filters cleared, sort "name", temporaries cleared, bare URL, no active filter |
| SpotFilters.FilterBar.SetDialogOpen | components/spot-filters.tsx:105-113 | opening copies the committed values to the temporaries |
| SpotFilters.FilterBar.ChooseInDialog | components/spot-filters.tsx:201-235 | a dialog select changes only its temporary value |
| SpotFilters.FilterBar.ResetDialog | components/spot-filters.tsx:253-257 | the temporaries become "any" |
| SpotFilters.FilterBar.ApplyDialogAsWritten | components/spot-filters.tsx:93-103 | temporaries committed and dialog closed, but the URL is built from the previously committed values |
| SpotFilters.FilterBar.ApplyDialog | components/spot-filters.tsx:93-103 | temporaries committed, dialog closed, and the URL reads back as the new committed values |
| SpotFilters.FilterBar.SelectSortAsWritten | components/spot-filters.tsx:165-168 | the sort is committed but the URL is built with the previous sort |
| SpotFilters.FilterBar.SelectSort | components/spot-filters.tsx:165-168 | the sort is committed and the URL reads back with it |
| SpotFilters.FilterBar.TypeSearch | components/spot-filters.tsx:145 | typing commits the search text and leaves the URL |
| SpotFilters.FilterBar.SearchSettled | components/spot-filters.tsx:115-123 | the debounced effect applies the filters iff the search differs from the page's |
| SpotFilters.FilterBar.ClearFilterAsWritten | components/spot-filters.tsx:277-280 | the filter is cleared but the URL is built with it still set |
| SpotFilters.FilterBar.ClearFilter | components/spot-filters.tsx:277-280 | the filter is cleared and the URL reads back without it |
| SpotFilters.FilterBar.ReceiveProps | components/spot-filters.tsx:126-135 | new props reset committed difficulty, wave type, season and sort and the temporaries; the typed search stays |
| SpotFilters.Cleared | components/spot-filters.tsx:277-314 | exactly the chosen filter becomes "" |
| SpotFilters.StaleDialogApply | components/spot-filters.tsx:93-103 | choosing difficulty 3 and applying commits "3" but the URL has no difficulty |
| SpotFilters.FreshDialogApply | components/spot-filters.tsx:93-103 | the same steps with the intended Apply put "3" in the URL |
| TopicForm.AddTag | components/create-topic-form.tsx:31-35 | the tag is appended iff absent, and duplicate-freedom is kept |
| TopicForm.RemoveTag | components/create-topic-form.tsx:37-39 | the tag is gone and exactly the other tags remain |
| TopicForm.AddTagTwice | components/create-topic-form.tsx:31-35 | adding a tag twice equals adding it once |
| TopicForm.RemoveTagKeepsOrder | components/create-topic-form.tsx:37-39 | removing a tag joins the tags before and after it in order |
| TopicForm.RemoveTagNoDup | components/create-topic-form.tsx:37-39 | removal keeps the list duplicate-free |
| TopicForm.AddThenRemove | components/create-topic-form.tsx:31-39 | adding a new tag and removing it restores the list |
| TopicForm.PickedTagsNoDup | components/create-topic-form.tsx:24-35 | tags picked from an empty form never repeat |
| TopicForm.Submit | components/create-topic-form.tsx:41-63 | nothing happens without a user; with no tag an error is set; otherwise the request carries title, content, tags, the selected spot as `linkedSpot` and the user |
| TopicForm.FieldLines | components/create-topic-form.tsx:76-78 | one line per rejected field, in order, each the field name, ": " and its errors joined by ", " |
| TopicForm.Settle | components/create-topic-form.tsx:65-88 | never left loading; success clears title, content, tags and spot; failure shows its message |
| TopicForm.SubmitAndCreate | components/create-topic-form.tsx:41-71 | a submit answered with success leaves the empty form |
| ImageUpload.CheckFile | app/admin/spots/image-upload.tsx:22-44 | no file, a non-image type, a size over 5 MiB, or an upload, each iff its condition |
| ImageUpload.FileChanged | app/admin/spots/image-upload.tsx:22-83 | refused files change nothing but the toast; a URL is reported iff both guards pass and the upload succeeds; the busy flag is cleared after every attempt |
| ImageUpload.Removed | app/admin/spots/image-upload.tsx:85-88 | the image is cleared and "" is reported |
| ImageUpload.SizeBoundary | app/admin/spots/image-upload.tsx:37 | exactly 5 MiB is accepted, one byte more refused |
| ImageUpload.IdleAfterChoice | app/admin/spots/image-upload.tsx:46-77 | an idle picker is idle again after any choice |
| ImageUpload.RefusedFileChangesNothing | app/admin/spots/image-upload.tsx:23-44 | a refused file leaves the picker as it was and reports nothing |

## Left out

- Sessions, tokens and their issuance are inputs: a caller id, an optional
  role, or a decoded token.
- The rate limiter of the topic routes is left out.
- Password hashing is an input: the hash is passed in beside the password.
- Whether an address passes the email check is an input.
- The upload request and its blob storage are an input: the returned URL,
  or None when it failed.
- Toasts, `console` output and rendering are left out; a view is reduced to
  which branch renders.
- Database connection handling is left out. Documents are values in maps
  and sequences.
- `populate` is left out: referenced documents are shown by id.
- `updatedAt` timestamps are left out. `createdAt` is a natural passed in
  by the caller.
- Concurrency is left out: each handler runs to completion alone. This
  covers the check-then-update of reports and the non-atomic delete
  cascade.
- Regular expressions are modelled as ASCII case-insensitive substring
  search. A search string is not interpreted as a pattern.
- Strings are compared by character code; Unicode case folding and
  collation are not modelled.
- String lengths are counted in characters, while the request schemas'
  `min`/`max` count UTF-16 code units. A character outside the Basic
  Multilingual Plane (an emoji) counts once here and twice in the source.
  So a 300-emoji report reason passes the 500 limit here and is refused
  with 400 by the source. The same applies to the title (5-100) and
  content (10-5000) of a topic and to the sign-up name
  (2-50) and password (at least 8).
- Numbers in the spot schema are exact reals. Floating point is not
  modelled, and neither is `parseFloat` in the admin spot form.
- A query string that fails the listing schemas makes `parse` throw
  outside the handlers' `try`. The model takes already-parsed parameters.
- Malformed ObjectId strings are not modelled: ids are naturals.
- ModerationListing.PageOf: `limit / 2` is integer division, while the
  source passes a possibly fractional limit to the store.
- The URL query is a map from name to value. Parameter order and repeated
  parameters of `URLSearchParams` are not modelled.
- The 500 answers for unexpected store errors are not modelled, except
  where the model shows why they happen: a negative skip, an unknown tag,
  an empty username, or a spot-list difficulty that reads as NaN (the
  spot list then shows its load-error alert).

## Findings

| source | as written | input that shows it | evidently intended | confidence | as-written member | corrected member |
|---|---|---|---|---|---|---|
| components/spot-filters.tsx:93-103 | Apply commits the dialog values with `setState` and then runs the `applyFilters` closure of the same render. That closure still holds the previous values. The sort select (165-168) and the X buttons (153-156, 277-280, 293-296, 309-312) share the pattern. For the search X, the debounced effect (115-123) rewrites the URL 500 ms later whenever the page's search was non-empty. | Committed difficulty "", dialog difficulty "3", press Apply: the URL has no `difficulty`, so the spot list stays unfiltered while the badge shows "Difficulty: 3". | The URL carries the values just committed. | not executed | SpotFilters.FilterBar.ApplyDialogAsWritten | SpotFilters.FilterBar.ApplyDialog |
