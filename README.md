# Date-poll scheduler: a Dafny model of its server functions and client tally

This project models the core of a date-poll scheduler in Dafny. An organiser
creates an event with up to seven candidate dates. The organiser gets a
public share link and a secret admin link. Participants register under a
nickname with a device fingerprint. Each participant answers every date with
no (0), maybe (1) or yes (2), and the client ranks the dates by score.

What is modelled:

- **Shared helpers** (`shared_utils.dfy`, module `SharedUtils`):
  - JSON and error responses;
  - the required-field check;
  - base62 ids and random hex;
  - the SHA-256 hex digest string;
  - the per-key fixed-window rate limiter, as a class over a map that its methods update.
- **The database** (`store.dfy`, module `EventStore`): a class `Store`.
  - It holds the five tables (events, options, participants, votes, links) as sequences in insertion order.
  - Its methods are the inserts, updates, upserts and the cascading delete the functions use.
  - Its invariant `Valid` states:
    - unique ids;
    - unique share ids;
    - unique (event, device) and (option, participant) pairs;
    - every foreign key resolves;
    - a vote's option and participant belong to the same event.
- **Each edge function**, as a spec function from the old tables to an `Effect`:
  - `create_event.dfy`, `upsert_participant.dfy`, `submit_votes.dfy`, `delete_event.dfy`, `get_event_admin.dfy`, `get_event.dfy`.
  - An `Effect` is the response, modelled as status and body, together with the new tables.
  - A handler method performs the same steps on the `Store`. It is proved to produce exactly that effect and to keep `Valid`.
  - Admin-key checks are shared in `admin_auth.dfy`.
- **`getEventStats`** (`scheduler.dfy`, module `Tally`):
  - counts per option;
  - score = 2·yes + maybe;
  - a stable sort by descending score (`ordering.dfy`).
- **The browser storage helpers** (`storage.dfy`, module `ClientStorage`): a class `LocalStorage` over a key/value map.
  - Each value is modelled by what `JSON.parse` makes of it: a participant record, a list of created events, or plain text.
  - Participant credentials are stored per share id and expire after 30 days.
  - The created-events list keeps at most 50 entries, newest first, and drops entries older than 90 days.

Some things the code does are not computed by the model. Each handler instead receives them as parameters:
- random ids and keys;
- UUIDs;
- the clock;
- the SHA-256 digest function;
- a failure flag for each write: the inserts, the update, the vote upserts, the rollback and the cascading delete;
- a failure flag for each of the three reads that follow the event lookup in `get-event` and `get-event-admin`.

The lookups have no failure flag: the events by share id or id, the participant by device, the collision query, and the participant and option checks of `submit-votes` always answer from the tables.

Requests arrive already parsed:
- the body, as an optional object of optional fields;
- the URL path;
- the relevant headers.

Where the code does not do what its comments and messages suggest, the model follows the code:
- **Nickname collisions.** The handler runs the collision query as written (`NicknameAsWritten`). That query misses a name that two participants already share (`DuplicateNameSlipsThrough`; see Findings). The corrected rule `NewNickname` always gives an unused name (`NewNicknameIsFree`). While an event's nicknames are distinct, both rules pick the same name (`NicknameRulesAgree`).
- **Date format.** The date check of `create-event` tests only the format `\d{4}-\d{2}-\d{2}`, not whether the date exists. So `2024-13-99` passes (`Text.DateFormatExamples`).

## Model

| member | source | states |
|---|---|---|
| Types.VoteValue.Code | app/src/lib/types/database.ts:145-150 | the code of a vote value is 0, 1 or 2 |
| Types.VoteValueOf | app/src/lib/types/database.ts:145-150 | a code names a vote value exactly when it is 0, 1 or 2, and that value's code is the code given |
| Types.VoteValueRoundTrip | app/src/lib/types/database.ts:145-150 | reading back the code of a vote value gives the value |
| Types.PublicView | app/supabase/functions/get-event/index.ts:33 | the public event has every column of the row except the admin key hash |
| Requests.SegmentAfterEvents | app/supabase/functions/upsert-participant/index.ts:24-26 | the share id is the part after the first `events` part when there is one, and never holds a '/' |
| Requests.NoEventsSegment | app/supabase/functions/upsert-participant/index.ts:24-26 | for a path starting with '/' and without an `events` part, the share id read is the empty first part |
| Requests.LastSegment | app/supabase/functions/get-event/index.ts:18-19 | the last part holds no '/', and is empty exactly when the path is empty or ends in '/' |
| Requests.SplitLastStep | app/supabase/functions/get-event/index.ts:18-19 | past the first separator the last part of the split is the last part of the split of the rest |
| Requests.SplitWithoutSeparator | app/supabase/functions/get-event/index.ts:18-19 | a path without '/' splits into itself |
| Requests.LastPartOfSplit | app/supabase/functions/get-event/index.ts:18-19 | the last part of a split is empty exactly when the string is empty or ends in '/' |
| Requests.ClientIp | app/supabase/functions/upsert-participant/index.ts:33 | the client address is the `x-forwarded-for` header when it is non-empty and `unknown` otherwise, never empty |
| Text.IndexOfChar | app/supabase/functions/get-event/index.ts:18 | the first position of the character, or -1 exactly when it does not occur |
| Text.Split | app/supabase/functions/get-event/index.ts:18 | a split has at least one part and no part holds the separator |
| Text.JoinSplit | app/supabase/functions/get-event/index.ts:18 | joining the parts of a split with the separator gives the string back |
| Text.IndexOf | app/supabase/functions/upsert-participant/index.ts:25 | the first position of the part, or -1 exactly when it does not occur |
| Text.DigitChar | app/supabase/functions/upsert-participant/index.ts:117 | a digit below 10 prints as the ASCII digit of that value |
| Text.NatToString | app/supabase/functions/upsert-participant/index.ts:117 | a number prints as at least one ASCII digit |
| Text.ParseNatToString | app/supabase/functions/upsert-participant/index.ts:117 | reading back the printed numeral of a number gives the number |
| Text.NatToStringInjective | app/supabase/functions/upsert-participant/index.ts:117 | different numbers print differently, so the nickname candidates are all distinct |
| Text.DateFormatExamples | app/supabase/functions/create-event/index.ts:43 | the pattern accepts 2024-01-31 and also 2024-13-99, and rejects 2024-1-31 and 2024/01/31 |
| Text.IsDateFormat | app/supabase/functions/create-event/index.ts:43-45 | `/^\d{4}-\d{2}-\d{2}$/`: ten characters, digits everywhere except '-' at positions 4 and 7 |
| SharedUtils.JsonResponse | app/supabase/functions/_shared/utils.ts:48-61 | the response carries the given status (200 by default) and the given data as its JSON body |
| SharedUtils.ErrorResponse | app/supabase/functions/_shared/utils.ts:66-78 | the response carries the given status (400 by default) and a body holding the message and the optional details |
| SharedUtils.MissingFields | app/supabase/functions/_shared/utils.ts:99 | each field reported missing is listed and falsy in the object, and every listed falsy field is reported |
| SharedUtils.ValidateRequired | app/supabase/functions/_shared/utils.ts:95-103 | fails exactly when some listed field is falsy, with "Missing required fields: " followed by the missing fields joined by ", " |
| SharedUtils.MissingFieldsInOrder | app/supabase/functions/_shared/utils.ts:99 | the missing fields are a subsequence of the listed fields, in the order they were listed |
| SharedUtils.ValidateRequiredExample | app/supabase/functions/_shared/utils.ts:95-103 | a truthy title and an empty (truthy) array pass; an empty title and an absent dates field fail naming both |
| SharedUtils.GenerateBase62Id | app/supabase/functions/_shared/utils.ts:6-13 | the id has the requested length (none for a negative length) and its i-th character is the alphabet entry of the i-th random pick |
| SharedUtils.HexDigit | app/supabase/functions/_shared/utils.ts:21 | a digit below 16 prints as a lowercase hex character |
| SharedUtils.ToRadix16 | app/supabase/functions/_shared/utils.ts:21 | `toString(16)` of a natural number has at least one digit |
| SharedUtils.PadStart | app/supabase/functions/_shared/utils.ts:21 | `padStart` yields the longer of the string and the width |
| SharedUtils.ByteToHex | app/supabase/functions/_shared/utils.ts:21 | a byte prints as exactly two lowercase hex digits, high nibble first |
| SharedUtils.HexEncode | app/supabase/functions/_shared/utils.ts:33 | the encoding of n bytes has 2n characters |
| SharedUtils.HexEncodeAt | app/supabase/functions/_shared/utils.ts:33 | characters 2k and 2k+1 of the encoding are the high and low nibble digits of byte k |
| SharedUtils.HexEncodeIsLowercaseHex | app/supabase/functions/_shared/utils.ts:33 | every character of the encoding is a lowercase hex digit |
| SharedUtils.HexValue | app/supabase/functions/_shared/utils.ts:21 | a character read as a hex digit has a value below 16 that prints back as that character |
| SharedUtils.HexDecode | app/supabase/functions/_shared/utils.ts:28-33 | reads lowercase hex pairs back into bytes, the partner of the encoding; HexRoundTrip proves it inverts HexEncode |
| SharedUtils.HexValueOfDigit | app/supabase/functions/_shared/utils.ts:21 | each printed hex digit reads back as its value |
| SharedUtils.DecodePair | app/supabase/functions/_shared/utils.ts:21 | the two digits of a byte read back as that byte, leaving the rest of the string |
| SharedUtils.HexRoundTrip | app/supabase/functions/_shared/utils.ts:33 | decoding the hex encoding of any byte string gives the bytes back |
| SharedUtils.HexEncodeInjective | app/supabase/functions/_shared/utils.ts:33 | different byte strings have different hex encodings |
| SharedUtils.GenerateRandomHex | app/supabase/functions/_shared/utils.ts:18-22 | the result has two lowercase hex digits for each of the length / 2 random bytes |
| SharedUtils.HashString | app/supabase/functions/_shared/utils.ts:28-34 | the hash string has two hex characters per digest byte |
| SharedUtils.HashStringShape | app/supabase/functions/_shared/utils.ts:28-34 | a 32-byte SHA-256 digest prints as 64 lowercase hex digits |
| SharedUtils.HashStringMatches | app/supabase/functions/_shared/utils.ts:28-34 | two hash strings are equal exactly when the digests are equal |
| SharedUtils.AdmitOpensWindow | app/supabase/functions/_shared/utils.ts:117-122 | a key with no record, or whose reset time has passed, gets a fresh record with count 1 and reset time now + windowMs, and is allowed |
| SharedUtils.AdmitWithinWindow | app/supabase/functions/_shared/utils.ts:124-129 | inside the window, a record at the limit is denied and unchanged; otherwise its count goes up by one and the call is allowed |
| SharedUtils.AdmitKeepsBound | app/supabase/functions/_shared/utils.ts:111-130 | with a limit of at least one, every count stays at most the limit, the key gains an entry and every other key's entry is unchanged |
| SharedUtils.Admit | app/supabase/functions/_shared/utils.ts:111-130 | one `checkRateLimit` call as a value: the new map and the verdict; the three lemmas above state its cases and bound |
| SharedUtils.Sweep | app/supabase/functions/_shared/utils.ts:135-142 | `cleanupRateLimits` as a value: the entries whose reset time has not passed |
| SharedUtils.Replay | app/supabase/functions/_shared/utils.ts:111-130 | a run of calls yields one answer per call |
| SharedUtils.ReplayWithinWindow | app/supabase/functions/_shared/utils.ts:111-130 | inside one window that has already counted c requests, the k-th further call is allowed exactly when c + k is below the limit |
| SharedUtils.BurstFromFreshKey | app/supabase/functions/_shared/utils.ts:111-130 | for a fresh key, a call inside the window opened by the first call is allowed exactly when fewer than the limit came before it |
| SharedUtils.TenThenDenied | app/supabase/functions/_shared/utils.ts:111-130 | with the defaults of 10 per 60000 ms, eleven calls within a minute of the first give ten passes and a denial, and a call after that minute passes |
| SharedUtils.ReplayKeepsWindow | app/supabase/functions/_shared/utils.ts:119-120 | calls inside the window opened by the first call keep the key, with its reset time at the first call plus windowMs |
| SharedUtils.ReplayStaysInWindow | app/supabase/functions/_shared/utils.ts:124-129 | calls that all fall inside an existing window keep the key and its reset time |
| SharedUtils.RateLimiter.constructor | app/supabase/functions/_shared/utils.ts:109 | the rate limit map starts empty |
| SharedUtils.RateLimiter.CheckRateLimit | app/supabase/functions/_shared/utils.ts:111-130 | the new map and the answer are those of Admit, and the call is allowed exactly when the key has no record, its window has passed, or its count is below the limit |
| SharedUtils.RateLimiter.CleanupRateLimits | app/supabase/functions/_shared/utils.ts:135-142 | exactly the entries whose reset time has passed are deleted, and the others are kept as they were |
| EventStore.FindEventByShareId | app/supabase/functions/get-event/index.ts:31-39 | a row found has the share id and is in the table, and nothing is found exactly when no row has that share id |
| EventStore.FindEventById | app/supabase/functions/delete-event/index.ts:37-45 | a row found has the id and is in the table, and nothing is found exactly when no row has that id |
| EventStore.FindParticipantByDevice | app/supabase/functions/upsert-participant/index.ts:72-77 | a row found is of the event and the device, and nothing is found exactly when no row is |
| EventStore.FindParticipantOfEvent | app/supabase/functions/submit-votes/index.ts:76-85 | a row found has the id and the event, and nothing is found exactly when no participant of the event has that id |
| EventStore.OptionOfEvent | app/supabase/functions/submit-votes/index.ts:90-100 | the option is found exactly when the options table has a row with that id in that event |
| EventStore.IdLookupIsUnique | app/supabase/functions/delete-event/index.ts:37-41 | under the primary key, looking up a row's id finds that very row |
| EventStore.ShareIdLookupIsUnique | app/supabase/functions/get-event/index.ts:31-35 | under the unique share id, looking up a row's share id finds that very row |
| EventStore.DeviceLookupIsUnique | app/supabase/functions/upsert-participant/index.ts:72-77 | under the unique (event, device) key, the device lookup finds the one row with that key |
| EventStore.UpsertVoteRowsValid | app/supabase/functions/submit-votes/index.ts:103-112 | an upsert by a participant of the event on an option of the event, with the value 0, 1 or 2, keeps the votes table valid |
| EventStore.UpsertVoteRows | app/supabase/functions/submit-votes/index.ts:103-112 | the upsert on (option, participant): the existing row gets the value, or a new row is appended; UpsertVoteRowsValid shows it keeps the invariant |
| EventStore.Store.constructor | app/supabase/functions/create-event/index.ts:62-72 | the store starts with five empty tables, which are valid |
| EventStore.Store.InsertEvent | app/supabase/functions/create-event/index.ts:62-77 | the insert succeeds exactly without a fault and with a new id and share id, appends the row, and keeps the store valid |
| EventStore.Store.InsertOptions | app/supabase/functions/create-event/index.ts:86-95 | the insert of all rows succeeds exactly without a fault, with unique ids and known events, appends them all or none |
| EventStore.Store.InsertLinks | app/supabase/functions/create-event/index.ts:103-110 | the insert of all rows succeeds exactly without a fault, with unique ids and known events, appends them all or none |
| EventStore.Store.InsertParticipant | app/supabase/functions/upsert-participant/index.ts:125-138 | the insert succeeds exactly without a fault, with a new id, a new (event, device) pair and a known event, and appends the row |
| EventStore.Store.UpdateNickname | app/supabase/functions/upsert-participant/index.ts:81-91 | without a fault only that row's nickname changes, and a fault changes nothing |
| EventStore.Store.UpsertVote | app/supabase/functions/submit-votes/index.ts:103-117 | the upsert succeeds exactly without a fault and when it updates a row or has a fresh id; it then leaves UpsertVoteRows of the old votes, otherwise nothing changes |
| EventStore.Store.DeleteEvent | app/supabase/functions/delete-event/index.ts:53-62 | without a fault the event and every option, participant, vote and link of it are removed and the store stays valid; a fault changes nothing |
| EventStore.EventIdsWithout | app/supabase/functions/delete-event/index.ts:53-57 | every other event id survives the delete |
| EventStore.CascadeKeepsValid | app/supabase/functions/delete-event/index.ts:53-57 | the delete with its cascade keeps every key and every foreign key valid |
| EventStore.CascadeRemovesExactlyTheEvent | app/supabase/functions/delete-event/index.ts:53-57 | after the cascade no row refers to the deleted event, and every row of another event is still there |
| EventStore.RollbackRestores | app/supabase/functions/create-event/index.ts:90-95 | deleting an event nothing refers to removes only its own row, so the rollback restores every table |
| AdminAuth.AuthorizedIff | app/supabase/functions/get-event-admin/index.ts:17-51 | with unique event ids, a request is authorized exactly when the last path segment is non-empty, a non-empty key is sent, and an event with that id stores the key's hash; the event it gets is that event |
| AdminAuth.IssuedKeyIsAccepted | app/supabase/functions/delete-event/index.ts:36-51 | for an event stored with the hash of an issued key, a sent key is accepted exactly when its SHA-256 digest equals the issued key's |
| AdminAuth.Authorize | app/supabase/functions/get-event-admin/index.ts:17-51 | the guard chain shared with delete-event: 400 without an event id, 401 without a key, 404 for an unknown event, 403 for a wrong key; AuthorizedIff states when it lets a request through |
| AdminSnapshot.AdminViewIsPublicView | app/supabase/functions/get-event-admin/index.ts:54-97 | once authorized, the admin view is exactly what get-event returns under the event's share id |
| AdminSnapshot.RejectionRevealsNothing | app/supabase/functions/get-event-admin/index.ts:21-51 | without an event of that id whose hash matches the sent key, the answer is an error body with status 400, 401, 403 or 404 |
| AdminSnapshot.GetEventAdmin | app/supabase/functions/get-event-admin/index.ts:17-98 | the handler as a value: the Authorize guards, then the reads with the key hash removed from the event |
| DeleteEvent.HandleDeleteEvent | app/supabase/functions/delete-event/index.ts:15-73 | a rejected request returns the guard's error and changes nothing; a failed delete returns a 500 with the database error and changes nothing; otherwise the event and every option, participant, vote and link of it are gone and all other rows stay |
| DeleteEvent.DeletedEventIsGone | app/supabase/functions/delete-event/index.ts:53-57 | after the delete neither the event's id nor its share id finds it |
| DeleteEvent.OtherEventsRemain | app/supabase/functions/delete-event/index.ts:53-57 | after the delete every other event is still found by its id and by its share id |
| CreateEvent.FirstDateError | app/supabase/functions/create-event/index.ts:43-48 | there is no error exactly when every date matches YYYY-MM-DD; an error is the message of some malformed date |
| CreateEvent.CheckDates | app/supabase/functions/create-event/index.ts:43-48 | the loop returns the message of the first date that does not match the pattern, or none |
| CreateEvent.Validate | app/supabase/functions/create-event/index.ts:23-48 | the body passes exactly when it is an object with a title of 1 to 200 characters and an array of 1 to 7 dates, each of the form YYYY-MM-DD |
| CreateEvent.ShareIdOf | app/supabase/functions/create-event/index.ts:57 | the share id has 10 characters, all from the base62 alphabet |
| CreateEvent.OptionRows | app/supabase/functions/create-event/index.ts:80-84 | there is one option row per date |
| CreateEvent.AdminKeyOf | app/supabase/functions/create-event/index.ts:58 | the admin key is 32 lowercase hex digits |
| CreateEvent.CreateSucceeded | app/supabase/functions/create-event/index.ts:23-124 | a 201 means the body passed, the event insert succeeded, and the result is the event row followed by its option rows and links |
| CreateEvent.CreatedEventIsStored | app/supabase/functions/create-event/index.ts:56-72 | after a 201 one event row is appended, with the returned id and share id, the SHA-256 hash of the returned admin key, the title, and the memo or null |
| CreateEvent.CreatedOptionsAreTheDates | app/supabase/functions/create-event/index.ts:80-88 | after a 201 the event's options are the dates sent, in order, with sort indices 0, 1, 2, ... |
| CreateEvent.OptionRowsFollowDates | app/supabase/functions/create-event/index.ts:80-84 | option row i has sort index i and date i |
| CreateEvent.FailedOptionsRollBack | app/supabase/functions/create-event/index.ts:90-95 | when the options cannot be written and the rollback succeeds, every table is as it was before |
| CreateEvent.CredentialShapes | app/supabase/functions/create-event/index.ts:57-124 | a 201 returns a 10-character base62 share id, a 32-digit hex admin key, the share URL `<base>/scheduler/s/<share id>` and the admin URL `<base>/scheduler/e/<event id>?k=<admin key>`, with the origin header or the default domain as base |
| CreateEvent.CheckBody | app/supabase/functions/create-event/index.ts:23-48 | the handler's checks, one after the other, give Validate's outcome |
| CreateEvent.WriteEvent | app/supabase/functions/create-event/index.ts:61-124 | the inserts and the rollback leave the response and the tables of Write, keep the store valid, and never touch participants or votes |
| CreateEvent.AfterEventIn | app/supabase/functions/create-event/index.ts:79-95 | once the event row is in, the option inserts and the rollback give AfterEvent's response and tables |
| CreateEvent.PublishIn | app/supabase/functions/create-event/index.ts:97-124 | the link inserts and the 201 answer give Publish's response and tables; a link failure is only logged |
| CreateEvent.HandleCreateEvent | app/supabase/functions/create-event/index.ts:21-131 | the response and the tables are those of Create on the old state, the store stays valid, and participants and votes are untouched |
| CreateEvent.Create | app/supabase/functions/create-event/index.ts:21-131 | the whole handler as a value of the old tables: the body checks, then Write; CreateSucceeded and the lemmas after it state what a 201 means, and HandleCreateEvent is proved to compute it |
| CreateEvent.Write | app/supabase/functions/create-event/index.ts:56-124 | the event insert with its 500, then AfterEvent |
| CreateEvent.AfterEvent | app/supabase/functions/create-event/index.ts:79-124 | the option inserts, the rollback delete and its 500, then Publish |
| CreateEvent.Publish | app/supabase/functions/create-event/index.ts:97-124 | the link inserts, whose failure is ignored, and the 201 body with both URLs |
| CreateEvent.NewEventRow | app/supabase/functions/create-event/index.ts:61-72 | the inserted event row: id, title, stored memo, key hash, share id and timestamps |
| CreateEvent.StoredMemo | app/supabase/functions/create-event/index.ts:67 | `memo \|\| null`: an absent or empty memo is stored as null |
| CreateEvent.LinkRows | app/supabase/functions/create-event/index.ts:98-101 | the share link holding the share id and the admin link holding the admin key |
| CreateEvent.AdminUrl | app/supabase/functions/create-event/index.ts:114 | the admin URL template `<base>/scheduler/e/<event id>?k=<admin key>` |
| CreateEvent.ShareUrl | app/supabase/functions/create-event/index.ts:115 | the share URL template `<base>/scheduler/s/<share id>` |
| CreateEvent.CreatedLinksHoldTheKey | app/supabase/functions/create-event/index.ts:97-110 | after a 201 the links table is unchanged or gains exactly the share link holding the share id and the admin link holding the plaintext admin key; a failed links insert changes nothing and still answers 201 |
| UpsertParticipant.Validate | app/supabase/functions/upsert-participant/index.ts:40-53 | the body passes exactly when it is a JSON object whose nickname has 1 to 16 characters and whose device hash has at least 32 |
| UpsertParticipant.FirstFreeFailsIffAllTaken | app/supabase/functions/upsert-participant/index.ts:104-122 | the collision search gives up exactly when every candidate from the given suffix up to `nickname100` is taken |
| UpsertParticipant.FirstFreeIsLeast | app/supabase/functions/upsert-participant/index.ts:104-122 | a name the search returns is a free candidate, and every candidate with a smaller suffix is taken |
| UpsertParticipant.ResolveNickname | app/supabase/functions/upsert-participant/index.ts:104-122 | the collision loop returns the first candidate the query does not report, or nothing after `nickname100` |
| UpsertParticipant.FirstFree | app/supabase/functions/upsert-participant/index.ts:104-122 | the first candidate from a suffix on, up to `nickname100`, that a collision test does not report; FirstFreeIsLeast and FirstFreeFailsIffAllTaken state its result |
| UpsertParticipant.FirstFreeSame | app/supabase/functions/upsert-participant/index.ts:104-122 | two collision tests that agree on every candidate pick the same nickname |
| UpsertParticipant.CollisionAsWritten | app/supabase/functions/upsert-participant/index.ts:107-114 | the collision query as written: `.single()` reports a row only when exactly one participant of the event has the name |
| UpsertParticipant.CollisionRulesAgree | app/supabase/functions/upsert-participant/index.ts:107-114 | while no two participants of the event share a nickname, the query as written reports exactly the names in use |
| UpsertParticipant.NicknameAsWritten | app/supabase/functions/upsert-participant/index.ts:104-122 | the nickname the handler gives a new participant: the loop run with the query as written |
| UpsertParticipant.NewNickname | app/supabase/functions/upsert-participant/index.ts:104-122 | the corrected choice: the loop run with "some participant of the event has the name" |
| UpsertParticipant.NicknameRulesAgree | app/supabase/functions/upsert-participant/index.ts:104-122 | while the event's nicknames are distinct, the code's choice equals the corrected one |
| UpsertParticipant.NewNicknameIsFree | app/supabase/functions/upsert-participant/index.ts:104-122 | the corrected choice: the nickname it gives a new participant is used by nobody in the event |
| UpsertParticipant.DuplicateNameSlipsThrough | app/supabase/functions/upsert-participant/index.ts:107-114 | with two participants named Alice, the query as written reports no collision, so the handler registers a new device as Alice with a 201, while the corrected rule gives Alice2 |
| UpsertParticipant.Renamed | app/supabase/functions/upsert-participant/index.ts:81-86 | the update keeps the number of rows |
| UpsertParticipant.RegisteredDeviceIsRenamed | app/supabase/functions/upsert-participant/index.ts:71-101 | after a device registers, a second request from it renames that same participant (same id, new nickname, status 200) and adds no row |
| UpsertParticipant.NewParticipantNameIsFree | app/supabase/functions/upsert-participant/index.ts:103-147 | a 201 appends exactly one row, for this event and device, under the first candidate the `.single()` query did not report, and keeps all earlier rows; while the event's nicknames were distinct, that name is unused and they stay distinct |
| UpsertParticipant.RenameKeepsIdentities | app/supabase/functions/upsert-participant/index.ts:79-100 | a rename keeps every row's id, event and device, and the device's row gets the new nickname |
| UpsertParticipant.Register | app/supabase/functions/upsert-participant/index.ts:71-147 | the rename or insert step as a value: by device, the rename and its 500, or the insert under NicknameAsWritten with its 400 and 500; RegisterIn is proved to compute it |
| UpsertParticipant.Upsert | app/supabase/functions/upsert-participant/index.ts:21-155 | the whole handler as a value: 400 without share id, 429, the body checks, 404, then Register; HandleUpsertParticipant is proved to compute it |
| UpsertParticipant.RegisterIn | app/supabase/functions/upsert-participant/index.ts:71-147 | the response and the new participants table are those of Register, the store stays valid, and no other table changes |
| UpsertParticipant.RenameIn | app/supabase/functions/upsert-participant/index.ts:79-101 | the update path gives Register's response and table: a 500 leaves the rows unchanged, otherwise only the device's row is renamed |
| UpsertParticipant.InsertIn | app/supabase/functions/upsert-participant/index.ts:103-147 | the insert path gives Register's response and table: a 400 when all names are taken, a 500 on a failed insert, otherwise the new row with a 201 |
| UpsertParticipant.HandleUpsertParticipant | app/supabase/functions/upsert-participant/index.ts:21-155 | the response and the participants table are those of Upsert on the old state, the limiter's records are those of RecordsAfter, the store stays valid, and no other table changes |
| UpsertParticipant.FailedRequestWritesNothing | app/supabase/functions/upsert-participant/index.ts:28-69 | any answer other than 200 or 201 leaves the participants table unchanged |
| UpsertParticipant.ValidateIgnoresToken | app/supabase/functions/upsert-participant/index.ts:40-53 | the validation outcome does not depend on the participant token sent |
| UpsertParticipant.SentTokenIsIgnored | app/supabase/functions/upsert-participant/index.ts:42-147 | two requests that differ only in the participant token they send get the same response and leave the same tables |
| UpsertParticipant.RegisterHandsOutNewToken | app/supabase/functions/upsert-participant/index.ts:93-147 | a 200 or 201 from the registration step carries a participant body whose token is the freshly generated one |
| UpsertParticipant.SuccessHandsOutNewToken | app/supabase/functions/upsert-participant/index.ts:21-147 | every 200 or 201 answer of the handler returns the freshly generated token, never the one sent |
| SubmitVotes.VoteValue | app/supabase/functions/submit-votes/index.ts:54 | an answer that passes the check has the value 0, 1 or 2 |
| SubmitVotes.FirstItemError | app/supabase/functions/submit-votes/index.ts:53-57 | there is no error exactly when every answer's value is 0, 1 or 2 |
| SubmitVotes.CheckVoteValues | app/supabase/functions/submit-votes/index.ts:53-57 | the loop returns the first invalid answer's message, and none exactly when every value is 0, 1 or 2 |
| SubmitVotes.Validate | app/supabase/functions/submit-votes/index.ts:42-57 | the body passes exactly when it is an object with a non-empty participant id, an array of votes, and every value 0, 1 or 2 |
| SubmitVotes.CheckBody | app/supabase/functions/submit-votes/index.ts:42-57 | the handler's checks, one after the other, give Validate's outcome |
| SubmitVotes.StepTouchesOnlyItsPair | app/supabase/functions/submit-votes/index.ts:88-117 | one answer changes only the row of its own (option, participant) pair or appends one row for that pair, and uses no id other than the one handed to it |
| SubmitVotes.StepRecordsValue | app/supabase/functions/submit-votes/index.ts:103-112 | a successful upsert for an option of the event leaves that pair with a row, and every row of the pair holds the answer's value and the event |
| SubmitVotes.StepKeepsUnique | app/supabase/functions/submit-votes/index.ts:103-112 | an upsert keeps the (option, participant) key unique |
| SubmitVotes.PrefixValid | app/supabase/functions/submit-votes/index.ts:53-57 | the answers before any point are valid when all of them are |
| SubmitVotes.BatchTouchesOnlyParticipant | app/supabase/functions/submit-votes/index.ts:88-118 | the batch keeps every row of other participants and of options it does not name, and only appends rows of this participant in this event for options it names |
| SubmitVotes.BatchUsesGivenIds | app/supabase/functions/submit-votes/index.ts:103-112 | new rows get only the ids handed to the batch |
| SubmitVotes.BatchKeepsUnique | app/supabase/functions/submit-votes/index.ts:103-112 | the batch keeps the (option, participant) key unique |
| SubmitVotes.LastAnswerWins | app/supabase/functions/submit-votes/index.ts:88-118 | without faults and with fresh, distinct ids, the last successful answer for an option of the event is what ends up in every row of that pair |
| SubmitVotes.OtherStepKeepsAnswer | app/supabase/functions/submit-votes/index.ts:88-118 | an answer for another option leaves the pair's rows and their value as they were |
| SubmitVotes.ApplyVotes | app/supabase/functions/submit-votes/index.ts:88-118 | the loop leaves the votes table equal to ApplyBatch of the old table, keeps the store valid, and changes no other table |
| SubmitVotes.HandleSubmitVotes | app/supabase/functions/submit-votes/index.ts:23-131 | the response and the votes table are those of Submit on the old state, the limiter's records are those of RecordsAfter, the store stays valid, and no other table changes |
| SubmitVotes.AnswerIn | app/supabase/functions/submit-votes/index.ts:41-123 | after the rate limit, the response and the votes table are those of Answer: a 400 for a bad body, a 404 for an unknown event or participant, otherwise the batch and a success body |
| SubmitVotes.Submit | app/supabase/functions/submit-votes/index.ts:23-131 | the whole handler as a value: 400 without share id, 429, then Answer; HandleSubmitVotes is proved to compute it |
| SubmitVotes.Answer | app/supabase/functions/submit-votes/index.ts:41-123 | after the rate limit: the body checks, the event and participant lookups with their 404s, then ApplyBatch and the success body |
| SubmitVotes.Step | app/supabase/functions/submit-votes/index.ts:88-117 | one answer: skipped unless its option belongs to the event, otherwise an upsert whose failure is ignored |
| SubmitVotes.ApplyBatch | app/supabase/functions/submit-votes/index.ts:88-117 | the answers applied in order; BatchTouchesOnlyParticipant, BatchKeepsUnique and LastAnswerWins state its effect |
| SubmitVotes.ItemError | app/supabase/functions/submit-votes/index.ts:53-57 | the 400 message of an invalid answer: the error for a null or undefined item, or `Invalid vote value: <value>. Must be 0, 1, or 2` |
| SubmitVotes.FailedRequestWritesNoVotes | app/supabase/functions/submit-votes/index.ts:23-131 | any answer other than 200 leaves the votes table unchanged |
| PublicSnapshot.EventOptions | app/supabase/functions/get-event/index.ts:42-46 | the options read are exactly the event's options, as a multiset and element by element, ordered by sort index |
| PublicSnapshot.EventParticipantRows | app/supabase/functions/get-event/index.ts:54-58 | the participant rows read are exactly the event's participants, as a multiset and element by element, ordered by creation time |
| PublicSnapshot.EventParticipants | app/supabase/functions/get-event/index.ts:56 | each participant of the answer is the id and nickname of the corresponding row, in order |
| PublicSnapshot.EventVotes | app/supabase/functions/get-event/index.ts:66-69 | there is one vote view per vote of the event, each is the projection of a vote of the event, and every vote of the event appears |
| PublicSnapshot.GetEventAnswersForTheShareId | app/supabase/functions/get-event/index.ts:15-82 | a 200 answer needs a non-empty share id and no read error, and is the snapshot of the one event with that share id: its public fields, options, participants and votes |
| PublicSnapshot.Fetch | app/supabase/functions/get-event/index.ts:41-82 | the three reads, each with its 500, and the combined 200 body; get-event-admin uses it too |
| PublicSnapshot.GetEvent | app/supabase/functions/get-event/index.ts:15-82 | the handler as a value: 400 without a share id, 404 for an unknown one, then Fetch |
| Tally.OptionStats | app/src/lib/api/scheduler.ts:178-191 | there is one stat per option, before the sort |
| Tally.StatsArePerOption | app/src/lib/api/scheduler.ts:175-192 | the totals are the numbers of participants and votes, and the option stats are the per-option tallies, one per option, reordered (same multiset, every option's tally present, nothing else) |
| Tally.CountOfValue | app/src/lib/api/scheduler.ts:179-182 | counting one value among an option's votes counts the votes with that option and value |
| Tally.StatCounts | app/src/lib/api/scheduler.ts:179-191 | an option's stat has its id and date, counts its votes with value 2, 1 and 0, and scores 2·yes + maybe |
| Tally.StatOf | app/src/lib/api/scheduler.ts:179-191 | one option's tally; StatCounts states its counts and score |
| Tally.GetEventStats | app/src/lib/api/scheduler.ts:171-196 | the totals and the option stats sorted by descending score; StatsArePerOption, StatsDescend and StatsKeepTieOrder state its result |
| Tally.StatsDescend | app/src/lib/api/scheduler.ts:192 | the stats are in non-increasing score order |
| Tally.StatsKeepTieOrder | app/src/lib/api/scheduler.ts:192 | the stats with equal scores keep their option order, because the sort is stable |
| Tally.CountsWithinVotes | app/src/lib/api/scheduler.ts:180-182 | the three counts of a list of votes add up to at most its length |
| Tally.TallyWithinOptionVotes | app/src/lib/api/scheduler.ts:179-182 | an option's yes, maybe and no counts cover at most its votes |
| Tally.TalliedVotesAreKnownVotes | app/src/lib/api/scheduler.ts:178-179 | with unique option ids, the per-option vote lists together hold exactly the votes of some option of the snapshot |
| Tally.UnknownOptionVotesOnlyInTotal | app/src/lib/api/scheduler.ts:177-179 | the votes counted per option plus the votes of no option of the snapshot make up totalVotes |
| Ordering.Insert | app/src/lib/api/scheduler.ts:192 | inserting into a sorted list keeps it sorted and adds exactly that element |
| Ordering.SortBy | app/src/lib/api/scheduler.ts:192 | the sort is ordered by the key and a permutation of its input |
| Ordering.SortByStable | app/src/lib/api/scheduler.ts:192 | for every key, the elements with that key come out in their input order |
| Ordering.SortedKeepsTies | app/src/lib/api/scheduler.ts:192 | a list that is the sort of another keeps each key's elements in their input order |
| Ordering.SortedMembers | app/src/lib/api/scheduler.ts:192 | a sort has the same length and multiset as its input, holds every input element, and holds only input elements |
| Ordering.SortBySorted | app/src/lib/api/scheduler.ts:192 | sorting a list that is already in order returns it unchanged |
| Seqs.Filter | app/src/lib/api/scheduler.ts:179 | `filter` keeps exactly the elements satisfying the predicate and no more than there were |
| Seqs.FirstIndex | app/supabase/functions/get-event/index.ts:31-35 | the position of the first match, or -1 exactly when nothing matches |
| Seqs.Count | app/src/lib/api/scheduler.ts:180 | `filter(...).length` |
| ClientStorage.KeysAreDistinct | app/src/lib/utils/storage.ts:22-24 | different share ids give different participant keys, every participant key has the prefix, and the device-hash and created-events keys neither have it nor collide |
| ClientStorage.NewDeviceHash | app/src/lib/utils/storage.ts:37-39 | a new device hash is 32 lowercase hex digits |
| ClientStorage.DeviceHash | app/src/lib/utils/storage.ts:30-45 | without a window it returns "" and writes nothing; a stored hash is returned as it is; otherwise a new 32-digit hex hash is stored and returned; with a window the returned hash is the stored one |
| ClientStorage.DeviceHashIsStable | app/src/lib/utils/storage.ts:33-44 | once a hash is stored, a later call returns it and writes nothing, whatever the random draws |
| ClientStorage.SaveParticipant | app/src/lib/utils/storage.ts:50-64 | the record is stored under the prefixed share id with the timestamp set to now, and stays where records belong |
| ClientStorage.RemoveParticipant | app/src/lib/utils/storage.ts:97-107 | exactly the share id's key is removed and every other entry is kept |
| ClientStorage.LoadParticipant | app/src/lib/utils/storage.ts:69-92 | a record is returned exactly when one is stored for the share id and no more than 30 days old; an older one is removed and nothing else changes |
| ClientStorage.SavedParticipantReadsBack | app/src/lib/utils/storage.ts:50-92 | a saved record reads back, stamped with the save time, until exactly 30 days have passed, and after that it is removed |
| ClientStorage.ExpiredRecordStaysGone | app/src/lib/utils/storage.ts:80-85 | after a load that misses, every later load misses too |
| ClientStorage.ClearParticipants | app/src/lib/utils/storage.ts:112-125 | exactly the keys with the participant prefix are removed and every other entry is kept |
| ClientStorage.ReadCreated | app/src/lib/utils/storage.ts:185-210 | the events returned are exactly the stored ones younger than 90 days, in stored order, and storage is rewritten with them exactly when some event was dropped |
| ClientStorage.ReadCreatedSettles | app/src/lib/utils/storage.ts:185-210 | a second read returns the same list and writes nothing |
| ClientStorage.SaveCreated | app/src/lib/utils/storage.ts:160-180 | the stored list becomes the new event stamped now, then the recent events, cut to 50 |
| ClientStorage.SavedEventComesFirst | app/src/lib/utils/storage.ts:170-176 | after a save the list starts with the new event, holds at most 50 entries, and goes on with the earlier recent events in their order |
| ClientStorage.HeadThenPrefix | app/src/lib/utils/storage.ts:171-174 | the first n entries after an unshift are the new entry and then the first n - 1 old ones |
| ClientStorage.RemoveCreated | app/src/lib/utils/storage.ts:215-225 | the stored list becomes the recent events except those with the id, and is always written back |
| ClientStorage.RemovedEventIsGone | app/src/lib/utils/storage.ts:215-225 | after a removal no entry has the id, the other recent events are kept in their order, and every other key is kept |
| ClientStorage.ClearCreated | app/src/lib/utils/storage.ts:230-238 | the created-events key is removed and every other entry is kept |
| ClientStorage.ClearingParticipantsKeepsTheRest | app/src/lib/utils/storage.ts:112-125 | clearing the participant records keeps the device hash and the created-events list |
| ClientStorage.LocalStorage.constructor | app/src/lib/utils/storage.ts:1-24 | storage starts empty |
| ClientStorage.LocalStorage.GetOrCreateDeviceHash | app/src/lib/utils/storage.ts:30-45 | the returned hash and the new storage are those of DeviceHash |
| ClientStorage.LocalStorage.SaveParticipantData | app/src/lib/utils/storage.ts:50-64 | the new storage is that of SaveParticipant |
| ClientStorage.LocalStorage.LoadParticipantData | app/src/lib/utils/storage.ts:69-92 | the returned record and the new storage are those of LoadParticipant |
| ClientStorage.LocalStorage.RemoveParticipantData | app/src/lib/utils/storage.ts:97-107 | the new storage is that of RemoveParticipant |
| ClientStorage.LocalStorage.ClearAllParticipantData | app/src/lib/utils/storage.ts:112-125 | the loop over the keys leaves the storage of ClearParticipants |
| ClientStorage.LocalStorage.GetCreatedEvents | app/src/lib/utils/storage.ts:185-210 | the returned events and the new storage are those of ReadCreated |
| ClientStorage.LocalStorage.SaveCreatedEvent | app/src/lib/utils/storage.ts:160-180 | the new storage is that of SaveCreated |
| ClientStorage.LocalStorage.RemoveCreatedEvent | app/src/lib/utils/storage.ts:215-225 | the new storage is that of RemoveCreated |
| ClientStorage.LocalStorage.ClearAllCreatedEvents | app/src/lib/utils/storage.ts:230-238 | the new storage is that of ClearCreated |

## Left out

- HTTP plumbing is not modelled, because it carries no logic of its own: the `OPTIONS` preflight, the CORS headers, the 405 answer to a wrong method, and reading headers and URLs from a live `Request`.
- A body that is not valid JSON is modelled only as the absent body, answered with 400. A JSON value of the wrong type in a string field (a number where a nickname belongs, say) is not modelled, because request fields are typed as optional strings.
- CreateEvent.Validate, UpsertParticipant.Validate, SubmitVotes.Validate: a body that is the JSON text `null` is not modelled, because the body type has no null value. In the code, `parseJsonBody` returns `null` and `validateRequired` then throws a `TypeError`, such as `Cannot read properties of null (reading 'title')` ('nickname' for upsert-participant, 'participant_id' for submit-votes). The handler's `catch` answers it with a 400 carrying that message. The model's closest case is the absent body, answered with "Invalid JSON body".
- Lengths count Unicode characters. JavaScript's `length` counts UTF-16 code units, so names beyond the Basic Multilingual Plane are checked differently.
- Vote values are integers. A fractional number in a vote is not modelled, because the model has no floating point.
- The rate limiter's map is shared by the concurrent requests of one isolate. The model runs requests one at a time; concurrent requests, and the races between the read and the write of a handler, are left out.
- `console.log` and `console.error` calls are left out, because they have no effect on responses or tables.
- SHA-256 is a parameter of the model: any function from strings to byte strings. `crypto.randomUUID`, `crypto.getRandomValues`, `Math.random` and `Date.now` are parameters too.
- The Supabase client is replaced by the `Store` class. A write failure is a flag per call. The `ORDER BY` of a read query is modelled as a stable sort by the key it names; SQL may return ties in another order.
- A `TypeError` raised by a null or undefined vote item carries V8's wording, as the runtime would print it. Other engines word it differently.
- `getEventStats` first fetches the event through `getEventByShareId`. The model starts from the fetched snapshot; the fetch and the error it may throw are left out.
- The other client wrappers in `scheduler.ts` are not part of this model, because they only forward requests to the edge functions. These are `createEvent`, `upsertParticipant`, `submitVotes`, `getEventByShareId`, `getEventAdmin` and `deleteEvent`.
- `getAllParticipantData` in `storage.ts` is left out, because it is a debugging helper that scans every key of `localStorage`. Likewise, the `try`/`catch` around `setItem` for a full storage quota is left out: the model's writes always succeed.
- A failing lookup is not modelled. In the code, a `.single()` lookup that reports an error yields null data, which the handler reads as "not found". For the event and participant lookups that is a 404. For the device lookup of `upsert-participant` it is the insert path, and for its collision query a free name. For the option check of `submit-votes` the answer is skipped. In the model every lookup answers from the tables.
- ClientStorage: a stored value that `JSON.parse` cannot read is modelled as plain text, which takes the code's exception branch. A value that parses but has the wrong shape is not modelled. For such a value `loadParticipantData` returns the parsed object as it is: a missing `timestamp` makes the age `NaN`, which never counts as expired. `getCreatedEvents` drops every entry without `createdAt` and writes the shortened list back.
- OptionRows: a date that is not a string but passes the format check, such as the array `["2024-01-01"]`, is stored as its string form. The code passes the raw value to the options insert, and what the database makes of it is not modelled.

## Findings

| source | as written | input that shows it | evidently intended | confidence | as-written member | corrected member |
|---|---|---|---|---|---|---|
| app/supabase/functions/upsert-participant/index.ts:107-114 | the collision query ends in `.single()`, which answers with an error and no data when two rows match, so a nickname used by two participants reads as free | event `e` with two participants named `Alice` (the rename path performs no collision check), and a new device asking for `Alice` | any existing participant with the nickname is a collision, so the new device gets `Alice2` | not executed | UpsertParticipant.DuplicateNameSlipsThrough | UpsertParticipant.NewNicknameIsFree |
