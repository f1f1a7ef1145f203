# AI ticketing system — verified model of the ticket bookkeeping

This project models the parts of the AI ticketing system that keep its books, in Dafny:

- the user dashboard's figures: status and label normalisation, time-since labels of ticket creation times, metrics, category and priority tables, bar widths, and the pie chart's segments and colour stops;
- the dashboard's liveness-gated poller;
- the ticket history page: search filter, debounced search tracking, spreadsheet export and poller;
- the browser-side interaction tracker, which keeps per-user counters and a recent-event log in local storage;
- the administrator's dashboard: canonical statuses, priority bars, and the update and delete handlers;
- the helpers of the ticket-creation page: keyword extraction, support queue and ticket number;
- the client-side password rules;
- the back end's helpers:
  - text cleaning and password validation;
  - usernames derived from e-mail addresses, and the loop that makes a new username unique;
  - the admin guard and the status update;
  - the reset-password path;
  - the expiry of a Google token;
  - the ticket visibility rule.

## Model structure

- Pure code is modelled as datatypes, functions and lemmas.
- Code that changes state is modelled as classes whose methods assign their fields, each method stated against a specification function:
  - the pages' state variables;
  - a database row updated in place;
  - local storage.
- Pages that react to timers and fetch completions also get a pure state machine (`Step` over explicit events). The class methods are proved to take the same step, and lemmas over whole event sequences state the liveness gate and the debounce.
- Time is the parameter `now` (milliseconds on the client, seconds for the Google token).
- Fetch results and server responses are parameters of the methods that handle them.
- The Python and JavaScript whitespace sets are modelled separately, as are their integer rendering and parsing.

Modules, one per file:

- `Wrappers`: `Option` and `Result`.
- `Text`: ASCII case mapping, whitespace sets, trimming, substring test, decimal rendering.
- `Seqs`: filter, count, de-duplication, subsequence and take.
- `Tickets`: the ticket record of `backend/app/schemas.py`.
- One module for each page or helper file.

## Model

| member | source | states |
|---|---|---|
| Dashboard.NormalizeStatus | frontend/src/pages/Dashboard.js:12-17 | lower-cases without trimming; "closed"/"resolved" give "closed", "pending"/"open"/empty give "open", anything else is returned lower-cased; never empty, never upper case |
| Dashboard.NormalizeStatusIdempotent | frontend/src/pages/Dashboard.js:12-17 | normalising a normalised status changes nothing |
| Dashboard.NormalizeLabel | frontend/src/pages/Dashboard.js:19-23 | "Unknown" when only whitespace is left, otherwise the trimmed text with its first character upper-cased; never empty |
| Dashboard.NormalizeLabelIdempotent | frontend/src/pages/Dashboard.js:19-23 | normalising a normalised label changes nothing |
| Dashboard.SinceLabel | frontend/src/pages/Dashboard.js:25-35 | "just now" for a missing timestamp or under a minute; otherwise exactly one of minutes/hours/days by range, each the floor of the elapsed time |
| Dashboard.ComputeStats | frontend/src/pages/Dashboard.js:98-110 | total is the ticket count; open, resolved, high and last-24h are the counts of their predicates; open + resolved, high and last24h are at most total |
| Dashboard.UndatedNotRecent | frontend/src/pages/Dashboard.js:104-107 | tickets without a usable creation time never enter the last-24h count |
| Dashboard.StatusPartition | frontend/src/pages/Dashboard.js:100-101 | every ticket is exactly one of open, closed or other |
| Dashboard.StatusSegments | frontend/src/pages/Dashboard.js:134-158 | three segments with fixed names and colours; "In Progress" is the clamped difference; each value is its count as a percentage of the total, or of 1 when the total is 0 (value × denominator = count × 100); for consistent stats every value is in [0,100], all are 0 when there are no tickets, and they sum to 100 otherwise |
| Dashboard.SegmentValues | frontend/src/pages/Dashboard.js:136-155 | percentages of counts that fit the denominator lie in [0,100] and sum to 100 when the counts fill it |
| Dashboard.PercentBounds | frontend/src/pages/Dashboard.js:142 | a count no larger than the denominator is a percentage in [0,100] |
| Dashboard.PercentSum | frontend/src/pages/Dashboard.js:142-154 | three counts that add up to the denominator give percentages that add up to 100 |
| Dashboard.StatusSegmentsOfTickets | frontend/src/pages/Dashboard.js:134-158 | for a ticket list, "In Progress" counts exactly the tickets neither open nor closed; the segments are all zero for no tickets and cover the whole pie otherwise |
| Dashboard.GetPieStyle | frontend/src/pages/Dashboard.js:37-51 | one neutral stop 0%–100% when the values sum to at most 0; otherwise one stop per segment in its colour, starting at 0, each starting where the previous ended, ending at the total |
| Distribution.Tally | frontend/src/pages/Dashboard.js:113-119 | one row per distinct label in first-occurrence order, counting its occurrences |
| Distribution.InsertDesc | frontend/src/pages/Dashboard.js:119 | insertion adds exactly the row (multiset) |
| Distribution.SortDesc | frontend/src/pages/Dashboard.js:119 | the sort is a permutation of its rows |
| Distribution.TableCounts | frontend/src/pages/Dashboard.js:112-130 | each row counts the occurrences of its label, so each count is at least 1 |
| Distribution.TableKeys | frontend/src/pages/Dashboard.js:112-130 | the labels of the rows are exactly the labels of the tickets |
| Distribution.TableSorted | frontend/src/pages/Dashboard.js:119 | rows are in non-increasing count order, ties in order of first occurrence |
| Distribution.TableDistinct | frontend/src/pages/Dashboard.js:115 | no label has two rows |
| Distribution.TableSum | frontend/src/pages/Dashboard.js:112-130 | the counts add up to the number of tickets |
| Distribution.CountLabels | frontend/src/pages/Dashboard.js:113-117 | the counting loop yields the keys in insertion order (the distinct labels) and the number of occurrences under each key |
| Distribution.Entries | frontend/src/pages/Dashboard.js:119 | one row per key, in insertion order, carrying its count |
| Distribution.BuildRows | frontend/src/pages/Dashboard.js:112-130 | counting, entries and sort together build exactly the specified table |
| Distribution.MaxCount | frontend/src/pages/Dashboard.js:132-133 | at least 1, at least every count, and equal to 1 or to some row's count |
| Distribution.BarWidthBounds | frontend/src/pages/Dashboard.js:253 | a bar for a count in 1..max lies in (0,100] and is 100 exactly for the maximum |
| Distribution.TableBars | frontend/src/pages/Dashboard.js:253 | in a table every bar lies in (0,100] and the first row's bar is full |
| DashboardPoller.Initial | frontend/src/pages/Dashboard.js:54-56 | no tickets, loading, never synced |
| DashboardPoller.Step | frontend/src/pages/Dashboard.js:58-96 | each activation starts a new run of the effect with its own flag set, and cleanup clears it; a completion whose run's flag is cleared changes nothing; one of the live run shows an array, empties the list for anything else or a failure, ends loading and sets the sync time |
| DashboardPoller.CleanedUpRunIgnored | frontend/src/pages/Dashboard.js:58-91 | once a run is cleaned up, dropping its completions from any later trace, re-activations included, leaves the final state the same |
| DashboardPoller.LateCompletionsIgnored | frontend/src/pages/Dashboard.js:90-91 | after a cleanup, the completions of that run's fetches make no difference to any later trace, a re-activation included, and on their own never change tickets, loading or sync time |
| DashboardPoller.DoubleRunDropsFirstFetch | frontend/src/pages/Dashboard.js:58-91 | after activate, cleanup, activate, the first run's completion leaves the state unchanged |
| DashboardPoller.LoadingInvRun | frontend/src/pages/Dashboard.js:61-74 | loading holds exactly until a sync time is recorded, over any event sequence |
| DashboardPoller.MountedCompletion | frontend/src/pages/Dashboard.js:64-72 | a completion of the live run ends loading, records the time, and shows the array or the empty list |
| DashboardPoller.Poller.constructor | frontend/src/pages/Dashboard.js:54-56 | the initial state |
| DashboardPoller.Poller.Activate | frontend/src/pages/Dashboard.js:59-77 | tracks a dashboard view and starts a new run with its liveness flag set |
| DashboardPoller.Poller.FetchSucceeded | frontend/src/pages/Dashboard.js:63-73 | takes the state machine's step for a successful fetch of a given run |
| DashboardPoller.Poller.FetchFailed | frontend/src/pages/Dashboard.js:66-73 | takes the state machine's step for a failed fetch of a given run |
| DashboardPoller.Poller.Deactivate | frontend/src/pages/Dashboard.js:90-91 | clears the liveness flag |
| TicketHistory.FilteredTickets | frontend/src/pages/TicketHistory.js:52-61 | a ticket is kept iff the lower-cased, untrimmed search occurs in a present title, description, category or admin comment |
| TicketHistory.FilteredIsSubsequence | frontend/src/pages/TicketHistory.js:54 | the filtered list is an order-preserving subsequence |
| TicketHistory.EmptySearch | frontend/src/pages/TicketHistory.js:52-61 | an empty search keeps exactly the tickets with a searchable field |
| TicketHistory.Narrowing | frontend/src/pages/TicketHistory.js:54-60 | extending the search only drops tickets |
| TicketHistory.Schedule | frontend/src/pages/TicketHistory.js:42-44 | a timer is pending iff the trimmed, lower-cased term has length at least 2 and differs from the last tracked term, and it carries that term |
| TicketHistory.Step | frontend/src/pages/TicketHistory.js:17-50 | mount tracks a view and starts a new run of the polling effect; a fetch writes only while the run that issued it is live, and a failure changes nothing; edits emit nothing; a firing timer tracks its term and records it; unmount cancels the timer |
| TicketHistory.StepInv | frontend/src/pages/TicketHistory.js:42-50 | every event keeps the pending timer equal to the schedule of the current search while mounted, and empty otherwise |
| TicketHistory.FireTracksCurrentTerm | frontend/src/pages/TicketHistory.js:45-48 | a firing timer tracks the current term (length ≥ 2, not the last tracked) with its length and records it |
| TicketHistory.BurstKeepsLast | frontend/src/pages/TicketHistory.js:45-49 | after a burst of edits only the last value is scheduled, and the last tracked term is untouched |
| TicketHistory.RepeatTracksNothing | frontend/src/pages/TicketHistory.js:44 | re-entering the just-tracked term, in any spacing or case, schedules and tracks nothing |
| TicketHistory.PollerKeepsSnapshot | frontend/src/pages/TicketHistory.js:21-28 | a failed fetch keeps the last good list; a success of a run that is not live changes nothing |
| TicketHistory.RemountDropsEarlierFetch | frontend/src/pages/TicketHistory.js:17-39 | after unmount and mount again, a completion of the earlier run's fetch changes nothing |
| TicketHistory.RowRoundTrip | frontend/src/pages/TicketHistory.js:67-77 | each row holds the ticket's seven exported fields in column order, without loss |
| TicketHistory.HistoryPage.constructor | frontend/src/pages/TicketHistory.js:13-15 | the initial state |
| TicketHistory.HistoryPage.Mount | frontend/src/pages/TicketHistory.js:17-44 | tracks a history view, starts a new run with its flag set and runs the search effect |
| TicketHistory.HistoryPage.FetchSucceeded | frontend/src/pages/TicketHistory.js:23-26 | takes the state machine's step for a successful fetch of a given run |
| TicketHistory.HistoryPage.FetchFailed | frontend/src/pages/TicketHistory.js:27 | changes nothing |
| TicketHistory.HistoryPage.SetSearch | frontend/src/pages/TicketHistory.js:42-50 | takes the state machine's step for an edit |
| TicketHistory.HistoryPage.Fire | frontend/src/pages/TicketHistory.js:45-48 | tracks the pending term's length in storage, records the term and clears the timer |
| TicketHistory.HistoryPage.Unmount | frontend/src/pages/TicketHistory.js:35-39 | clears the flag and cancels the timer |
| TicketHistory.HistoryPage.ExportToExcel | frontend/src/pages/TicketHistory.js:63-77 | tracks the export with the filtered row count, then builds a "Tickets" sheet with the fixed columns and one row per filtered ticket in order |
| Analytics.SafeParse | frontend/src/utils/analytics.js:4-10 | the fallback for missing, empty or unparsable text, the parsed value otherwise |
| Analytics.UserScope | frontend/src/utils/analytics.js:12-19 | the session's e-mail, else its username, else "guest"; "guest" without a window or a parsable user |
| Analytics.StorageKey | frontend/src/utils/analytics.js:21-23 | the prefix, a colon and the user scope |
| Analytics.DefaultSnapshot | frontend/src/utils/analytics.js:25-31 | empty counters, empty log, no update time |
| Analytics.GetInteractionSnapshot | frontend/src/utils/analytics.js:33-37 | the stored object under the scope's key, else the default |
| Analytics.NextSnapshot | frontend/src/utils/analytics.js:41-56 | this event's counter is bumped from its old value (0 when absent) and every other counter is unchanged; the log starts with the new event, holds at most 80 events, and continues with the old log (missing read as empty); the update time is the event's time |
| Analytics.Track | frontend/src/utils/analytics.js:39-58 | nothing changes for an empty name; otherwise only the scope's key is written, with the next snapshot |
| Analytics.TrackThenRead | frontend/src/utils/analytics.js:57 | after tracking, the scope is unchanged and reading back yields the snapshot written |
| Analytics.TrackInteraction | frontend/src/utils/analytics.js:39-58 | the storage after the call is exactly the specified update; nothing happens without a window |
| Analytics.ReplayCounters | frontend/src/utils/analytics.js:42-43 | from the default snapshot every counter equals the number of tracked events of that name |
| Analytics.ReplayRecent | frontend/src/utils/analytics.js:51 | from the default snapshot the log is the latest 80 events, newest first |
| PasswordStrength.GetPasswordChecks | frontend/src/utils/passwordStrength.js:1-10 | a missing password fails every check; upper, lower and digit hold exactly when some character is in A-Z, a-z or 0-9, and special when some character is in none of these; the length check bounds the length, and is exactly "at least 10" for ASCII |
| PasswordStrength.IsStrongPassword | frontend/src/utils/passwordStrength.js:12-15 | strong iff all five checks pass |
| PasswordStrength.ExtendKeepsChecks | frontend/src/utils/passwordStrength.js:3-9 | appending characters never turns a passing check into a failure |
| PasswordStrength.StrongStaysStrong | frontend/src/utils/passwordStrength.js:12-15 | a strong password stays strong when extended |
| PasswordStrength.EmptyIsWeak | frontend/src/utils/passwordStrength.js:2 | the empty and missing passwords fail every check |
| PasswordStrength.SampleStrong | frontend/src/utils/passwordStrength.js:1-15 | a ten-character ASCII password mixing the four kinds is strong |
| AdminDashboard.NormalizeStatus | frontend/src/pages/AdminDashboard.js:7-14 | the result is always one of the three options |
| AdminDashboard.NormalizeStatusSpec | frontend/src/pages/AdminDashboard.js:9-14 | trimmed and lower-cased, "in progress"/"progress" give "In Progress", "resolved"/"closed" give "Resolved", everything else gives "Open" (each an iff) |
| AdminDashboard.OptionCanonical | frontend/src/pages/AdminDashboard.js:7-14 | each option's text normalises back to that option |
| AdminDashboard.NormalizeStatusIdempotent | frontend/src/pages/AdminDashboard.js:9-14 | normalising twice is normalising once |
| AdminDashboard.ComputeMetrics | frontend/src/pages/AdminDashboard.js:51-60 | exact-equality status counts and case-insensitive priority counts; open + resolved ≤ total and high + medium + low ≤ total |
| AdminDashboard.MaxPriority | frontend/src/pages/AdminDashboard.js:62 | at least 1 and each priority count, and equal to one of them or 1 |
| AdminDashboard.WidthBounds | frontend/src/pages/AdminDashboard.js:132 | a count up to the maximum gives a width in [0,100] |
| AdminDashboard.PriorityBars | frontend/src/pages/AdminDashboard.js:132-142 | the three priority bars lie in [0,100] |
| AdminDashboard.FullestBar | frontend/src/pages/AdminDashboard.js:132-142 | when some ticket has a priority, the largest bar is full |
| AdminDashboard.IndexByIdSpec | frontend/src/pages/AdminDashboard.js:38-43 | the object built by the reduce has one key per id, and the last ticket with an id wins |
| AdminDashboard.InitialMaps | frontend/src/pages/AdminDashboard.js:36-43 | with unique ids every ticket maps to its normalised status and its comment or "", and every status is an option |
| AdminDashboard.PayloadFor | frontend/src/pages/AdminDashboard.js:68-71 | the drafted status or "Open", never empty; the drafted comment or "" |
| AdminDashboard.ReplaceById | frontend/src/pages/AdminDashboard.js:73 | same length; exactly the tickets with the id are replaced |
| AdminDashboard.ReplaceKeepsIds | frontend/src/pages/AdminDashboard.js:73 | replacing by a ticket with that id keeps the ids and is idempotent |
| AdminDashboard.RemoveById | frontend/src/pages/AdminDashboard.js:88 | a ticket remains iff it was there and carries another id |
| AdminDashboard.RemoveSpec | frontend/src/pages/AdminDashboard.js:88 | the rest keeps its order and the length drops by the number of tickets with the id |
| AdminDashboard.OrElse | frontend/src/pages/AdminDashboard.js:77 | the first text when present and non-empty, else the fallback |
| AdminDashboard.FallbackShows | frontend/src/pages/AdminDashboard.js:76-77 | an error falling back to a fixed message is never empty |
| AdminDashboard.AdminPage.constructor | frontend/src/pages/AdminDashboard.js:17-22 | the initial state variables |
| AdminDashboard.AdminPage.LoadSucceeded | frontend/src/pages/AdminDashboard.js:35-48 | stores the rows and the two per-id maps, ends loading |
| AdminDashboard.AdminPage.LoadFailed | frontend/src/pages/AdminDashboard.js:45-48 | records the detail, else the message, else the fixed text; ends loading; nothing else changes |
| AdminDashboard.AdminPage.EditStatus | frontend/src/pages/AdminDashboard.js:198 | the status draft changes at that id only |
| AdminDashboard.AdminPage.EditComment | frontend/src/pages/AdminDashboard.js:210 | the comment draft changes at that id only |
| AdminDashboard.AdminPage.HandleUpdateTicket | frontend/src/pages/AdminDashboard.js:64-81 | sends the drafted payload; on success replaces the tickets with that id and resets both drafts at that id only, error cleared; on failure the lists are unchanged and a non-empty error is set; the busy marker is cleared either way |
| AdminDashboard.AdminPage.ResetDrafts | frontend/src/pages/AdminDashboard.js:74-75 | both drafts change at that id only, to the returned ticket's normalised status and comment |
| AdminDashboard.AdminPage.HandleDeleteTicket | frontend/src/pages/AdminDashboard.js:83-94 | on success removes the tickets with that id; on failure the list is unchanged and a non-empty error is set; drafts unchanged; busy marker cleared |
| CreateTicket.ExtractEntities | frontend/src/pages/CreateTicket.js:21-34 | no entities for a missing or empty text; at most six |
| CreateTicket.EntitiesWellFormed | frontend/src/pages/CreateTicket.js:23-33 | entities are distinct, longer than three, not stop words, and made of [a-z0-9] |
| CreateTicket.EntitiesInTextOrder | frontend/src/pages/CreateTicket.js:28-33 | entities are the first six distinct candidate words, in order of first occurrence: fewer than six means none was left out, and a word left out first occurs after the last entity |
| CreateTicket.CandidatesWellFormed | frontend/src/pages/CreateTicket.js:28-32 | every word surviving the filter is longer than three, not a stop word, and made of [a-z0-9] |
| CreateTicket.QueueLabel | frontend/src/pages/CreateTicket.js:36-41 | case-insensitive, in order: network/server give Infrastructure, else access/account give Identity, else IT Support (each an iff) |
| CreateTicket.QueueIgnoresCase | frontend/src/pages/CreateTicket.js:37 | the queue does not depend on letter case |
| CreateTicket.NetworkIsInfrastructure | frontend/src/pages/CreateTicket.js:38 | a category mentioning "network" in any case goes to Infrastructure |
| CreateTicket.AccountIsIdentity | frontend/src/pages/CreateTicket.js:39 | a category mentioning "account" and neither network nor server goes to Identity |
| CreateTicket.PadZeros | frontend/src/pages/CreateTicket.js:102 | left-pads with zeros to the width, keeping the text as the suffix |
| CreateTicket.TicketIdLabel | frontend/src/pages/CreateTicket.js:102 | "#TKT-" followed by at least five characters |
| CreateTicket.TicketIdRoundTrip | frontend/src/pages/CreateTicket.js:102 | the label's digits read back as the id, exactly five for ids below 100000 |
| CreateTicket.TicketIdInjective | frontend/src/pages/CreateTicket.js:102 | distinct non-negative ids get distinct labels |
| CreateTicket.MissingId | frontend/src/pages/CreateTicket.js:102 | a missing id shows as #TKT-00000 |
| BackendTickets.CleanText | backend/app/main.py:91-93 | only lower-case letters and whitespace remain, and every letter of the text survives lower-cased |
| BackendTickets.CleanTextSpec | backend/app/main.py:91-93 | the result is a subsequence of the lowered text; every lower-case letter and whitespace character occurs in it as often as in the lowered text, and no other character occurs; cleaning is idempotent |
| BackendTickets.RequireAdmin | backend/app/main.py:401-403 | passes iff the role is "admin", otherwise 403 "Admin access required" |
| BackendTickets.InsertByTimeSorted | backend/app/main.py:392 | inserting into a newest-first list keeps it newest first |
| BackendTickets.SortByTime | backend/app/main.py:392 | the ordering is a permutation |
| BackendTickets.SortByTimeSorted | backend/app/main.py:391-398 | the ordering is newest first |
| BackendTickets.VisibleTicketsSpec | backend/app/main.py:386-398 | newest first; an admin gets every ticket as often as stored, anyone else exactly their own tickets |
| BackendTickets.FindTicket | backend/app/main.py:415 | the first row with the id, or none when no row has it |
| BackendTickets.AllowedStatus | backend/app/main.py:419-424 | an accepted status is stored as one of the three options |
| BackendTickets.AllowedStatusSpec | backend/app/main.py:419-424 | stripped and lower-cased, exactly "open", "in progress" and "resolved" are accepted, as "Open", "In Progress", "Resolved" (each an iff) |
| BackendTickets.CommentValue | backend/app/main.py:425 | the stripped comment, None exactly when it is empty |
| BackendTickets.CommentValueIdempotent | backend/app/main.py:425 | saving a stored comment again stores the same value |
| BackendTickets.DashboardStatusesAccepted | backend/app/main.py:419-424 | every status the administrator's dashboard sends is accepted and stored unchanged |
| BackendTickets.UpdateTicketStatus | backend/app/main.py:406-428 | 403 for non-admins, then 404 for a missing ticket, then 400 for an invalid status; it succeeds exactly when none of these applies, and then the found row gets the canonical status and comment; no other row changes, and nothing changes on failure |
| BackendTickets.FindByToken | backend/app/main.py:336 | a user holding the token hash, or none when no user holds it |
| BackendTickets.ResetPassword | backend/app/main.py:331-347 | a weak password is rejected first with its missing list; then 400 for an unknown token or a missing or past expiry; on success the hash is stored and the token and expiry are cleared; no other user changes |
| BackendAuth.MissingSpec | backend/app/main.py:104-117 | nothing is missing iff all checks pass; each requirement is listed iff its check failed; no repeats, at most five |
| BackendAuth.ValidatePasswordStrength | backend/app/main.py:96-122 | success iff all five checks pass, otherwise 400 with the missing requirements in fixed order |
| BackendAuth.ClientAgreesWithServer | backend/app/main.py:96-105 | for ASCII passwords the client's five checks are the server's, so its strong flag and the server's validation agree |
| BackendAuth.AstralPasswordDisagrees | backend/app/main.py:98 | for a password with a character outside the BMP, the client accepts and the server rejects |
| BackendAuth.LocalPart | backend/app/main.py:126 | the text before the first "@", the whole text without one |
| BackendAuth.CleanLocal | backend/app/main.py:125-126 | the stripped, lower-cased local part keeps only characters from [a-z0-9_.-] |
| BackendAuth.MakeUsernameFromEmail | backend/app/main.py:125-128 | 1 to 30 characters, all from [a-z0-9_.-]; "user" when the cleaned local part is empty, otherwise its first min(length, 30) characters |
| BackendAuth.UsernameOfCleanLocal | backend/app/main.py:125-128 | an address whose local part is already a valid username yields that local part |
| BackendAuth.UsernameIdempotent | backend/app/main.py:125-128 | deriving a username from a username changes nothing |
| BackendAuth.UsernameIgnoresDomain | backend/app/main.py:126 | the domain plays no part |
| BackendAuth.CandidateInjective | backend/app/main.py:286-290 | different attempts try different names |
| BackendAuth.TriedSpec | backend/app/main.py:286-290 | the names tried before attempt k are k−1 distinct names, and attempt k's name is new |
| BackendAuth.ChooseUsername | backend/app/main.py:285-290 | the result is the base or the base followed by k ≥ 2, not taken, every earlier attempt was taken, and the loop ends within one more attempt than there are taken names |
| BackendAuth.MalformedExpiryIsExpired | backend/app/main.py:154-161 | a missing or non-integer expiry counts as expired from the epoch on |
| BackendAuth.ParseIntToString | backend/app/main.py:156 | parsing the decimal rendering of n gives n |
| BackendAuth.ExpiryRoundTrip | backend/app/main.py:154-161 | an integer expiry reads back as itself, and the token is expired exactly when it is not after now |

## Left out

- Case mapping is ASCII only. JavaScript's `toLowerCase`/`toUpperCase` and Python's `lower()` also map non-ASCII letters; the model leaves those characters unchanged.
- Python's `\d` is read as an ASCII digit; Unicode decimal digits are not modelled. `int()` accepts digit-group underscores and non-ASCII digits; the model does not.
- Distribution: ties are ordered by first occurrence. JavaScript's `Object.entries` lists integer-like keys first, in ascending order, so for purely numeric labels the real tie order differs.
- Distribution: labels are counted as map keys. The source counts into a plain `{}`, where a label such as `__proto__` or an inherited name such as `toString` or `__defineGetter__` does not behave as an ordinary key; the model treats every label alike.
- Timers, intervals, focus and visibility listeners, and `Date.now()`:
  - they become explicit events (`Activate`, `FetchOk`, `FetchFail`, `Deactivate`, `Mount`, `SetSearch`, `Fire`, `Unmount`) and a `now` parameter;
  - each run of a polling effect is numbered and each fetch completion names the run that issued it, so the per-run `isMounted` closure variable is the flag of the latest run; React cleans up a run before running the effect again, so two runs are never live together;
  - concurrent interleaving of requests is not modelled;
  - the admin handlers are modelled as single calls that receive the server's response, so an update racing a delete is not captured.
- JSON parsing and serialisation are not modelled: stored text is modelled as empty, unparsable or a parsed value.
- Date parsing is not modelled: timestamps are `Option<int>` milliseconds (None for missing or unparseable), and the token expiry is compared as an integer.
- Percentages and bar widths are exact reals, not doubles, so rounding is not modelled.
- The spreadsheet library's serialisation and the download are left out; only the sheet name, columns and rows are modelled.
- SQL and the ORM are not modelled:
  - tables are sequences of row objects and a database query is a search over them;
  - the tie order among tickets with equal `created_at` is the database's and is not fixed by the model;
  - the username loop's query is a set of taken names.
- Hashing, JWT and password hashing, the Google token fetch and the other Google-login steps, `forgot_password`, and the ML prediction of `create_ticket` are left out. Hash values are parameters, and only the `exp` check of the Google path is modelled.
- Lost updates between browser tabs sharing a local-storage key are not modelled.
- Analytics: two throwing paths of the source are not modelled, and in the model every call returns normally:
  - a stored snapshot whose `recent` is truthy but not iterable (`{"recent": 5}` or `{"recent": {}}`) makes the array spread of `trackInteraction` throw a TypeError (frontend/src/utils/analytics.js:51); the model's `recent` is always absent or a sequence of events;
  - `localStorage.getItem` or `setItem` throwing (storage blocked, quota exceeded) at frontend/src/utils/analytics.js:14, 35 and 57; the model's storage always answers.
- Analytics: a stored `counters` that is not an object (a string, an array) is not modelled; the model's `counters` is absent or a map from names to numbers.
- BackendAuth.TokenExpired: `now` is a parameter. The server takes it from `int(datetime.utcnow().timestamp())`, which reads the naive UTC time as local time and so is off by the host's UTC offset unless the host runs in UTC; the model does not fix which clock supplies `now`.
- The error `detail` is assumed to be text; a non-string `detail` from the server is not modelled.
- CreateTicket.SplitAtSpaces splits at every whitespace character rather than at runs of them. This yields extra empty words only, which the length filter removes.
- PasswordStrength.GetPasswordChecks: the length flag is stated exactly ("at least 10 characters") for ASCII passwords only. For other text it is bounded, because the client counts UTF-16 code units (see BackendAuth.AstralPasswordDisagrees).
- The recent-event log's `at` is the tracking time as an integer, not an ISO string.
