# Contact cadence of the nlvoorelkaar.nl assistant, in Dafny

This project models the bookkeeping that decides when the assistant may
message a volunteer on nlvoorelkaar.nl, and proves properties of it. That
bookkeeping sits between the HTML scraping and the Google Drive storage.
Every stored table is a sequence of rows of text fields that is read whole and
written whole, and `today` is a parameter.

- `ReminderLedger` and `LedgerProperties` model `ReminderService.csv_handler`.
  It is the reminder ledger of rows `(chat url, YYYY-MM-DD, count)`. Each
  candidate chat's rows are escalated, kept, held as banned, or closed and
  restarted, and an unknown chat gets a first row. The distinct rows are
  written back. `check_with_frequency` supports it.
- `ReminderService` models the unanswered-chat decision of
  `get_unanswered_chats` with `check_last_message_date` and `check_60_days`.
  It works over abstract message metas. The module also holds the settings
  defaulting of `run_reminder_service` and the guard of `send_reminder`.
- `CsvUtil` models the contact throttle `pre_send_message_check`, the
  contact-date update `contact_date_to_csv` and the ban check
  `check_if_volunteer_id_is_banned`.
- `Blacklist` models `add_to_blacklist`, `get_blacklisted_users` and
  `check_if_was_blacklisted`.
- `Messaging` models the first-contact batch `MessagingService.send_messages`
  as a class whose fields the method sets. The notifications, posts and pauses
  are appended to a `trace` field. The web site's replies for each recipient
  are an `Exchange` value. The results of `__send_message` and
  `check_if_message_was_sent` are functions of those replies.
- `Dates`, `Text`, `Store` and `Wrappers` supply the shared pieces:
  - calendar dates with Python's ordering, whole-day differences,
    `relativedelta(months=6)` and `replace(year=y-1)`;
  - `int()`/`str()`, `strptime`/`strftime` for `%Y-%m-%d`, `split('/')[-1]`
    and `in` on strings;
  - stored tables, and Python exceptions as `Result` failures.

A Python exception is a `Fail` value (`IndexError`, `ValueError`,
`TypeError`, or `StoreError` for the storage client). Where an exception ends
a loop, the model keeps the effects already issued and writes nothing more.

## Where the code and its comments disagree

The model follows the code in each case below.

- Ban orientation. The docstring of `check_if_volunteer_id_is_banned`
  (utils/csv_util/csv_util.py:102) promises `False` for a banned volunteer and
  `True` for a ban older than 12 months or for no ban. The code returns
  `last_contact_date <= twelve_months_ago` at the first terminal row (count
  above 4, line 114), which agrees for a lapsed ban. It returns `False` when
  there is no terminal row (line 115), against the docstring. Its caller
  `pre_send_message_check` reads `True` as "Volunteer is banned" (lines 85-90),
  against the docstring too. So a ban less than a year old lets the message
  through, and a ban that lapsed long ago blocks it. `CsvUtil.BanScanStops`,
  `CsvUtil.BanScanNoTerminal` and `CsvUtil.PreSendAllowsIff` state the code's
  behaviour.
- Restart window. The message printed on a restart says "after 12 months"
  (services/reminderservice.py:253). The code compares the row's date with six
  months back (lines 229, 243, 247).
- Eligibility. The docstring of `pre_send_message_check`
  (utils/csv_util/csv_util.py:57-60) allows a message when the last contact is
  more than six months ago or the id is not found. The code also requires the
  ban check to be false on both of those paths (lines 84-85).

## Other modelling decisions

- Call arities. `send_messages` calls `pre_send_message_check(recipient)` and
  `contact_date_to_csv(recipient)` with one argument
  (services/messagingservice.py:40, 44). Both functions take two
  (utils/csv_util/csv_util.py:14, 56). The model passes each table explicitly.
  With the calls as written, the batch raises at its first recipient (see
  Findings).
- Frequency type. A frequency given as text reaches `csv_handler`
  unconverted, and `check_with_frequency` converts it with `int()`.
  `get_unanswered_chats` only returns candidates after its own `int()` of the
  same text succeeded, so the ledger tick is modelled with an integer
  frequency.
- The default reminder message is the exact triple-quoted literal of
  services/reminderservice.py:39-45. That includes the leading newline, the
  32-space indent of every line and the 26 spaces that close it.

## Model

| member | source | states |
|---|---|---|
| Dates.SixMonthsBefore | utils/csv_util/csv_util.py:25 | `date - relativedelta(months=6)` is a valid date strictly before the given one. It is exactly six calendar months back, with the day clamped to the shorter month. |
| Dates.SixMonthsBeforeDistance | utils/csv_util/csv_util.py:25 | Six months back is between 181 and 184 days back. |
| Dates.OneYearBefore | utils/csv_util/csv_util.py:105 | `today.replace(year=today.year - 1)` fails exactly on 29 February. Otherwise it is the same day and month one year earlier, a valid and earlier date. |
| Dates.OrderIsOrdinalOrder | utils/csv_util/csv_util.py:35 | Python's field-by-field date comparison agrees with the order of day ordinals, and equal dates are exactly those with equal ordinals. |
| Text.IntToStringRoundTrip | services/reminderservice.py:237-238 | A count written with `str` is read back unchanged by `int()`. |
| Text.LastSegmentIsSuffix | utils/csv_util/csv_util.py:112 | `s.split('/')[-1]` is a suffix of `s` without '/'. Unless it is all of `s`, a '/' comes right before it. |
| Text.SubstringIsSomeSlice | services/blacklistservice.py:60 | Python's `p in s` holds exactly when `p` is the slice of `s` at some position. |
| Text.IsoDateRoundTrip | utils/csv_util/csv_util.py:34-36 | A date written by `strftime('%Y-%m-%d')` is parsed back to the same date by `strptime`. |
| Blacklist.FirstFields | services/blacklistservice.py:49-52 | `[row[0] for row in rows]` raises `IndexError` exactly when some row is empty. Otherwise it lists every row's first field in row order. |
| Blacklist.StoredRows | services/blacklistservice.py:16-23 | A missing blacklist file is an empty list, a failed download raises, and a present file gives its rows. |
| Blacklist.GetBlacklistedUsers | services/blacklistservice.py:42-55 | The users are the first field of every row, in order. A missing file gives the empty list. It succeeds on a present file exactly when no row is empty. |
| Blacklist.CheckIfWasBlacklisted | services/blacklistservice.py:57-63 | The search loop with early return gives `true` exactly when the id is a substring of some entry. A missing id raises `TypeError` as soon as there is one entry. |
| Blacklist.PartOfEntryIsBlacklisted | services/blacklistservice.py:59-61 | An id that occurs anywhere inside an entry, not only one equal to it, counts as blacklisted. |
| Blacklist.AddToBlacklist | services/blacklistservice.py:11-40 | A url already present as a first field writes nothing. Otherwise exactly the old rows plus `[url]` are written, once. A missing file counts as empty, and a failed read raises. |
| Blacklist.AddedRowIsListed | services/blacklistservice.py:26-38 | After an add, the users are the old users followed by the new url. A second add of the same url therefore finds it and writes nothing. |
| Blacklist.AddedUrlIsBlacklisted | services/blacklistservice.py:11-63 | After `add_to_blacklist(x)` has written its table, `check_if_was_blacklisted(x)` is true. |
| Blacklist.ListedUrlIsBlacklisted | services/blacklistservice.py:26-28 | When `add_to_blacklist(x)` writes nothing because `x` is already a first field, `check_if_was_blacklisted(x)` on the unchanged table is true. With the row above, every add that does not raise leaves `x` blacklisted. |
| CsvUtil.FirstMatch | utils/csv_util/csv_util.py:32-38 | The found index is the first row keyed by the id with the required width. No result means no row qualifies. |
| CsvUtil.FirstMatchIgnoresLaterRows | utils/csv_util/csv_util.py:32-38 | Rows appended after the first match do not change which row is first. |
| CsvUtil.TerminalRowOf | utils/csv_util/csv_util.py:112 | The loop test is false for an empty row or another id without reading the count. It is true only for a row of the id with a readable count above 4. |
| CsvUtil.CheckIfVolunteerIdIsBanned | utils/csv_util/csv_util.py:95-115 | The search loop with early return computes the ban outcome. It raises on 29 February, on a failed read, on a short or non-integer row of the id, and on an unparsable terminal date. |
| CsvUtil.BanScanFirstTerminal | utils/csv_util/csv_util.py:110-114 | The ban check answers from the first terminal row of the id. Rows of other ids and rows with a count of at most 4 are passed over. |
| CsvUtil.BanScanStops | utils/csv_util/csv_util.py:113-114 | At that terminal row the check returns `true` exactly when the row is dated on or before one year back. |
| CsvUtil.BanScanBadDate | utils/csv_util/csv_util.py:113 | A terminal row whose date does not parse raises `ValueError`. |
| CsvUtil.BanScanRaises | utils/csv_util/csv_util.py:112 | A row of the id with a missing or non-integer count raises. |
| CsvUtil.BanScanNoTerminal | utils/csv_util/csv_util.py:110-115 | Without a terminal row of the id the check returns `false`. |
| CsvUtil.BanCheckFailsOnLeapDay | utils/csv_util/csv_util.py:105 | On 29 February the ban check raises `ValueError`, whatever the ledger holds. |
| CsvUtil.PreSendMessageCheck | utils/csv_util/csv_util.py:56-93 | The first-match loop with `break`, then the throttle and the ban check, compute the pre-send outcome. This includes its `IndexError` and `ValueError` cases and the exceptions of the ban check. |
| CsvUtil.PreSendAllowsIff | utils/csv_util/csv_util.py:78-93 | On a contacts table whose first row of the id is well formed, a message may go out exactly when the id was not contacted within six months and the ban check is false. The ban check need only be defined when the throttle lets the id through. |
| CsvUtil.RecentContactRefuses | utils/csv_util/csv_util.py:84-93 | A first row dated within six months gives `False` whatever the ledger holds, so 29 February and an unreadable ledger do not raise then. |
| CsvUtil.PreSendIgnoresLaterRows | utils/csv_util/csv_util.py:78-82 | Only the first row of the id is consulted. Rows after it never change the answer. |
| CsvUtil.ContactDateToCsv | utils/csv_util/csv_util.py:14-52 | The update-or-append loop with the `updated` flag and `break` computes the contacts table that is written. It raises on an unparsable date of the first matching row. |
| CsvUtil.ContactUpdateOrAppend | utils/csv_util/csv_util.py:30-52 | Either the table grows by exactly `(id, today)` and keeps every old row, or it keeps its length. In the second case only the date of the first matching two-field row changes, to today, which is later than the old date. |
| CsvUtil.ContactOutdatedIsUpdated | utils/csv_util/csv_util.py:32-37 | A first matching row dated six months back or earlier gets today's date in place, and that date is later than the one replaced. |
| CsvUtil.ContactTooRecentAppends | utils/csv_util/csv_util.py:35-52 | A first matching row dated within six months is left alone, and a second row `(id, today)` is appended. |
| ReminderLedger.ReminderBody | services/reminderservice.py:239 | The caller's message is used exactly when it is a non-empty string. Otherwise a message is composed for the chat. |
| ReminderLedger.CheckWithFrequency | services/reminderservice.py:113-126 | It raises `ValueError` exactly when the date does not parse. Otherwise it is true exactly when at least `frequency` whole days have passed since that date. |
| ReminderLedger.CheckWithFrequencyToday | services/reminderservice.py:123-126 | For a frequency of at least one day, a date written today is not due today. |
| ReminderLedger.DueDateIsPast | services/reminderservice.py:123-126 | For such a frequency, a due date lies before today. |
| ReminderLedger.ClassifyRow | services/reminderservice.py:236-253 | The branch cascade, with fields read in the code's order, is stated both ways. Escalate: due and count below 4, to count plus one. Ban hold: due, count 4, dated after six months back. Too soon: not due. Restart: due, count 4, dated six months back or earlier. No branch: due with a count above 4. Short rows and unparsable fields raise. |
| ReminderLedger.VisitRow | services/reminderservice.py:233-253 | Visiting a row changes no other row. |
| ReminderLedger.CsvHandlerOutcome | services/reminderservice.py:205-276 | An empty candidate list or a failed download does nothing. Rows are written exactly when there were candidates, the download did not fail, and nothing raised. |
| ReminderLedger.CsvHandler | services/reminderservice.py:205-276 | The nested loops with `chat_exists`, the in-place row updates and the appends compute the handler's outcome: reminders sent, distinct rows written, exception raised. |
| ReminderLedger.ScanChatRows | services/reminderservice.py:231-253 | The inner loop over every row, with no `break`, equals the scan of the ledger for one candidate. It sets `chat_exists` and stops at an exception. |
| ReminderLedger.HandleChatRow | services/reminderservice.py:234-253 | The body of the inner loop for a row of the chat equals one visit of that row. |
| LedgerProperties.ScanSkipsOtherChats | services/reminderservice.py:233-234 | Rows of other chats are passed over without effect. |
| LedgerProperties.UnknownChatGetsOneRow | services/reminderservice.py:255-260 | A chat without a row gets exactly one appended row `(chat, today, "0")` and one reminder. The existing rows are untouched. |
| LedgerProperties.OnlyRowDecides | services/reminderservice.py:233-253 | For a chat with no other row, that row's branch alone decides the chat's effect. |
| LedgerProperties.DueRowEscalates | services/reminderservice.py:237-240 | For a chat with no other row: a due row with count below 4 is replaced in place by `(chat, today, str(count + 1))`, and one reminder is sent. Nothing is appended. |
| LedgerProperties.UndueRowIsKept | services/reminderservice.py:242-246 | For a chat with no other row: a row that is not due, on ban hold, or beyond count 4 changes nothing and sends nothing. |
| LedgerProperties.OverdueFinalRowRestarts | services/reminderservice.py:247-253 | For a chat with no other row: a due row at count 4 dated six months back or earlier becomes `(chat, today, "5")`. `(chat, today, "0")` is appended and one reminder is sent. |
| LedgerProperties.VisitRowTicks | services/reminderservice.py:234-253 | Visiting a row whose branch does not raise replaces it by the row its branch writes, and adds that branch's reminder and appended row. |
| LedgerProperties.ScanRowsByTicks | services/reminderservice.py:233-253 | A scan over rows of the chat that all have a branch visits every one of them, with no `break`. Each is replaced by the row its own branch writes, and rows before the scan's start stay. |
| LedgerProperties.ScanAppendsByTicks | services/reminderservice.py:247-250 | Such a scan appends one `(chat, today, "0")` per restarted row, in row order. |
| LedgerProperties.ScanSendsByTicks | services/reminderservice.py:237-252 | Such a scan sends one reminder per row whose branch escalates or restarts, in row order. |
| LedgerProperties.ScanRaisesOnBadRow | services/reminderservice.py:233-253 | A scan raises when some remaining row of the chat has a short or unparsable field. |
| LedgerProperties.VisitCandidateByRows | services/reminderservice.py:231-260 | For a candidate with any number of rows, none of which raises: every row of the chat is replaced by the row its own branch writes, and other rows stay. The appended rows are one `(chat, today, "0")` per restarted row and the reminders one per escalated or restarted row, in row order. A chat with no row gets one new row and one reminder instead. |
| LedgerProperties.VisitCandidateRaises | services/reminderservice.py:233-253 | A candidate with a row of the chat that has a short or unparsable field raises. |
| LedgerProperties.LedgerRowSettled | services/reminderservice.py:238-256 | Every row the handler writes is dated today, so with a frequency of at least one day it is not due again today. |
| LedgerProperties.ScanFrame | services/reminderservice.py:233-253 | A scan changes only rows of the chat, and only from the current row on. |
| LedgerProperties.ScanAppends | services/reminderservice.py:248-250 | A scan keeps the rows to append and adds only `(chat, today, "0")` rows. |
| LedgerProperties.ScanFinds | services/reminderservice.py:232-235 | A scan that raises nothing sets `chat_exists` exactly when some remaining row is the chat's. |
| LedgerProperties.VisitSettlesRow | services/reminderservice.py:237-253 | A visit that raises nothing leaves, in place of the chat's row, a row of the chat that a rerun today leaves alone. |
| LedgerProperties.ScanSettles | services/reminderservice.py:233-253 | After a scan that raises nothing, every row of the chat is settled (untouched by a rerun today). |
| LedgerProperties.SettledScanIsIdentity | services/reminderservice.py:233-253 | A scan over settled rows of the chat changes nothing. |
| LedgerProperties.VisitCandidateSettles | services/reminderservice.py:231-260 | One candidate keeps all appended rows and all rows of the chats done so far settled, and leaves each of them with a row. |
| LedgerProperties.VisitCandidateAppendsSettled | services/reminderservice.py:249-257 | A candidate appends only settled rows. |
| LedgerProperties.VisitCandidateRowsSettled | services/reminderservice.py:231-260 | After a candidate, the rows of that chat and of the earlier chats are settled. |
| LedgerProperties.VisitCandidateRowsPresent | services/reminderservice.py:255-260 | After a candidate, that chat and every earlier one has a row, stored or appended. |
| LedgerProperties.CandidatesSettle | services/reminderservice.py:231-260 | A batch that raises nothing leaves every candidate with a row and all of their rows settled. |
| LedgerProperties.SettledLedgerIsFixed | services/reminderservice.py:231-260 | On a ledger where every candidate has a row and all of them are settled, the batch changes nothing and sends nothing. |
| LedgerProperties.RereadIsSettled | services/reminderservice.py:263 | A table read back with the same set of rows as the one written is settled as well, in whatever order it comes back. |
| LedgerProperties.RerunSendsNothing | services/reminderservice.py:205-276 | Rerunning the handler on the ledger it wrote, the same day with a frequency of at least one day, sends no reminder and writes the same rows. |
| ReminderService.CheckLastMessageDate | services/reminderservice.py:390-412 | True exactly when there is a last message with a readable date at least `frequency` days old. No messages or an unparsable date gives false. |
| ReminderService.Check60Days | services/reminderservice.py:414-433 | True exactly when the message has a readable date at least 60 days old. |
| ReminderService.ResponseAuthors | services/reminderservice.py:324-328 | The author loop collects, in order, the known volunteers whose message is not shown to be 60 days old. |
| ReminderService.NoRecentReplyIff | services/reminderservice.py:324-331 | No author is collected exactly when every message by a known volunteer is readable and at least 60 days old. |
| ReminderService.UnansweredOnPageMembers | services/reminderservice.py:314-331 | A url is added for a page exactly when a listed chat links to it and that chat is unanswered. |
| ReminderService.UnansweredOnPagesMembers | services/reminderservice.py:306-331 | Over all pages, a url is collected exactly when some chat of some listed page links to it and is unanswered. |
| ReminderService.UnansweredChats | services/reminderservice.py:290-346 | It returns `False` (here `None`) exactly when the names could not be collected, a messages page failed, or `int(frequency)` raises at a chat with a link. |
| ReminderService.GetUnansweredChats | services/reminderservice.py:290-346 | The loops over pages and chats compute that outcome. |
| ReminderService.CollectUnanswered | services/reminderservice.py:314-333 | The loop over one page's chats adds exactly that page's unanswered urls. It stops at the first linked chat when the frequency is not an integer. |
| ReminderService.ResolveSettings | services/reminderservice.py:38-58 | A given value wins, then the stored one, then the default. The store is read exactly when a value is missing, and the resolved, never-empty pair is written back. |
| ReminderService.GivenSettingsIgnoreStore | services/reminderservice.py:47-55 | With both values given, the stored pair makes no difference. |
| ReminderService.ResolvedSettingsPersist | services/reminderservice.py:52-58 | A later run with nothing given reads back and uses exactly the pair this run wrote. |
| ReminderService.SendReminderGuardAsWritten | services/reminderservice.py:176-178 | As written, a missing profile id raises `TypeError` whenever the blacklist has an entry. |
| ReminderService.GuardRaisesOnMissingId | services/reminderservice.py:176 | With one blacklist entry and no profile id, the guard as written raises, and the corrected guard skips the reminder. |
| ReminderService.SendReminderGuard | services/reminderservice.py:176-178 | A reminder goes out exactly for a non-empty profile id that no blacklist entry contains. A missing or empty id always skips, and the guard never raises `TypeError`. |
| ReminderService.GuardCorrectionAgrees | services/reminderservice.py:176-178 | Wherever the guard as written returns, the corrected guard returns the same. |
| Messaging.SendMessage | services/messagingservice.py:56-89 | The form is posted exactly when the message page is a 200 page carrying both inputs, and it carries the message, the phone number and the two tokens. The result is true exactly when that post got a 200 reply. |
| Messaging.FirstLinkIds | services/messagingservice.py:105-107 | Only the first conversation link is kept. Its id is its href's last segment, and a link without an href raises. |
| Messaging.CheckIfMessageWasSent | services/messagingservice.py:91-130 | Found exactly when the page is 200 and the first link's last segment is the id. "Not sent" is notified exactly when a 200 page has no link or a first link for someone else. |
| Messaging.ConfirmationReadsFirstLinkOnly | services/messagingservice.py:105 | Links after the first never change the confirmation. |
| Messaging.NoPostAfterPost | services/messagingservice.py:41-46 | After a post, a turn adds nothing, one "not sent" notification, or one contact record. |
| Messaging.TurnAttempts | services/messagingservice.py:39-49 | A turn adds only posts, "not sent" notifications and contact records, all for its own recipient. |
| Messaging.TurnRaisesOnlyFromTables | services/messagingservice.py:39-49 | A turn raises exactly when the pre-check raises, or when the contact record raises after the pre-check, the post and the confirmation all succeeded. A raised turn leaves the contacts table as it was. |
| Messaging.RefusedRecipientIsSkipped | services/messagingservice.py:40-49 | For a recipient the pre-check refuses, nothing is posted, notified, recorded or raised. |
| Messaging.RecordedAfterConfirm | services/messagingservice.py:43-44 | From the confirmation on, the contact date is recorded exactly when the message is found and the contacts table can be written. |
| Messaging.RecordedIffAllThreeSucceed | services/messagingservice.py:40-44 | A contact date is recorded exactly when the pre-check, the send and the confirmation all answer true and the table can be written. The contacts table changes only then. |
| Messaging.PostedIffFormReady | services/messagingservice.py:56-75 | From the send on, a message is posted exactly when the message page carries the form. |
| Messaging.PostOnlyAfterPreCheck | services/messagingservice.py:40-41 | A message is posted exactly when the pre-check allows the recipient and the page carries the form. |
| Messaging.TurnOfOnlyAttempts | services/messagingservice.py:39-49 | Every turn of `send_messages` adds only posts, "not sent" notifications and contact records. |
| Messaging.RaisedStays | services/messagingservice.py:39-54 | Once a turn raises, later recipients are not visited and the batch stays as it was. |
| Messaging.RunExtends | services/messagingservice.py:39-54 | Later recipients only add events: the events after m recipients begin the events after n, for m <= n. |
| Messaging.TurnCounts | services/messagingservice.py:51-54 | One turn adds exactly its progress count and, unless it was the last, one pause. |
| Messaging.ThroughCounts | services/messagingservice.py:36-54 | After n recipients handled without an exception, the progress counts are 1, ..., n in order, with a pause after each recipient but the last of the batch. |
| Messaging.ProgressAndPauses | services/messagingservice.py:36-54 | A batch that raises nothing starts with the start notification, notifies 1, ..., n in order whatever each recipient's outcome, and pauses n - 1 times. |
| Messaging.CountsIncrease | services/messagingservice.py:51-52 | The progress counts 1, ..., n are increasing, each recipient counted once. |
| Messaging.TurnAsWritten | services/messagingservice.py:39-49 | One turn of `send_messages` as written: the one-argument `pre_send_message_check(recipient)` and `contact_date_to_csv(recipient)` both fail with `TypeError`. Run through the same step cascade as the corrected turn, it adds no event, keeps the contacts table and raises `TypeError`, whatever the recipient and the site's replies. |
| Messaging.SendRunAsWritten | services/messagingservice.py:36-54 | `send_messages` as written: the same `RunThrough` loop as the corrected batch `SendRun`, run with the turn as written. Like every run of that loop, its events begin with the start notification. What it ends in is stated by the next row. |
| Messaging.AsWrittenHalts | services/messagingservice.py:36-54 | The batch as written runs the same loop with turns whose pre-check raises `TypeError` (line 40). It ends with the start notification as its only event and the contacts table unchanged. It raises `TypeError` exactly when there is a recipient. |
| Messaging.AsWrittenRecordsNobody | services/messagingservice.py:40-44 | Where the corrected batch records its first recipient, no event of the batch as written is a record. |
| Messaging.MessagingService.constructor | services/messagingservice.py:16-25 | The fields start unset and the trace empty. |
| Messaging.MessagingService.SendMessages | services/messagingservice.py:27-54 | Stores its arguments in the fields. Then the trace grows by exactly the corrected batch's events, and the contacts table and the exception are that batch's. |
| Messaging.MessagingService.RunBatch | services/messagingservice.py:36-54 | The loop with its `current_recipient` counter extends the trace by the start notification and each recipient's turn, in order, until one raises. |
| Messaging.MessagingService.AdvanceBatch | services/messagingservice.py:39-54 | One iteration extends the trace and the batch by the turn of the recipient at that position. |
| Messaging.MessagingService.ContactRecipient | services/messagingservice.py:39-54 | One turn: the visit of the recipient, then, unless it raised, its progress count and the pause before the next recipient. |
| Messaging.MessagingService.VisitOne | services/messagingservice.py:40-49 | The pre-check, then the delivery when it allows one. An exception of the pre-check ends the turn. |
| Messaging.MessagingService.DeliverTo | services/messagingservice.py:41-46 | `__send_message`, then the confirmation and the record only after a successful post. |
| Messaging.MessagingService.ConfirmAndRecord | services/messagingservice.py:43-46 | The confirmation, then `contact_date_to_csv` only when the message was found. |
| Messaging.MessagingService.RecordContact | services/messagingservice.py:44 | The contact-date record: the written table becomes the contacts table, or its exception ends the batch. |
| Messaging.MessagingService.ConfirmSent | services/messagingservice.py:91-130 | Returns whether the message was found, and notifies "not sent" exactly as the confirmation says. |
| Messaging.MessagingService.PostMessage | services/messagingservice.py:56-89 | Posts the form exactly when the page carries it, and returns true only for a 200 reply. |

## Left out

- Google Drive access, OAuth and the CSV text coding are not modelled. Each table is a `Read` value that is missing, unavailable or present as rows, and the table written is a result. The model also leaves out whether a missing contacts or ledger file raises: any read other than a present table is a `StoreError`.
- HTML fetching and parsing become inputs: the chats and message metas, the message page, the post reply, the messages page, and the profile id. This covers `get_all_contacted_names`, `get_sender_name`, `get_receiver_name` and the profile-id extraction.
- `datetime.now()` and `date.today()` are a `today` parameter. The start delay and the random delay between recipients become the `Starting` and `Pause` events, with no duration. The two `time.sleep(1)` calls (services/messagingservice.py:42, 77) leave no trace in the model.
- Python's date range (years 1 to 9999) is not enforced on computed dates. Going six months or one year back from a date in year 1 is not modelled as the `ValueError` (year 0 is out of range) that `date.replace` raises in Python, both for `today.replace(year=today.year - 1)` and inside `relativedelta(months=6)`.
- The `%d.%m.%Y` parse of a message meta is an input: each meta carries its date or `None`.
- `int()` is modelled as an optional sign and ASCII digits. Surrounding whitespace, underscores and non-ASCII digits, which Python also accepts, are not modelled.
- `Text.ParseIsoDate`: `strptime` with `%Y-%m-%d` is modelled on ASCII digits only. Python's `\d` in those patterns also accepts other Unicode decimal digits, which the model rejects.
- `format_message`, `construct_message` and the reminder post of `send_reminder` after its guard are left out. A reminder is recorded as a `Reminder(chat, body)` call.
- Exceptions that escape `send_reminder` into `csv_handler` are left out. The guard's `TypeError` is shown separately under Findings.
- `remove_from_blacklist` is called elsewhere but not defined in the blacklist service, so it has no model.
- The `stopped` flag, `logout`, the notifier object, the log messages and all `print` output are left out.
- The service manager's threads and observers and the desktop UI are left out, so no concurrency is modelled.
- The written reminder ledger is a set of rows, because Python writes a set of tuples in an order the model does not fix.

## Findings

| source | as written | input that shows it | evidently intended | confidence | as-written member | corrected member |
|---|---|---|---|---|---|---|
| services/reminderservice.py:176 | `check_if_was_blacklisted(profile_id)` runs before `not profile_id`, so a missing profile id is tested with `None in url`, which raises `TypeError` | blacklist `[["x"]]`, profile id `None` | skip the reminder for a missing id without consulting the blacklist (`not profile_id` first) | not executed | ReminderService.SendReminderGuardAsWritten, ReminderService.GuardRaisesOnMissingId | ReminderService.SendReminderGuard, ReminderService.GuardCorrectionAgrees |
| services/messagingservice.py:40 | `pre_send_message_check(recipient)` and `contact_date_to_csv(recipient)` (line 44) pass one argument to functions that require a drive manager, so the first call raises `TypeError` | any non-empty recipient list | each recipient is checked and recorded against the stored contacts table and ledger | not executed | Messaging.SendRunAsWritten, Messaging.AsWrittenHalts, Messaging.AsWrittenRecordsNobody | Messaging.MessagingService.SendMessages, Messaging.ProgressAndPauses |
