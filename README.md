# ORTP help-desk bot: a verified model

`botv56.py` is a Telegram bot that lets employees register with their
corporate e-mail, file tickets in the tracker, comment on them, and receive
tracker notifications. It is built on aiogram, Jira's REST API, MySQL and SMTP.
This project models the decision logic under that glue, in Dafny, and proves
what the handlers promise.

Four pieces are modelled:

- **E-mail verification** (`identity.dfy`, with `text.dfy` for the address
  pattern and `strip()`):
  - the address check and the claim rule;
  - the 600-second challenge;
  - the code check;
  - the 60-second resend cooldown;
  - the deferred downgrade of the prompt.
- **The per-user conversation** (`conversation.dfy`, `drafts.dfy`,
  `comments.dfy`):
  - the states of `BotStates` and the session data;
  - `set_state`, which keeps the data, and `clear`, which drops it;
  - back and cancel;
  - message dispatch;
  - the priority buttons and the signed description of a new ticket;
  - the closed-ticket comment rule.
- **Lists and callback data** (`paging.dfy`, `tokens.dfy`, `tickets.dfy`,
  `notices.dfy`):
  - page arithmetic;
  - the `_`-separated callback strings, how they are split back, and which
    handler receives them;
  - the 60-second staleness check;
  - the "My requests" and notification lists;
  - the notification table's retention prune (each user keeps the 100 newest
    rows).
- **The webhook** (`webhook.dfy`): how the signature header, the payload and
  the outcome of the tracker fetch and the Telegram send decide the HTTP status
  and the one write the handler makes.

`bot.dfy` puts these together in the class `Bot.OrtpBot`. It holds five
tables: `users`, `verification_codes`, `requests`, `notifications` and the FSM
sessions. It has one method per handler, and each method states the handler's
complete effect on the tables. Every method keeps the invariant `Valid()`,
which says:

- no two users share an e-mail;
- every challenge belongs to a user;
- ticket keys are unique;
- notification ids increase and stay below the next auto-increment value;
- nobody has more than 100 notifications;
- every session is well formed: the comment prompt knows its ticket, the
  verification prompts know their message, and no team state is ever entered.

The handlers make outside calls. Their outcomes are parameters of the methods:

- whether mail was sent;
- what the tracker answered;
- the message ids Telegram assigned;
- the clock, as integer seconds.

Two facts about the code that are easy to get wrong:

- `process_email` (botv56.py:412-489) never reads the cooldown and
  overwrites the challenge whenever the address is accepted. Only `resend_verification_code` enforces the 60
  seconds.
- The `users` row is first written by `process_email`
  (botv56.py:456-459), when an address is accepted. `/start` only reads
  `users`.

## Model

| member | source | states |
|---|---|---|
| Text.ValidEmailMatchesPattern | botv56.py:377-378 | the address test accepts exactly what `^[a-zA-Z0-9_.+-]+@pari\.ru$` matches: a non-empty local part over the class, the domain, then the end or one final newline |
| Text.StrippedValidEmailEndsInDomain | botv56.py:414-430 | once stripped, an accepted address really ends in `@pari.ru` (the newline `$` tolerates is gone) |
| Text.Strip | botv56.py:414 | `strip()` yields a contiguous slice of the input whose ends are not whitespace, and everything cut off is whitespace |
| Text.StripIdempotent | botv56.py:516 | stripping an already stripped code or address changes nothing |
| Text.ShortTitle | botv56.py:852 | a title up to 20 characters is shown whole; a longer one as its first 20 characters and `...` |
| Text.SplitJoin | botv56.py:732-734 | `split("_")` gives back the parts a token was joined from when no part contains `_` |
| Text.JoinSplit | botv56.py:1436 | joining the parts of a split with the separator gives back the original string |
| Text.ParseIntNatToString | botv56.py:734 | `int(str(n)) == n` for every natural number |
| Tokens.ParsePriorityToken | botv56.py:732-734 | the priority button built at line 686 splits back into its priority id and time when the id has no `_` |
| Tokens.ParseTaskToken | botv56.py:907-910 | a ticket button built at line 856 splits back into its key, time and page when the key has no `_` |
| Tokens.ParseNotifToken | botv56.py:1326-1327 | a notification button built at line 1247 splits back into its id, time and page |
| Tokens.ParseDeleteToken | botv56.py:1279-1281 | the delete button built at line 1373 gives back the id and page of the notification it was shown with |
| Tokens.ParsePageTokens | botv56.py:899-902 | the page buttons of both lists (lines 862-865, 1253-1256, 1374) parse back to their page |
| Tokens.RouteNotifToken | botv56.py:1324-1325 | a notification button reaches the details handler although `notif_` also prefixes the page and delete buttons |
| Tokens.RouteDeleteToken | botv56.py:1277-1278 | a delete button reaches `delete_notification`, which is registered before the details handler |
| Tokens.RouteNotifPageToken | botv56.py:1196-1197 | a notification page button reaches the page handler, registered before the other `notif_` handlers |
| Tokens.RoutePriorityToken | botv56.py:729-730 | a priority button reaches `process_priority` |
| Tokens.RouteTaskToken | botv56.py:904-905 | a ticket button reaches `handle_task_click` |
| Tokens.RouteRequestPageToken | botv56.py:899-900 | a request page button reaches `request_page_handler` |
| Paging.TotalPages | botv56.py:833 | the page count is the ceiling of count / per-page: the last page is non-empty and holds the last row |
| Paging.ClampPage | botv56.py:834-837 | the requested page is clamped into 1..total and kept when already inside |
| Paging.Paginate | botv56.py:832-838 | the page shown is in range, its offset is `(page - 1) * per_page`, and the offset points at an existing row |
| Paging.RequestWindowBelowCap | botv56.py:823-846 | because the count is capped at 30 before paging, every one of the five slots on every page has rank below 30 |
| Paging.NavTargetsInRange | botv56.py:859-867 | the pagination row exists iff there is more than one page; it offers the previous page iff not on the first and the next iff not on the last, all within range |
| Paging.PageAfterDeleteShowsRows | botv56.py:1315-1318 | after a delete, a page past the end moves to the last page, any other page stays, and the page shown has rows |
| Identity.DecideEmail | botv56.py:430-454 | the stripped address is accepted iff it matches the pattern and no other user owns it; an invalid address is refused before the ownership query |
| Identity.AcceptedKeepsEmailsUnique | botv56.py:443-459 | binding an accepted address keeps every address owned by one user only |
| Identity.CodeText | botv56.py:381-382 | a code in 100000..999999 is stored as six decimal digits that parse back to the code |
| Identity.NewChallenge | botv56.py:460-466 | a fresh challenge expires 600 seconds after it was requested, and it is requested now |
| Identity.CheckCode | botv56.py:527-550 | the code is expired iff there is no challenge or `expires_at <= now`; it is accepted iff a live challenge holds exactly the stripped input |
| Identity.ChallengeLifetime | botv56.py:527-538 | the code just issued is accepted for 600 seconds and expired from then on |
| Identity.CooldownStatus | botv56.py:568-581 | in cooldown iff `now - last_request_at < 60`, with remaining `60 - elapsed` in (0, 60]; otherwise (false, 0) |
| Identity.CooldownCountsDown | botv56.py:572-574 | while the cooldown lasts, the remaining time falls by exactly the time that passed |
| Text.ClosedStatusIff | botv56.py:210-212 | for every status string: it is closed exactly when it spells `done` or `готово` letter by letter in any mix of cases, case-insensitive equality being defined per character apart from `lower()` |
| Identity.DowngradeStaysDisarmed | botv56.py:491-497 | once the user is verified, the deferred downgrade stays a no-op through every later run of updates that unverify nobody; together with `Bot.OrtpBot.ProcessCode` (verifies) and the `KeepsVerified` clause of every handler except `process_email`, a downgrade scheduled by a refused code does nothing after a later accepted one unless the address is registered again |
| Conversation.Back | botv56.py:312-329 | back never lands in the comment or verification prompts; a kept state keeps the data, otherwise everything is cleared |
| Conversation.Cancel | botv56.py:1410-1420 | cancel leads only to the e-mail prompt with the data kept, or clears |
| Conversation.BackAndCancelTable | botv56.py:312-329 | back: description to title, priority to description, anything else clears; cancel: code prompt to e-mail prompt, anything else clears |
| Conversation.StepBackKeepsDraft | botv56.py:338-352 | stepping back twice from the priority prompt reaches the title prompt with the typed title and description still in the data |
| Conversation.BackCancelKeepWellFormed | botv56.py:1410-1420 | back and cancel keep a well-formed session well formed |
| Conversation.RouteMessage | botv56.py:397-720 | `/start` wins in every state; a title or description handler runs only in its state, with text for the real handler and without for the re-prompt; a message with no state reaches no handler |
| Drafts.ButtonsForEntry | botv56.py:685-690 | a tracker priority named Low, Medium or High gets exactly one button, carrying its id; any other gets none |
| Drafts.PriorityButtonsOffered | botv56.py:685-690 | the buttons are the offered priorities in the tracker's order, each carrying that priority's id |
| Drafts.FindPriorityName | botv56.py:739 | the name found belongs to an entry with the pressed id; none is found only when no entry has it |
| Drafts.PriorityButtonRoundTrip | botv56.py:729-739 | pressing a priority button brings `process_priority` back to the name of the entry it was made for |
| Drafts.SignedDescription | botv56.py:753 | the description sent is the typed text, the separator and the requester's e-mail, in that order |
| Comments.AddComment | botv56.py:205-226 | a comment is added iff the ticket exists, its status is not closed, and the POST succeeds; a closed ticket is refused before posting |
| Comments.ClosedTicketRefusesComments | botv56.py:205-212 | for every status and POST outcome: the comment is refused as closed exactly when the status is Done or Готово in some letter case |
| Comments.ReportedAddedOnlyWhenPosted | botv56.py:985-1022 | the user hears "added" iff the ticket exists, is open, and the tracker accepted the POST |
| Tickets.FindTicket | botv56.py:1457-1464 | the row found has the key; none is found only when no row has it |
| Tickets.Upsert | botv56.py:759-763 | a new key gets a row with status `To Do` and the creation time; an existing key gets the new title and `To Do`; no other key changes |
| Tickets.UpsertKeepsKeysUnique | botv56.py:759-763 | the upsert keeps `issue_key` unique |
| Tickets.SetStatus | botv56.py:1505 | only the ticket with the key gets the new status; every other key, and every owner, is unchanged |
| Tickets.SetStatusKeepsKeysUnique | botv56.py:1505 | the status update keeps `issue_key` unique |
| Tickets.Listing | botv56.py:839-846 | the listing is exactly the user's tickets that are not Done or are newer than the cutoff (a NULL status counts by date only), sorted newest first, as a permutation |
| Tickets.RequestsPageShowsListing | botv56.py:817-857 | a page holds at most five consecutive tickets of the listing, all listed and all among its first 30, each with its shortened title and a callback carrying key, time and page |
| Tickets.RequestRowCallback | botv56.py:856 | a ticket button parses back to its ticket and page and reaches `handle_task_click` |
| Tickets.RequestsViewCases | botv56.py:811-831 | an unverified user gets the registration message; a verified user gets the empty message iff no ticket is listed; the info button is on page 1 only |
| Notices.Prune | botv56.py:1490-1502 | a row survives iff it belongs to another user or fewer than 100 rows of its user are newer |
| Notices.PruneBound | botv56.py:1490-1502 | after the prune the user has at most 100 rows |
| Notices.PruneKeepsNewest | botv56.py:1490-1502 | a newer row of the user survives whenever an older one does |
| Notices.PruneKeepsOthers | botv56.py:1490-1502 | other users' rows are untouched |
| Notices.PruneNoOp | botv56.py:1490-1502 | a user with at most 100 rows loses none |
| Notices.PruneDropsOldest | botv56.py:1486-1502 | the 101st row leaves exactly 100, and the oldest is the one removed |
| Notices.NewRowSurvives | botv56.py:1486-1502 | the row just inserted, being the newest, survives its prune |
| Notices.AppendCounts | botv56.py:1486-1489 | the insert adds one row to the owner's notifications and none to anyone else's |
| Notices.InsertPruneKeepsInvariant | botv56.py:1486-1502 | insert then prune keeps ids increasing and every user at 100 rows or fewer |
| Notices.NoticeListing | botv56.py:1237-1243 | the list is exactly the user's notifications, newest first, as a permutation |
| Notices.NoticesPageShowsListing | botv56.py:1201-1259 | a page holds at most eight consecutive rows of the listing, each with a callback that parses back to its id, time and page and reaches the details handler |
| Notices.FindNotice | botv56.py:1349-1350 | the row found has the requested id; none is found only when no row has it |
| Notices.MarkRead | botv56.py:1371 | only the rows with the id become read; everything else is as it was |
| Notices.MarkReadKeepsInvariant | botv56.py:1371 | marking read keeps ids increasing and the 100-row bound |
| Notices.DeleteNotice | botv56.py:1285 | exactly the rows with the id are removed, whoever owns them |
| Notices.DeleteKeepsInvariant | botv56.py:1285 | deleting keeps ids increasing and the 100-row bound |
| Webhook.CheckSignature | botv56.py:1433-1442 | a missing or empty header is not checked; a header without `=` is malformed; an accepted header is some prefix, `=`, and the expected digest |
| Webhook.Decide | botv56.py:1431-1566 | a bad signature gives 401 with no write; only a 200 writes; a write is a notification for the owner of the payload's known ticket, after a successful fetch and send; a status write really changes the stored status |
| Webhook.DecideEvent | botv56.py:1475-1561 | only a status change sets the status; comments and assignee changes only notify; every notification goes to the ticket's owner and needs the send to succeed |
| Webhook.WebhookNoOps | botv56.py:1447-1482 | 200 with no write when the event or key is missing, the ticket is unknown, the fetch fails, the event is unknown, the status did not change, or the comment is the bot's own |
| Webhook.WebhookNotifies | botv56.py:1476-1557 | every other event notifies the owner; a status change carries the new status, `Неизвестно` when `to` is missing and none when it is JSON null; an assignee change without a usable `to` names `Не назначен` |
| Bot.OrtpBot.constructor | botv56.py:84-134 | the tables start empty and satisfy the invariant |
| Bot.OrtpBot.Start | botv56.py:397-410 | a verified user changes nothing; anyone else is put in the e-mail prompt with the new prompt's id, the rest of the data kept |
| Bot.OrtpBot.ProcessEmail | botv56.py:412-489 | non-text changes nothing; without a prompt id only the id is recorded; an invalid or taken address changes nothing; an accepted one makes the user unverified with that address and overwrites the challenge, and the state moves to the code prompt only if the mail went out; the invariant holds |
| Bot.OrtpBot.Register | botv56.py:456-465 | an accepted address is stored on the user's row, unverified, and a new challenge replaces the old one; sessions, tickets and notifications are untouched and the invariant holds |
| Bot.OrtpBot.ProcessCode | botv56.py:513-566 | challenges are never written and nobody verified is unverified; the right live code verifies the user, so the deferred downgrade no longer fires, and clears the session; expired or wrong codes change nothing and schedule the downgrade after the remaining cooldown, if any |
| Bot.OrtpBot.ResendCode | botv56.py:583-628 | without a prompt id only the id is recorded; without a user and challenge row, or inside the cooldown, nothing changes; otherwise a fresh challenge is written whether or not the mail goes out |
| Bot.OrtpBot.CreateRequestStart | botv56.py:630-641 | only a verified user enters the title prompt, recording the menu message as the prompt |
| Bot.OrtpBot.ProcessTitle | botv56.py:643-657 | without a prompt id nothing changes; otherwise the title is stored and the description prompt entered |
| Bot.OrtpBot.ProcessDescription | botv56.py:677-700 | the description is stored and the priority prompt entered before the priorities are fetched; the buttons are those of the fetched priorities, none if the fetch fails |
| Bot.OrtpBot.ProcessPriority | botv56.py:729-780 | an unparsable, stale or unknown priority changes nothing; otherwise the session is cleared whatever happens, the issue sent is the stored title, the description signed with the user's address (`неизвестная почта` without a user row) and the chosen priority, and only a created issue is upserted |
| Bot.OrtpBot.HandleBack | botv56.py:1392-1394 | the session takes one step back as `handle_back` does; no table changes |
| Bot.OrtpBot.CancelButton | botv56.py:1410-1420 | the session goes back to the e-mail prompt or is cleared, as `cancel_button_handler` does |
| Bot.OrtpBot.BackToTitle | botv56.py:338-342 | the title prompt is entered with the data kept |
| Bot.OrtpBot.BackToDescription | botv56.py:344-352 | the description prompt is entered with the data kept |
| Bot.OrtpBot.BackToRequests | botv56.py:1396-1400 | the session is cleared and the first page of the list shown |
| Bot.OrtpBot.ShowMyRequests | botv56.py:809-893 | the buttons built one ticket at a time, and the pagination row, are the page of the list the user should see |
| Bot.OrtpBot.RequestNav | botv56.py:859-867 | the pagination row holds one button per page that `NavTargets` lists, previous, current and next, and none when everything fits on one page |
| Bot.OrtpBot.RequestPage | botv56.py:899-902 | a parsable page number shows that page; anything else shows nothing |
| Bot.OrtpBot.HandleTaskClick | botv56.py:904-983 | an unparsable or stale button changes nothing; a ticket the tracker does not know shows the list again; a failed lookup changes nothing; a shown ticket enters the comment prompt with its key and, if any, the message id |
| Bot.OrtpBot.ProcessComment | botv56.py:985-1022 | without a ticket key nothing happens; otherwise the report follows the tracker's answer and the session is cleared either way |
| Bot.OrtpBot.DeleteNotification | botv56.py:1277-1322 | the rows with the id are deleted, whoever owns them; the caller then sees the empty message or a page that still has rows; the invariant holds |
| Bot.OrtpBot.ShowNotificationDetails | botv56.py:1324-1390 | only a fresh button for an existing row marks it read; the details carry the delete and back buttons for that id and page |
| Bot.OrtpBot.HandleWebhook | botv56.py:1431-1566 | the status is the decision's; a notifying decision inserts one row for the owner with the next id and prunes, and a status change updates the ticket; otherwise no table changes |
| Bot.OrtpBot.Record | botv56.py:1483-1557 | the writes of a notifying event, leaving the owner at most 100 rows, the new row among them when nothing stored is newer |
| Bot.OrtpBot.Insert | botv56.py:1486-1502 | insert with the next auto-increment id, then prune the owner's rows, keeping the invariant |
| Bot.OrtpBot.SetTicketStatus | botv56.py:1505 | the ticket's status update, keeping the invariant |

## Left out

- Telegram transport is not modelled: sending, editing and deleting messages, keyboards, texts, emoji and the progress animation. The views are modelled only as the rows and callback strings they carry.
- Jira HTTP calls are replaced by their outcomes, passed as parameters: the priorities, the created key, the issue lookup, the POST result and the fetch success. `get_priorities` already drops names other than high, medium and low, so the model receives that filtered list.
- MySQL is replaced by in-memory maps and sequences. Database errors are left out. `execute_query` logs and re-raises, so a failing query stops the handler there, after any earlier writes have been committed. Those partial writes are not modelled: for example, if the webhook's INSERT (botv56.py:1486) succeeds and the prune (botv56.py:1490) raises, the answer is 500 and the owner keeps more than 100 rows, which `Valid()` rules out.
- The `UNIQUE` e-mail column compares with MySQL's case-insensitive collation. The model compares exactly.
- The same collation applies to `status != 'Done'` (botv56.py:821, 843), modelled by `Tickets.Listed`, and to `issue_key = %s` (botv56.py:1458, 1505), modelled by `Tickets.FindTicket` and `Tickets.SetStatus`. The model compares both exactly.
- Sending the code by SMTP is a boolean outcome. `random.randint` is the `code` parameter, required to be in 100000..999999.
- The HMAC-SHA256 digest is computed outside the model and passed in as `expected`. The constant-time property of `compare_digest` is not modelled.
- `asyncio.sleep`, `create_task` and the auto-deletion of messages are left out. The deferred downgrade is modelled in two parts: `ProcessCode` returns its delay, and `Identity.DowngradeFires` is the re-check it makes when it runs. Interleavings of handlers across `await` points are not modelled; each handler runs to completion.
- Time is integer seconds. `time.time()` is a float, so a button between 60 and 61 seconds old can be judged differently. Date formatting is left out, and the three-month cutoff of the request list is the parameter `cutoff`.
- Text.ParseInt: accepts an optional `+` or `-` sign followed by ASCII digits. Python's `int()` also takes surrounding whitespace, underscores between digits and non-ASCII digits. The bot's own buttons carry only ASCII digits, so only hand-made callback data differs.
- Notices.IdMatches: compares a notification id with the callback's id text through `Text.ParseInt`. MySQL's lenient string-to-number comparison, which matches `"5abc"` to id 5, is not modelled.
- Text.Lower: covers only ASCII and the basic Cyrillic capitals, which is all the two closed-status words need.
- Rows with equal `created_at` or equal notification timestamps have no order in SQL. The model lists tickets with equal times in reverse table order, and ranks notifications with equal times by id.
- Payload fields that are JSON numbers, booleans, arrays or objects are not modelled; a field is missing, null or a string. A body that is not a JSON object is `None` and answers 500.
- The rendered notification text, with its status translation, is not modelled. `Notices.Message` keeps the fields the text is built from.
- The webhook's tracker fetch only matters by failing. The current status and priority it returns are unused, as in the handler.
- The re-prompt handlers for non-text titles and descriptions (botv56.py:659-675, 702-720) have no method. They write no table and no session, and `Conversation.RouteMessage` shows when they run. Their `.then(...)` call raises after the message is deleted, which changes nothing either.
- `show_notifications` and `notif_page_handler` have no method. They only read, and `Notices.NoticesViewOf` is what they show.
- `info_button`, `hide_notification`, configuration loading, webhook registration and the bootstrap are UI or setup. They are not modelled.
- The team-directory handlers (botv56.py:1025-1190) sit inside a string literal and are never registered. Their states appear only to be proved unreachable.
