# Navigator teacher bot — a Dafny model of its core

The bot (`main.py`) is a Telegram front end for a school's order-management
site. A teacher registers with their site login. The bot keeps the password
only encrypted, and keeps one site session per chat user. It restores lost
sessions at startup. On `/list` it fetches the open orders and renders each
one: a status label, the group's weekly schedule, and the parent's phone as a
`t.me/` link. The bot's inline buttons carry colon-separated callback
tokens (`action:<id>:<verb>`, `confirm:<id>:<category>`, `custom:<id>`).
Approving an order is meant to post a comment "DD.MM name category" to the
site and rewrite the status line of the order message in place. The registry
is saved to a JSON data file after each registration and at exit.

As written, this version of the bot never shows an action button:
- `/list` builds an order's action buttons and then drops them before sending (main.py:384-386);
- the failure edits that would put them back cannot be reached (main.py:482-486 sits under `if True or` at main.py:465, and main.py:489-493 runs only inside `send_approval_comment`, whose callers raise first at main.py:612 or are never registered, main.py:665);
- the only keyboard sent, the category keyboard, is sent from `button_handler` itself (main.py:608).

So `button_handler` sees buttons only on messages left by an earlier deployment. Also as written, the approval request is commented out (main.py:464), so no comment is posted. The model describes the handlers with these defects repaired, and keeps the as-written behaviour beside them (see Findings).

This project models that deterministic core, one module per concern:

- `Tables`: the status vocabulary (`STATUS_MAP`) and the weekday codes (`WEEKDAYS_MAP`).
- `Text`: the Python string operations used: `split`, `join`, `replace(c, '')` and `strip`.
- `Digits`: `str(int)` and `int(text)`.
- `Clock`: `isoformat`, `fromisoformat` and `strftime("%d.%m")` on naive timestamps.
- `Orders`: phone cleaning, and the schedule text with its building loop.
- `Tokens`: encoding and decoding callback tokens, and `button_handler`'s dispatch, as written and repaired.
- `Approval`: the approval comment, the status-line rewrite, and the edit made after posting.
- `Users`: the user record and the per-user conversation values.
- `Snapshot`: `save_user_data` / `load_user_data` as record transforms, with their loops.
- `Sessions`: `restore_all_sessions`, and the `/list` request with its one re-login.
- `Handlers`: class `Bot`, which holds the in-memory registry, the per-user conversation values, each user's step in the registration dialogue, and the last saved file content. Its methods are the handlers: `start`, `login_received`, `password_received`, `fio_received`, `list_applications`, `button_handler`, `handle_message` and `send_approval_comment`, plus startup and save.

Everything outside the bot's own code is a parameter:

- encryption (`Encrypt`) and decryption (`Decrypt`): the ciphertext, the plaintext, or None when the call raises;
- logging in (`Authenticate`): a session, or None;
- the HTTP status of each orders request (`FetchResult`);
- the site's answer to an approval (`RemoteResult`);
- the clock reading (`now`).

Chat replies and message edits are returned as values.

## Model

| member | source | states |
|---|---|---|
| Tables.StatusLabel | main.py:120-126 | defined exactly on the five site codes, each mapped to its fixed label; any other code has no entry (the KeyError at main.py:368) |
| Tables.StatusLabelsStartWithStatus | main.py:120-126 | every label starts with one of the five emoji the rewrite at main.py:469 looks for |
| Tables.StatusLabelsInjective | main.py:120-126 | distinct codes have distinct labels |
| Tables.WeekdayName | main.py:128-136 | defined exactly on 0..6; 1..6 are Monday..Saturday and 0 is Sunday |
| Tables.WeekdaysInjective | main.py:128-136 | all seven codes map to distinct names |
| Tables.WeekdaysMondayFirst | main.py:128-136 | the codes 1, 2, …, 6, 0 list the week Monday first |
| Text.Split | main.py:580 | `str.split` with one separator: at least one segment, and no segment contains the separator |
| Text.JoinSplit | main.py:580 | joining the segments of a split with the separator gives back the text |
| Text.SplitJoin | main.py:267-275 | splitting a join of separator-free segments gives back the segments |
| Text.SplitConcat | main.py:580 | a separator between two texts splits them apart: split(a+sep+b) = split(a) ++ split(b) |
| Text.RemoveAll | main.py:363 | `replace(c, '')` leaves no `c`, keeps every other character as often as it occurs, and keeps them in their original order |
| Text.Strip | main.py:213 | `strip()` returns an infix with only whitespace cut from either end, and no whitespace at either end of the result |
| Text.StripIdempotent | main.py:213 | stripping twice is stripping once |
| Digits.ParseInt | main.py:62 | `int(text)`: surrounding whitespace, an optional sign and one or more digits; anything else is a ValueError (None) |
| Digits.IntTextRoundTrip | main.py:41 | `int(str(i)) == i`, so a saved user id reads back as itself |
| Digits.IntTextInjective | main.py:41 | distinct ids are saved under distinct keys |
| Clock.IsoFormat | main.py:44 | `isoformat()` is 19 characters, or 26 when the microsecond is not zero |
| Clock.FromIsoFormat | main.py:72 | a parsed timestamp is always a valid date and time |
| Clock.IsoRoundTrip | main.py:44 | a saved last-login timestamp loads back (main.py:72) as the same timestamp |
| Clock.DayMonth | main.py:440 | `strftime("%d.%m")` is five characters whose day and month fields read back as the date's |
| Orders.NormalizePhoneIsFilter | main.py:363 | the four chained deletions equal one filtering pass that drops `(`, `)`, `-` and space |
| Orders.NormalizePhoneSpec | main.py:363 | the cleaned number has no separator, keeps every other character as often as it occurs, and keeps them in order |
| Orders.NormalizePhoneIdempotent | main.py:363 | cleaning a clean number changes nothing |
| Orders.DayNames | main.py:372 | the day names exist exactly when every code is in the table, one name per code, each the table's |
| Orders.ScheduleDefined | main.py:370-373 | rendering fails exactly when some weekday code is not in the table |
| Orders.ScheduleAppend | main.py:370-373 | the text of a concatenation of entries is the concatenation of their texts |
| Orders.ScheduleLines | main.py:370-373 | when it renders, the schedule has one line per entry, in order, each the entry's days and time range, then a final line break |
| Orders.BuildSchedule | main.py:370-373 | the accumulating loop produces exactly the schedule text, or fails on the first unknown code |
| Tokens.ParseVerb | main.py:595 | exactly `approve`, `pause` and `cancel` are verbs, and a recognised verb's text is the verb read |
| Tokens.Decode | main.py:580-592 | decoding fails closed: it succeeds exactly on `action` with three segments and a known verb, `confirm` with at least three, or `custom` with at least two; a decoded order id contains no colon |
| Tokens.DecodeParts | main.py:580-592 | on the segments: the same success condition; the order id is the second segment; an action is exactly its three segments, a confirm category is the rest rejoined with colons, and each kind comes from its own first segment |
| Tokens.EncodeSegments | main.py:267-275 | splitting an encoded token gives back its segments (a confirm category's own segments after the id) |
| Tokens.DecodeEncode | main.py:267-275 | every well-formed token decodes back to itself |
| Tokens.EncodeInjective | main.py:267-275 | distinct well-formed tokens have distinct callback data |
| Tokens.ConfirmCrashesAsWritten | main.py:610-613 | as written, every confirm button of the category keyboard raises AttributeError |
| Tokens.UnknownButtonIgnored | main.py:580-620 | data whose first segment is no known kind is ignored when repaired; as written it is ignored too, unless it has no colon, when it raises IndexError |
| Tokens.HandleButtonEncoded | main.py:580-620 | repaired: approve from a registered user shows the categories; pause and cancel do nothing; an unregistered user is told the session is stale; confirm submits its category; custom asks for a comment |
| Tokens.HandleButtonAgrees | main.py:580-620 | on action and custom buttons, the repair behaves exactly as the code as written |
| Tokens.ActionKeyboardTokens | main.py:267-275 | an order's three buttons decode to approve, pause and cancel for that order, and the id text parses back to the id |
| Tokens.ApproveFlow | main.py:595-619 | approve shows the category keyboard for the same order; its buttons submit paid or subsidy, or ask for a free-text comment, for that order |
| Approval.ApprovalComment | main.py:440-442 | the comment is the two-digit day and month of `now`, the user's name (`Не указано` if none) and the suffix, separated by single spaces |
| Approval.FirstStatusLine | main.py:468-474 | finds the first line that starts with a status emoji and is followed by a line break; no earlier line qualifies |
| Approval.RewriteLines | main.py:468-474 | line by line, the regular-expression rewrite replaces the first status line with the approved label |
| Approval.RewriteStatusSpec | main.py:468-474 | the rewrite keeps the number of lines and every other line; with no status line the text is unchanged |
| Approval.RewriteIdempotent | main.py:468-474 | approving an approved message again changes nothing |
| Approval.RewriteOrderMessage | main.py:377 | an order message opening with any status label gets exactly that first line replaced by the approved label |
| Approval.RejectedShownApprovedAsWritten | main.py:465 | as written, a rejected approval still shows the message as approved (one concrete message) |
| Approval.FailedShownApprovedAsWritten | main.py:463-494 | as written, for any message with a status line and any failed answer, the edit is that of an accepted approval: status line approved, buttons gone; checked, the text is kept and the action buttons come back |
| Approval.EditAfterApproval | main.py:463-494 | with the response checked: success rewrites the lines and removes the buttons; failure keeps the text as a prefix and restores the order's action buttons |
| Approval.FailedApprovalKeepsLines | main.py:480-494 | a failed approval keeps every line, the status line included, and only adds lines after them |
| Snapshot.LoadLastLogin | main.py:69-75 | a loaded last-login value is absent or a valid timestamp |
| Snapshot.Restore | main.py:77-82 | a loaded record has no session and no name, and a valid timestamp |
| Snapshot.LoadFn | main.py:60-83 | a successful load yields only valid records |
| Snapshot.RestorePersist | main.py:41-45 | a saved record loads back as itself, without session and name |
| Snapshot.ListingKeys | main.py:41-45 | each user is saved under the text of their id with their own saved fields |
| Snapshot.SaveLoadRoundTrip | main.py:28-83 | save then load, whatever order the registry yields users in, gives every user back with email, ciphertext and last login intact and no session or name |
| Snapshot.LoadedRecords | main.py:60-83 | every loaded user has no session and no name, and is the record of the last saved member whose key parses to their id (a later duplicate overwrites an earlier one) |
| Snapshot.LoadFailurePersists | main.py:62 | one key that is not an integer fails the whole load |
| Snapshot.SaveUserData | main.py:28-45 | the saving loop writes each user exactly once, under the text of their id, and the file it writes reloads to the registry without sessions and names |
| Snapshot.LoadUserData | main.py:60-83 | the loading loop computes the load of the members in file order, or fails on a bad key |
| Sessions.Relogged | main.py:636-637 | a re-login replaces session and last login and keeps email, name and ciphertext |
| Sessions.LoginAgain | main.py:633-634 | a stored login yields a session exactly when the ciphertext decrypts and the site accepts it |
| Sessions.RestoreOne | main.py:631-640 | a user with a session is unchanged; a failed re-login leaves the user unchanged; a successful one sets the new session and `now` |
| Sessions.RestoreAll | main.py:629-640 | restoring keeps the set of users |
| Sessions.RestoreAllKeeps | main.py:629-640 | restoring keeps every user's identity fields and valid timestamps, and leaves users with a session untouched |
| Sessions.RestoreAllSessionsIff | main.py:629-640 | after a restore a user has a session exactly when they had one or their stored login works |
| Sessions.RestoreAllIdempotent | main.py:629-640 | restoring twice with the same outcomes is restoring once |
| Sessions.ListFlow | main.py:395-432 | `/list` changes at most the session and last login of the user's record, and always gives a reply to a registered user |
| Sessions.ListFlowAsWritten | main.py:421-423 | as written, orders are shown only when the first request succeeds |
| Sessions.ListFlowEffects | main.py:395-432 | at most two requests, two exactly when the session was rejected and a re-login worked; only then the record changes, to the new session and `now` |
| Sessions.ListShowsOrders | main.py:403-423 | awaited, orders are shown exactly when the session works, or it was rejected, re-login worked and the retry succeeded |
| Sessions.RetryOrdersDroppedAsWritten | main.py:421-423 | the code as written and the awaited version differ only when a successful retry after re-login returns 200: the orders are dropped as written and shown when awaited |
| Sessions.ListFlowValid | main.py:418-419 | a listing keeps the record's timestamp valid |
| Handlers.FioSaved | main.py:225 | the confirmation echoes the name after its fixed prefix |
| Handlers.RestartRestoresSessions | main.py:643-649 | after a save and a restart, every saved user is back with their identity, no name, and a session exactly when their stored login still works |
| Handlers.ApprovalAnswer | main.py:434-494 | an unknown user raises KeyError; the comment is posted, to the given order, exactly when the user has a session or the stored login works again; otherwise the message becomes the access error (decryption failed) or the restore error (login failed), without buttons |
| Handlers.ApprovalUsers | main.py:444-453 | only the caller's record may change, and only its session; it changes exactly when the user had no session and the stored login works, and then holds the new session |
| Handlers.CommentAnswerAsWritten | main.py:496-504 | as written, a comment from a registered user raises AttributeError, and from an unknown user KeyError |
| Handlers.CommentCrashesAsWritten | main.py:434-504 | for a registered user the comment handler raises as written, where the repaired one never raises |
| Handlers.Bot.constructor | main.py:645 | a bot starts on the loaded registry with no conversations and no scratch values |
| Handlers.Bot.StartRoute | main.py:197-210 | an unknown user is asked for a login, a registered user without a non-empty name for a name, and anyone else is told they are registered |
| Handlers.Bot.StartCommand | main.py:197-210 | `/start` enters the dialogue at that step; inside the dialogue it is ignored; the invariant holds |
| Handlers.Bot.LoginReceived | main.py:212-216 | the stripped login is kept and the password is asked for; nothing else changes |
| Handlers.Bot.FioReceived | main.py:218-226 | a registered user's name becomes the stripped text; the reply echoes it and the dialogue ends |
| Handlers.Bot.Save | main.py:28-48 | after saving, the data file reloads to the registry without sessions and names |
| Handlers.Bot.PasswordReceived | main.py:228-265 | no login typed raises KeyError; failed encryption or login leaves the registry and file alone; success stores email, `Без ФИО` as name (nothing sets a name before), ciphertext, session and `now`, saves, and `/start` then says the user is registered |
| Handlers.Bot.TextMessage | main.py:651-658 | dispatched by dialogue step, with the whole new state per step: at the login step the stripped login is kept and the password asked for; at the password step the three outcomes of registration (encryption failure, login rejected, or the user stored as `Без ФИО` with the new session and saved); at the name step only that user's name changes and the dialogue ends; outside the dialogue nothing changes. No handler raises (a user waiting for a password has always typed a login) |
| Handlers.Bot.RestoreAllSessions | main.py:629-640 | the in-place loop leaves exactly the restored registry |
| Handlers.Bot.Launch | main.py:643-649 | startup fails exactly when the load fails; otherwise the registry is the restored load, and `/start` asks every loaded user for a name |
| Handlers.Bot.ListApplications | main.py:277-432 | an unregistered user is told to register; otherwise the reply and the record are the listing's |
| Handlers.Bot.SendApprovalComment | main.py:434-494 | unknown user raises KeyError; a lost session is restored first (session only), and a failed restore replaces the message with the matching error; otherwise the comment is posted to the given order and the message edited by the answer |
| Handlers.Bot.ButtonPressed | main.py:575-620 | the repaired dispatch; the custom button stores the order as awaiting a comment; a category sends the approval for the order id read as an integer (ValueError when it is not one): KeyError for an unknown user, otherwise the approval answer, with only the caller's session changed as in a re-login |
| Handlers.Bot.HandleMessage | main.py:496-504 | a pending order is taken off its slot and the approval is sent with the stripped text: the approval answer for that order, posted to that order, with only the caller's session changed as in a re-login; with none pending nothing happens |
| Handlers.PromptEditAccepted | main.py:465-478 | the comment prompt has no status line, so an accepted approval leaves its text as it is and removes the buttons |
| Handlers.CustomCommentFlow | main.py:615-620 | pressing the free-text button, then sending text, posts the approval to that order with that text as the comment suffix; the edit applies to the message now showing the prompt, so an accepted approval leaves the prompt; the registry is unchanged |
| Handlers.CategoryFlow | main.py:595-613 | approve, then a category button, posts "DD.MM name category" to that order |

## Left out

- Markdown escaping (`escape_markdown`) and the assembly of the order message text are not modelled. `RewriteOrderMessage` assumes the message opens with a status label.
- The three auxiliary lookups per order and the JSON shape of site answers are not modelled. `get_orders` is abstracted to "orders shown".
- JSON encoding and the file itself are not modelled. The data file is modelled as its members in order. The `str`/`bytes` conversions of the ciphertext are identities on Fernet's ASCII tokens, so the ciphertext is kept as text.
- Clock.FromIsoFormat accepts only the two shapes `isoformat()` writes.
- Digits.ParseInt does not accept `_` digit separators or non-ASCII digits.
- Fernet encryption, HTTP, Telegram delivery, deleting the password message, logging and `async` scheduling become parameters or are omitted. No concurrency is modelled.
- Sessions.RestoreAll uses one clock reading for the whole pass, where the code reads the clock once per restored user.
- Sessions.ListFlow: the retried request carries no filter parameters, so its list may differ from the first request's. This is not modelled.
- Handlers.Bot.SendApprovalComment: the model posts the comment and checks the answer, which is the evidently intended behaviour. As written the request is commented out (main.py:464) and the answer is never checked (see Findings).
- Handlers.Bot.TextMessage follows the registration as written: the dialogue ends after the password, and nothing sets a name first, so the user is stored as `Без ФИО` (main.py:256). A `/start` then answers that the user is registered (main.py:205-209). The name is asked for only after a restart, because loading does not read names back (main.py:77-82, `Launch`). Text outside the dialogue goes nowhere, because `handle_message` is not registered (main.py:665). `HandleMessage` is modelled as its own entry point.
- Handlers.Bot.ButtonPressed ignores malformed callback data where the code as written raises ValueError or IndexError. It also ignores `action:<id>:<unknown verb>` from an unregistered user, who as written is told "❌ Сессия устарела." (main.py:589-591). No button the bot builds carries such data (`HandleButtonAgrees`).
- Handlers.Bot.ListApplications runs the listing with the retried request's orders sent (`ListFlow` with the retry awaited). As written they are dropped (main.py:423, see Findings and `ListFlowAsWritten`).
- Handlers.Bot.HandleMessage uses the order message's text (`messageText`) for the edit, which is the evidently intended behaviour. As written the handler passes its Update where the callback query is expected (main.py:504), so `query.message.text` would be the typed comment and every edit raises AttributeError (see Findings and `CommentAnswerAsWritten`). Handlers.CustomCommentFlow inherits this.
- Handlers.CustomCommentFlow hands the approval the message as the free-text button left it: its text replaced by the comment prompt (main.py:618-620). The prompt edit itself is not a result of `ButtonPressed`.
- Order messages from `/list` carry no buttons as written (main.py:384-386). Tokens.ActionKeyboardTokens and Handlers.CategoryFlow start from the keyboard `create_action_buttons` builds (main.py:267-275), which as written is never shown (see the introduction). The rendering of the order message is not modelled, so this is not a model member.
- Handlers.Bot.ButtonPressed does not clear a pending free-text request when approve is pressed again; the code does not either.

## Findings

| source | as written | input that shows it | evidently intended | confidence | as-written member | corrected member |
|---|---|---|---|---|---|---|
| main.py:610-613 | The confirm branch calls `.split(":", 2)` on the list of segments. It would next use the unbound `user_id` and pass `update` where the callback query is expected. | pressing `confirm:7:платно` | Decode the token and send the category as the comment for the pressing user's order. | high, not executed | Tokens.ConfirmCrashesAsWritten | Tokens.ApproveFlow |
| main.py:423 | After a re-login the retried listing is called without `await`, so no orders are sent. | first answer 401, the re-login succeeds, retry answer 200 | Await the listing of the retried response. | high, not executed | Sessions.RetryOrdersDroppedAsWritten | Sessions.ListShowsOrders |
| main.py:465 | `if True or …` makes every approval count as accepted. Dropping `True or` alone would not do: the failure branch then reads `current_text`, which is bound only in the success branch (main.py:467, 484). | the text `❌ Отменена\n` with a rejected answer (500) | Rewrite only on success; otherwise keep the text, append the warning and restore the buttons. | high, not executed | Approval.FailedShownApprovedAsWritten | Approval.FailedApprovalKeepsLines |
| main.py:504 | `handle_message` passes its Update as the callback query. An Update has no `edit_message_text`, so every edit in `send_approval_comment` raises AttributeError (main.py:451, 456, 475, 491). | a registered user sends text while an order waits for a comment | Edit the message whose free-text button was pressed (by then it shows the comment prompt, main.py:618-620). | high, not executed | Handlers.CommentCrashesAsWritten | Handlers.Bot.HandleMessage |

Places where the model follows the code's own behaviour, which a reader might expect to be different:

- The registration does not ask for a name after the password.
- A malformed key fails the whole load; records are not quarantined.
- A failed re-login during `/list` leaves the expired session in place rather than clearing it.
- Unrecognised callback data is ignored without notifying the user.
