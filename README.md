# Production Monitor: a Dafny model of the Telegram-driven checker

The production monitor is a Telegram bot. On `/run`, it starts a headless
browser, logs into the planning web application, and reads the dashboard's
category cards. It then visits every category that is below 100% and still
has items left, and ticks every unchecked item in that category's task table.
Progress is reported in the chat throughout. When the login asks for a
verification code, the bot waits for the user to send it as a chat message.

The model covers the core of `telegram_bot.py`:

- `ProductionMonitor` with `initialize`, `save_session`, `handle_login`
  (including its second-factor wait), `check_dashboard`,
  `navigate_to_production_tasks`, `process_production_page`,
  `run_full_check` and `cleanup`;
- the gates of the chat handlers `run_command` and `handle_message`.

Browser results are reduced to observations: the datatypes in `Types.dfy`
record what each wait, query or navigation returned. Everything the monitor
does that is visible outside it is an `Action` appended to the monitor's
`trace`: a chat notice, a click, a fill, a session save, a released resource.

Each stage of the bot is a pure function of its observations:

| module | stages |
|---|---|
| `Auth` | `Login`, `Company`, `Credentials`, `Password`, `SecondFactor`, `Arrival` |
| `Dashboard` | `ParseCard`, `Scan`, `Selected` |
| `Tasks` | `Navigate`, `Process` |
| `Run` | `RunBody`, `CleanupPlan`, `RunTrace` |
| `Gate` | `CodeIn`, `Deliver`, `Poll`, `RunCommand` |

The class `Bot.ProductionMonitor` keeps the fields the bot updates in place:

- the `waiting_for_2fa` flag and the `two_fa_code` slot;
- whether each of the four browser resources is set;
- the trace.

Each of its methods is proved to leave exactly the state and trace that the
matching stage function gives. The loops keep the source's shape:

- the 60-step poll for the code;
- the dashboard card loop;
- the button search;
- the row loop;
- the category walk.

Each loop carries the invariant that ties it to its specification.

Module layout:

| file | contents |
|---|---|
| `Wrappers.dfy` | `Option` |
| `Text.dfy` | Python's `strip`, `strip(chars)`, `isdigit`, `int(...)` and `str(n)` over ASCII |
| `Types.dfy` | observations, notices, actions |
| `Gate.dfy` | the code test, code delivery and the poll, the `/run` gate |
| `Dashboard.dfy` | card parsing and the selection of categories |
| `Tasks.dfy` | the button search and the row walker |
| `Auth.dfy` | the login flow |
| `Run.dfy` | the whole check and cleanup |
| `Bot.dfy` | the monitor class and the message handler |

## Model

| member | source | states |
|---|---|---|
| Text.StripChars | telegram_bot.py:266 | `strip(chars)`: the result is no longer than the text and neither starts nor ends with a stripped character; its exact value is stated by `Text.StripCharsOf` |
| Text.Strip | telegram_bot.py:271-272 | `strip()`: `strip(chars)` over the ASCII whitespace that Python strips, blank, tab, line feed, carriage return, vertical tab, form feed and the separators 0x1C to 0x1F |
| Text.ParseInt | telegram_bot.py:266-272 | `int(...)`: surrounding whitespace, an optional sign and at least one digit, or no value for the `ValueError` case; it reads back every decimal rendering (`Text.ParseShowInt`), and gives a value exactly for the texts of the integer format (`Text.ParseIntShape`) |
| Text.StripCharsOf | telegram_bot.py:266 | `strip(chars)` of any text surrounded by stripped characters, with none at its own ends, is exactly that text |
| Text.StripCharsIdempotent | telegram_bot.py:271 | stripping a stripped text changes nothing |
| Text.ParseShowInt | telegram_bot.py:272 | `int(str(n)) == n` for every integer, so any decimal label reads back as its value |
| Text.ParseSignedShape | telegram_bot.py:272 | a stripped text is read as a signed decimal iff it has the integer format: digits only, optionally after one leading sign followed by digits |
| Text.ParseIntShape | telegram_bot.py:266-272 | `int(s)` gives a value iff the stripped text has the integer format, so every other text (`"n/a"`, `"50%"`, `"4.5"`, an empty text) is the `ValueError` case |
| Text.IsDigits | telegram_bot.py:481 | `isdigit()` on a string: non-empty and every character an ASCII digit; tied to the plain character-by-character format by `Gate.CodeGate` |
| Gate.IsCode | telegram_bot.py:481 | the handler's acceptance test on stripped text: `isdigit()` and a length of 4 to 8; characterised by `Gate.CodeGate`, `Gate.RejectsLetter`, `Gate.RejectsShort` and `Gate.RejectsLong` |
| Gate.CodeIn | telegram_bot.py:478-481 | the handler's test: the stripped text when it is 4 to 8 ASCII digits, else nothing; characterised by `Gate.CodeGate` |
| Gate.Present | telegram_bot.py:205-209 | `if self.two_fa_code`: the slot holds a non-empty string; every accepted code is present by `Gate.AcceptedIsPresent` |
| Gate.CodeGate | telegram_bot.py:478-481 | a message is accepted iff its stripped text matches `^[0-9]{4,8}$`; the stored code is that stripped text and passes the test again unchanged |
| Gate.RejectsLetter | telegram_bot.py:478-485 | `"12a34"` is rejected |
| Gate.RejectsShort | telegram_bot.py:478-485 | `"123"` (fewer than 4 digits) is rejected |
| Gate.RejectsLong | telegram_bot.py:478-485 | `"123456789"` (more than 8 digits) is rejected |
| Gate.AcceptsPadded | telegram_bot.py:478-482 | `" 123456\n"` is accepted and stored as `"123456"` |
| Gate.Deliver | telegram_bot.py:474-482 | the slot after the handler has seen a batch of messages while the monitor waits: the last accepted code, else the old slot; stated by `Gate.DeliverLast`, `Gate.DeliverFills`, `Gate.DeliverQuiet` and `Gate.DeliverKeepsValid` |
| Gate.AcceptedIsPresent | telegram_bot.py:205 | a stored code is never empty, so the poll's truth test sees it |
| Gate.DeliverLast | telegram_bot.py:474-482 | after a batch that holds an accepted message, the slot holds the stripped text of one accepted message, and no later message of the batch is accepted: the last accepted code wins |
| Gate.DeliverFills | telegram_bot.py:474-482 | after a batch that holds a valid code from the allowed user, the slot holds a code |
| Gate.DeliverQuiet | telegram_bot.py:474-485 | a batch with no valid code from the allowed user leaves the slot unchanged |
| Gate.DeliverKeepsValid | telegram_bot.py:481-482 | the handler only ever stores codes that pass its test |
| Gate.Poll | telegram_bot.py:204-207 | the wait ends with a code in the slot or after exactly 60 sleeps, and at once if a code is already there |
| Gate.PollQuietSleep | telegram_bot.py:204-207 | a sleep with no valid code changes nothing about how the wait ends |
| Gate.PollArrival | telegram_bot.py:204-207 | a sleep with a valid code ends the wait right after it, holding that code |
| Gate.PollResumes | telegram_bot.py:204-207 | the wait resumes right after the sleep in which the first valid code arrives, holding that batch's code |
| Gate.PollTimesOut | telegram_bot.py:204-211 | with no valid code from the allowed user, the wait runs all 60 sleeps and the slot stays empty |
| Gate.PollKeepsValid | telegram_bot.py:204-207 | the wait ends with an empty slot or a code that passed the handler's test |
| Gate.PollFromInbox | telegram_bot.py:204-207 | a code the wait ends with, starting from a slot without one, is the code of a message from the allowed user that the handler accepted during one of the remaining sleeps |
| Gate.RunCommand | telegram_bot.py:439-447 | a check starts iff the allowed user asks and no monitor is active; the allowed user gets "already running" iff one is active |
| Dashboard.ItemsLeft | telegram_bot.py:263-268 | the items-left count: `int` of the label stripped of parentheses, with `"(0"` for a missing label and 0 when it does not parse; stated by the four `ItemsLeft` lemmas |
| Dashboard.ItemsLeftOfLabel | telegram_bot.py:263-268 | a label of any number of `(`, a decimal `n` and any number of `)` gives `n` |
| Dashboard.ItemsLeftClosed | telegram_bot.py:263-268 | `"(7)"` gives 7 |
| Dashboard.ItemsLeftDefault | telegram_bot.py:264-268 | a missing label, and its default `"(0"`, give 0 |
| Dashboard.ItemsLeftWord | telegram_bot.py:265-268 | a label made of a non-empty word of ASCII letters in parentheses, such as `"(none)"`, gives 0 |
| Dashboard.ItemsLeftUnreadable | telegram_bot.py:265-268 | a label that, without its parentheses and blanks, is not an integer counts 0 items left |
| Dashboard.ParseCard | telegram_bot.py:256-277 | one card read as a record, or skipped; stated by `Dashboard.ParseCardFields` and `Dashboard.ParseCardOf` |
| Dashboard.ParseCardFields | telegram_bot.py:256-277 | a card that raises is skipped; any other card gives a record iff its percentage parses; a missing percentage means 0 and a missing title means `"Unknown"`; the name is the stripped title and has no surrounding whitespace; the completion is `int` of the percentage text; items left come from the label |
| Dashboard.ParseCardPercent | telegram_bot.py:272-277 | a card with a percentage text is kept iff the stripped text is an integer; otherwise `int` raises and only that card is skipped |
| Dashboard.ParseCardNotANumber | telegram_bot.py:272-277 | cards whose percentage reads `"n/a"` or `"50%"` are skipped |
| Dashboard.ParseCardOf | telegram_bot.py:256-274 | round trip: a card with title `a + t + b` (blanks around a name), percentage `str(n)` and a label of any number of `(`, then `str(k)`, then any number of `)` reads back as exactly `{t, n, k}` |
| Dashboard.ParseCards | telegram_bot.py:254-279 | at most one category per card |
| Dashboard.ParseCardsAppend | telegram_bot.py:255-277 | cards are read in document order: the categories of `a + b` are those of `a`, then those of `b` |
| Dashboard.ParseCardsMembers | telegram_bot.py:255-277 | a category is returned iff some card parses to it |
| Dashboard.ParseCardsAllRead | telegram_bot.py:255-279 | when no card is skipped, the i-th category is the i-th card's record |
| Dashboard.Scan | telegram_bot.py:248-283 | what `check_dashboard` returns: the parsed cards, or nothing when the page does not load; its contents are stated by the `ParseCards` lemmas |
| Dashboard.NeedsWork | telegram_bot.py:385 | a category is processed iff its completion is below 100 and items are left; `Dashboard.SelectedMembers` and `Dashboard.SelectedOne` state the selection in its terms |
| Dashboard.Selected | telegram_bot.py:384-386 | no more categories are selected than the dashboard shows |
| Dashboard.SelectedMembers | telegram_bot.py:384-386 | a category is visited iff it is on the dashboard, below 100% and has items left |
| Dashboard.SelectedAppend | telegram_bot.py:384-386 | the selection keeps dashboard order and multiplicity: that of `a + b` is that of `a` followed by that of `b` |
| Dashboard.SelectedOne | telegram_bot.py:385 | a single category is selected iff it is below 100% and has items left |
| Dashboard.SelectedExample | telegram_bot.py:384-386 | of `{100%, 0 left}`, `{50%, 3 left}` and `{0%, 0 left}`, only the middle one is visited |
| Tasks.FirstMatchFrom | telegram_bot.py:299-307 | the search returns the first button whose stripped text is the name; or the first unreadable button, with none matching before it; or no match, when every button was read and none matches |
| Tasks.FirstMatchIgnoresLater | telegram_bot.py:299-305 | buttons after the one the search stops at are never examined |
| Tasks.FirstMatchContinues | telegram_bot.py:299-307 | when no button of `a` matches and all are readable, the search over `a + b` is the search over `b`, shifted |
| Tasks.FirstMatchShift | telegram_bot.py:299-307 | searching `a + b` from inside `b` is searching `b`, shifted by the length of `a` |
| Tasks.Navigate | telegram_bot.py:285-311 | navigation succeeds iff the buttons appear and the search finds a button naming the category before any unreadable one; the task list is opened by the link when present, else by URL; on success exactly the first matching button is clicked |
| Tasks.Effect | telegram_bot.py:330-352 | what one row does to the counters; its cases are stated by `Tasks.EffectCases` |
| Tasks.EffectCases | telegram_bot.py:330-352 | a row is clicked iff it shows an unchecked icon; it is only counted iff it shows just the checked icon; header rows, rows without a checkbox cell and rows that raise do nothing |
| Tasks.CheckedCount | telegram_bot.py:327-345 | `items_checked` after a run of rows; stated by `Tasks.CountsBounded`, `Tasks.CountsAppend`, `Tasks.UntouchedRowNeutral`, `Tasks.CheckedRowCounts` and `Tasks.UncheckedRowCounts` |
| Tasks.TotalCount | telegram_bot.py:328-349 | `items_total` after a run of rows; stated by `Tasks.CountsBounded`, `Tasks.CountsAppend`, `Tasks.UntouchedRowNeutral`, `Tasks.CheckedRowCounts` and `Tasks.UncheckedRowCounts` |
| Tasks.RowClicks | telegram_bot.py:343-344 | the clicks on a run of rows are all row clicks; which rows, and in what order, is stated by `Tasks.RowClicksExactly` |
| Tasks.CountsBounded | telegram_bot.py:327-349 | `items_checked <= items_total <= rows`, with one click per checked item |
| Tasks.RowClicksExactly | telegram_bot.py:343-347 | row `i` is clicked iff it shows an unchecked icon, and the clicks come in increasing row order |
| Tasks.CountsAppend | telegram_bot.py:327-352 | the counters of two runs of rows add up |
| Tasks.UntouchedRowNeutral | telegram_bot.py:331-339 | inserting a header row, a row without checkbox or icons, or a row that raises changes neither counter |
| Tasks.CheckedRowCounts | telegram_bot.py:343-349 | inserting a row that shows only the checked icon adds one to `items_total` and leaves `items_checked` unchanged |
| Tasks.UncheckedRowCounts | telegram_bot.py:343-346 | inserting a row that shows the unchecked icon adds one to both `items_checked` and `items_total` |
| Tasks.Process | telegram_bot.py:313-357 | the walk of one category only opens the task list, clicks buttons and rows, and sends its own notices |
| Tasks.ProcessOutcome | telegram_bot.py:316-354 | rows are clicked only after a successful navigation with the table shown; the final notice reports the navigation failure, the table error, or both counters of exactly those rows |
| Tasks.ProcessClicks | telegram_bot.py:316-349 | the row clicks of a category's walk, in order, are exactly `RowClicks` of its rows once the button was clicked and the table appeared, and there are none otherwise |
| Auth.Contains | telegram_bot.py:150 | the substring test `'plan-dashboard' in self.page.url` behind the shortcut of `Auth.LoginShortcut`; stated by `Auth.ContainsInfix` and `Auth.ContainsAt` |
| Auth.ContainsInfix | telegram_bot.py:150 | a text holding the marker at any position, not only at its start, contains it |
| Auth.ContainsAt | telegram_bot.py:150 | a text that contains the marker holds it as a slice at some position |
| Auth.Failure | telegram_bot.py:236-242 | the notice a failed step sends: the timeout notice for a Playwright timeout, the login-error notice for any other exception |
| Auth.Login | telegram_bot.py:141-242 | the flow returns true iff the first page is already the dashboard or every step passes (a missing company button is no error, a missing email or password input fails); it sleeps at most 60 times, and only when the verification input appeared |
| Auth.Company | telegram_bot.py:155-165 | from the company step on, the flow succeeds iff the company wait did not raise, both inputs appear, and the second factor and dashboard pass; it sleeps at most 60 times, only with the code input shown |
| Auth.Credentials | telegram_bot.py:167-176 | from the email step on, the flow succeeds iff both inputs appear and the later steps pass |
| Auth.Password | telegram_bot.py:178-187 | from the password step on, the flow succeeds iff the password input appears and the later steps pass |
| Auth.SecondFactor | telegram_bot.py:189-227 | a missing code input is skipped, an error fails; with the input, the flow succeeds iff the wait yields a code and the dashboard appears |
| Auth.Arrival | telegram_bot.py:229-234 | the flow ends well iff the dashboard URL is reached; the flag and the slot are left as they were |
| Auth.LoginTraced | telegram_bot.py:141-242 | the flow does nothing but login steps; it saves the session iff it succeeds through the dashboard wait holding a context; the only code typed is the one the wait produced, after which the flag and the slot are cleared |
| Auth.LoginShortcut | telegram_bot.py:149-152 | landing on the dashboard succeeds at once, without filling, waiting or saving |
| Auth.AlreadyInMarker | telegram_bot.py:149-150 | the shortcut is taken iff the first page loaded and its URL holds `plan-dashboard` at some position |
| Auth.LoginCodeTimeout | telegram_bot.py:204-211 | with no valid code during the 60 sleeps, the flow fails with the timeout notice after all 60 sleeps, still waiting |
| Auth.LoginTypesValidCode | telegram_bot.py:213-215 | starting from an empty or valid slot, the only codes ever typed are 4 to 8 digits |
| Auth.LoginTypesSentCode | telegram_bot.py:204-215 | starting from an empty slot, every code typed into the 2FA field is the stripped text of an accepted message the allowed user sent during one of the 60 sleeps |
| Run.Opened | telegram_bot.py:111-133 | start-up sets the resources in order, each only after the one before; the page is set iff all four steps complete |
| Run.CleanupPlan | telegram_bot.py:400-411 | the steps of `cleanup` when none raises: at most five; which ones and in what order is stated by `Run.CleanupPlanSteps` and `Run.CleanupPlanOrdered` |
| Run.CleanupPlanSteps | telegram_bot.py:400-411 | cleanup saves the session iff a context is set, and releases each resource iff it is set; it does nothing else |
| Run.CleanupPlanOrdered | telegram_bot.py:402-411 | cleanup runs in the order save, page, context, browser, playwright |
| Run.UptoPrefix | telegram_bot.py:402-413 | when a cleanup step raises, what happened is exactly the steps before it |
| Run.UptoStepsFrom | telegram_bot.py:402-413 | step by step: a resource that is not set is passed over; a set one raises when no completion is left, and is taken otherwise |
| Run.Walk | telegram_bot.py:383-388 | the category walk only does what the walks of single categories do |
| Run.WalkVisitsSelected | telegram_bot.py:383-388 | the walk processes exactly the selected categories, in dashboard order, each with its own task page |
| Run.DashboardNotices | telegram_bot.py:246-283 | what `check_dashboard` sends: the opening notice, then the error notice iff the page did not load; the `ensures` of `Bot.ProductionMonitor.CheckDashboard` ties the method to it |
| Run.RunBody | telegram_bot.py:359-398 | `run_full_check` up to `cleanup`; stated by `Run.RunExits`, `Run.RunFinalMessage` and the other `Run` lemmas |
| Run.AfterStart | telegram_bot.py:364-367 | the run after start-up: the login, then the abort notice or the rest |
| Run.AfterLogin | telegram_bot.py:369-393 | the run after the login: the dashboard, the summary, the walk and the closing notice |
| Run.RunTrace | telegram_bot.py:359-413 | the whole run: its body, then the part of the cleanup plan that completes; stated by `Run.RunEndsWithCleanup` |
| Run.RunExits | telegram_bot.py:359-398 | the run ends after a failed start-up, a failed login, no categories, or the walk, decided in that order; the walk counts the selected categories |
| Run.FinalNotice | telegram_bot.py:389-392 | the closing notice: "all complete" when no category was processed, otherwise the count; stated by `Run.RunFinalMessage` |
| Run.RunFinalMessage | telegram_bot.py:389-392 | after a walk, the last notice says "all complete" iff no category was processed, and otherwise gives the count |
| Run.RunReleasesOnlyInCleanup | telegram_bot.py:359-398 | nothing before cleanup releases a resource, on any path |
| Run.RunLoginFailureSkipsDashboard | telegram_bot.py:362-367 | a failed start-up or login stops before the dashboard is read |
| Run.RunNoWalkWithoutCategories | telegram_bot.py:369-374 | no category page is visited unless the dashboard gave categories |
| Run.RunEndsWithCleanup | telegram_bot.py:394-413 | the run ends with the part of the cleanup plan that completes before a step raises (all of it when none does), and no release comes earlier |
| Bot.ProductionMonitor.constructor | telegram_bot.py:85-93 | a new monitor is not waiting, holds no code, no resources, and has done nothing |
| Bot.ProductionMonitor.Send | telegram_bot.py:99-109 | a notice is appended to what the monitor did |
| Bot.ProductionMonitor.Initialize | telegram_bot.py:111-133 | start-up announces itself and sets the resources up to the first step that raises; it succeeds iff all four steps complete |
| Bot.ProductionMonitor.SaveSession | telegram_bot.py:135-139 | the session is saved iff a context is set |
| Bot.ProductionMonitor.AwaitCode | telegram_bot.py:204-207 | the poll loop, with the handler run on each sleep's messages, ends with the slot and sleep count that `Gate.Poll` gives |
| Bot.ProductionMonitor.ReceiveCode | telegram_bot.py:477-485 | from the allowed user while waiting, a valid code fills the slot and is confirmed, and anything else gets the "just the code" reply; otherwise the slot is untouched |
| Bot.ProductionMonitor.HandleLogin | telegram_bot.py:141-242 | the return value, trace, flag and slot are those `Auth.Login` gives |
| Bot.ProductionMonitor.ChooseCompany | telegram_bot.py:155-165 | return value, trace, flag and slot as `Auth.Company` gives |
| Bot.ProductionMonitor.SelectCompany | telegram_bot.py:155-168 | the company button is clicked iff it is shown, then the email notice follows |
| Bot.ProductionMonitor.EnterEmail | telegram_bot.py:167-176 | return value, trace, flag and slot as `Auth.Credentials` gives |
| Bot.ProductionMonitor.EnterPassword | telegram_bot.py:178-187 | return value, trace, flag and slot as `Auth.Password` gives |
| Bot.ProductionMonitor.Fill | telegram_bot.py:169-176 | an input is filled, then submitted iff a submit button exists, then the next notice follows |
| Bot.ProductionMonitor.EnterCode | telegram_bot.py:189-227 | return value, trace, flag and slot as `Auth.SecondFactor` gives |
| Bot.ProductionMonitor.UseCode | telegram_bot.py:193-223 | with the code input shown: ask, set the flag, poll; then time out, or type the code and clear the flag and slot, as `Auth.SecondFactor` gives |
| Bot.ProductionMonitor.TypeCode | telegram_bot.py:213-220 | the code is typed and submitted iff a submit button exists |
| Bot.ProductionMonitor.AwaitDashboard | telegram_bot.py:229-234 | return value and trace as `Auth.Arrival` gives |
| Bot.ProductionMonitor.CheckDashboard | telegram_bot.py:244-283 | returns the categories `Dashboard.Scan` gives, and sends the opening notice plus an error notice iff the page did not load |
| Bot.ProductionMonitor.NavigateToProductionTasks | telegram_bot.py:285-311 | return value and trace as `Tasks.Navigate` gives |
| Bot.ProductionMonitor.ProcessProductionPage | telegram_bot.py:313-357 | the row loop leaves the trace `Tasks.Process` gives: its clicks and both counters |
| Bot.ProductionMonitor.WalkCategories | telegram_bot.py:382-388 | counts exactly the selected categories and leaves the trace `Run.Walk` gives |
| Bot.ProductionMonitor.Cleanup | telegram_bot.py:400-413 | appends the part of the cleanup plan, for the resources held, that completes before a step raises |
| Bot.ProductionMonitor.SaveStep | telegram_bot.py:402-403 | the session-save step of cleanup moves it one position on toward its goal |
| Bot.ProductionMonitor.Release | telegram_bot.py:404-411 | the four releases move cleanup to its end |
| Bot.ProductionMonitor.CleanupStep | telegram_bot.py:404-413 | one release moves cleanup one position on: passed over when its resource is not set, stopped when it raises |
| Bot.ProductionMonitor.RunFullCheck | telegram_bot.py:359-398 | on a new monitor, the exit and the whole trace, cleanup included, are those `Run.RunBody` and `Run.RunTrace` give; the resources start-up set stay set, and the flag and the slot are as the login left them (still waiting after a code timeout) |
| Bot.ProductionMonitor.RunAfterStart | telegram_bot.py:364-367 | exit and trace after start-up as `Run.AfterStart` gives; the flag and the slot are those the login leaves |
| Bot.ProductionMonitor.RunAfterLogin | telegram_bot.py:369-393 | exit and trace after the login as `Run.AfterLogin` gives |
| Bot.HandleMessage | telegram_bot.py:470-485 | a message is ignored iff it is not from the allowed user, or no monitor is active, or the monitor is not waiting; otherwise the reply is a confirmation iff the code test passes, and only then is the slot filled; nothing else about the monitor changes |

## Left out

- The browser and Telegram are not modelled. Every Playwright call becomes an observation (`Types.dfy`), and every message sent becomes a notice in the trace. A failed Telegram send, which the source only logs, still appears as a notice. Logging is not modelled.
- Sleeps and timeouts are not modelled as time. Each wait's outcome is an observation, and the 2FA wait counts sleeps.
- Chat messages count only when they arrive during one of the poll's sleeps (`inbox`). A message handled between two checks of the slot in the same iteration is not distinguished from one handled during the next sleep.
- The `active_monitor` lifecycle (lines 449-457) is not modelled. `run_command` creates the monitor, starts `run_full_check` as a background task, and clears `active_monitor` two seconds later. A code sent after those two seconds therefore reaches no monitor. The model gives the handler the running monitor directly (`Bot.HandleMessage`'s `active` parameter). It does not model the two-second window or the task scheduling.
- The `/start` and `/status` commands, `set_telegram_app` and the application wiring in `main` are left out. They only reply or register handlers.
- The saved-session file, the settings read from the environment, and the login credentials are left out. Whether a saved session exists changes only which context options are used.
- Text handling covers ASCII only. `strip()` and `int()` remove ASCII whitespace, including the separators 0x1C to 0x1F, but not non-ASCII whitespace such as U+0085 or U+00A0. `isdigit()` and `int()` accept ASCII digits only, with no digit-group underscores and no other Unicode digits.
- Only some failures inside steps are modelled:
  - a failed wait or navigation;
  - an unreadable button;
  - a card or row whose reading raises.

  Not modelled:
  - fills and clicks on the login pages that raise;
  - a click on a matched category button that raises;
  - a `save_session` that raises inside `handle_login` (it would turn a successful login into a login error);
  - a timeout raised while typing the code, which the handler on line 225 would treat as "no second factor".
- The catch-all on lines 396-398 is modelled only for start-up failures. `handle_login`, `check_dashboard`, `process_production_page`, `send_telegram` and `cleanup` catch their own errors, so `initialize` is the only modelled step that can reach it. Cleanup therefore runs exactly once, at the end of every run.
- The texts of exception messages in notices are not modelled. A notice records only which error it reports.
- `Run.PageFor`: a category visited beyond the observed task pages is given a page where the buttons never appear, which makes its navigation fail.
