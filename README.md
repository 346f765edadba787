# Session-pack ledger of a studio's Telegram bot, in Dafny

A studio sells packs of sessions and tracks them through a Telegram bot. The
bot's state is a JSON file that maps each client name to a record. The record
holds the sessions left, the last payment, the last attendance (absent until
the first one), a phone number and notes. Every ledger operation loads the
whole file. Adding sessions always writes the whole ledger back. Marking
attendance writes it only when a session was taken, and deleting a client
only when the name was present. Looking up a balance or a record never
writes.

This project models:

- the ledger operations: add sessions, mark attendance, look up a balance or a
  record, delete a client;
- the upgrade of legacy records, which are a bare session count, that every
  load applies;
- the notification policy: the daily reminder list and the monthly report's
  figures;
- the once-a-day, 10:00 decision of the scheduler loop;
- the two text dialogs, "new client name" and "sessions to add";
- the callback data carried by the buttons and the way the handler routes it.

The model has these modules:

- `Dicts`: a Python `dict` as an insertion-ordered map. It is a key sequence
  without duplicates plus a map over exactly those keys. Order matters because
  the reminder and the report list names in ledger order.
- `Records`: the client record, and the data file as a `Document`. The file is
  missing, not JSON, or a JSON object whose values are legacy counts or full
  records. It also holds the legacy upgrade and what loading and saving do.
- `Packs`: the pure ledger operations. `LedgerStore` is a class whose `doc`
  field is the data file, and its methods are the source's ledger functions.
  Each method is proved against a function of the old document.
- `Notifications`: the threshold, zero and new-client filters, the total of
  the balances, and the two notification routines.
- `Scheduling`: the calendar rule, one wake of the loop as a `Scheduler`
  class, and runs of wakes.
- `PyText`: the two Python built-ins the dialog relies on, `str.strip()` and
  `int(str)`.
- `Callbacks`: the per-client button data and the handler's if/elif routing.
- `Dialog`: the per-user scratch data as a class, and the text and button
  handlers.

Each wall-clock read becomes a `Timestamp` parameter, an integer number of
seconds, given once per operation. The scheduler instead reads a
`DateTime(year, month, day, hour, minute)`. Two things become boolean inputs:
whether an administrator chat is configured, and whether the messaging gateway
accepted a message.

Two choices follow the code exactly:

- The dialog scratch data is three independent keys, not a
  three-state machine. Pressing "add client" while a count is awaited leaves
  both flags set, and the name is then taken first. `Dialog.UserData` keeps
  the three keys.
- Marking attendance has a single failure result for an unknown client
  and for an exhausted pack. `Packs.LedgerStore.MarkAttendance` returns `None`
  in both cases.

## Model

| member | source | states |
|---|---|---|
| Records.Upgrade | main.py:67-76 | a dict record passes through unchanged; a bare count `n` becomes a record with `n` sessions, paid at the load time, no attendance, empty phone and notes |
| Records.UpgradeAll | main.py:64-77 | the converted ledger has exactly the document's keys, in the same order, each upgraded on its own |
| Records.ConvertToNewFormat | main.py:64-77 | the key-by-key loop builds exactly the upgraded ledger |
| Records.ConvertIdempotent | main.py:64-77 | converting an already converted ledger again, at any time, changes nothing |
| Records.Persist | main.py:79-82 | the saved document has the ledger's keys in order and a full record under each |
| Records.Saved | main.py:79-82 | saving always produces a well-formed JSON document |
| Records.Loaded | main.py:53-62 | a missing or non-JSON file loads as the empty ledger; a JSON file loads with its own keys |
| Records.LoadAfterSave | main.py:53-82 | loading what was saved gives back exactly the saved ledger |
| Records.LoadSaveLoad | main.py:53-82 | load, save, load gives the ledger of the first load: the legacy upgrade happens once |
| Dicts.Put | main.py:96-101 | assigning a key sets its value, keeps every other key's value, and appends a new key at the end of the order |
| Dicts.Remove | main.py:129 | deleting a key removes it and only it, keeping the other keys' values; the key sequence is the old one with that key dropped |
| Dicts.RemoveKeepsOrder | main.py:129 | after a deletion the remaining keys are iterated in their old relative order |
| Dicts.WithoutKeepsOrder | main.py:129 | dropping a key from the key sequence keeps the relative order of the others |
| Packs.AddSessions | main.py:84-101 | for an existing client: sessions become old + count, payment date becomes now, phone and notes are replaced only by non-empty values, attendance is kept; for a new name: a record with the count and given phone and notes, appended; every other client unchanged |
| Packs.Attend | main.py:103-112 | succeeds iff the client exists with a positive balance; then the balance drops by exactly one, attendance is set to now, the other fields and every other client are unchanged |
| Packs.LedgerStore.LoadData | main.py:53-62 | returns the ledger the current file loads as |
| Packs.LedgerStore.SaveData | main.py:79-82 | the file becomes the saved form of the ledger |
| Packs.LedgerStore.AddSessionsToClient | main.py:84-101 | the file becomes the saved result of adding to the loaded ledger; non-negative balances stay non-negative for a non-negative count |
| Packs.LedgerStore.MarkAttendance | main.py:103-112 | returns the new balance iff the client exists with a positive balance; on refusal the file is untouched; balances stay non-negative |
| Packs.LedgerStore.GetRemainingSessions | main.py:114-119 | returns the loaded balance iff the client exists |
| Packs.LedgerStore.GetClientInfo | main.py:121-124 | returns the loaded record iff the client exists |
| Packs.LedgerStore.DeleteClient | main.py:126-133 | returns true iff the name was present; then the name is gone and every other client is unchanged; on false the file is untouched |
| Packs.Apply | main.py:84-133 | one ledger operation keeps the ledger well formed |
| Packs.Run | main.py:84-133 | any sequence of operations keeps the ledger well formed |
| Packs.ApplyKeepsNonNegative | main.py:103-112 | one addition of a non-negative count, attendance or deletion keeps all balances non-negative |
| Packs.RunKeepsNonNegative | main.py:84-133 | no sequence of such operations drives a balance below zero |
| Packs.RegisterNewClient | main.py:541 | registering a new name creates a zero balance paid now, with no attendance, phone or notes |
| Packs.ThreeSessionPack | main.py:103-112 | three sessions bought, three attended: the balance is 0 and a fourth attendance is refused |
| Packs.LoadedNonNegative | main.py:53-62 | a file without negative counts loads as a ledger without negative balances |
| Packs.SavedNonNegative | main.py:79-82 | a ledger without negative balances is saved as a file without negative counts |
| Notifications.Select | main.py:149-153 | the selected names are exactly the ledger names whose record passes the filter, without duplicates |
| Notifications.SelectKeepsOrder | main.py:149-153 | the selected names appear in the ledger's own order |
| Notifications.ClientsWhere | main.py:149-153 | the collecting loop produces exactly the selection |
| Notifications.ThresholdClients | main.py:149-153 | a name is listed iff its client has exactly the reminder threshold (1) of sessions left |
| Notifications.ZeroClients | main.py:190-194 | a name is listed iff its client has no sessions left |
| Notifications.NewClients | main.py:196-201 | a name is listed iff its client's last payment is no earlier than thirty days ago |
| Notifications.ReRegisteredIsNew | main.py:84-101 | registering a name already in the ledger keeps its balance but dates its payment to now, so it is listed as a new client again |
| Notifications.TotalCoversThreshold | main.py:182-188 | with non-negative balances, the total is at least the number of clients at the threshold |
| Notifications.TotalAfterAdd | main.py:84-101 | adding `count` sessions raises the total by exactly `count` |
| Notifications.TotalAfterAttend | main.py:103-112 | a marked attendance lowers the total by exactly one |
| Notifications.TotalAfterDelete | main.py:126-133 | deleting a client lowers the total by exactly that client's balance |
| Notifications.AttendanceWarningMatchesReminder | main.py:467-468 | the "one session left" warning after an attendance appears iff that client is on the next reminder list |
| Notifications.SendReminders | main.py:144-173 | a message goes out iff an administrator is configured and some client is at the threshold; it lists exactly those clients; the returned count is theirs only when delivered, else 0 |
| Notifications.SendMonthlyReport | main.py:175-233 | no report without an administrator; otherwise the client count, total sessions, and the threshold, zero and new-client lists |
| Notifications.KeyCount | main.py:181 | `len(data)` is the number of clients |
| Notifications.ThresholdExample | main.py:149-153 | balances A: 1, B: 1, C: 2 give the reminder list [A, B] |
| Scheduling.ReportDaysOfMonth | main.py:235-248 | in any month of a real calendar the rule fires on exactly one day: February 28 (never the 29th), the 30th otherwise (never the 31st) |
| Scheduling.ReportDayExamples | main.py:235-248 | April 30 and February 28 are report days; April 29, May 1 and February 27 are not |
| Scheduling.Decide | main.py:250-275 | a wake sends iff it is 10:00 and nothing was sent that date; it sends the report too iff it is a report day |
| Scheduling.Scheduler.Wake | main.py:250-278 | one wake acts as decided and records its time whenever the wake was due, whether or not anything was delivered; the report carries the loaded ledger's client count, total, threshold, zero and new-client lists, and goes out only with an administrator; the reminder lists the threshold clients |
| Scheduling.AtMostOncePerDate | main.py:250-278 | over wakes whose clock does not go back, the dates sent on strictly increase and all follow the last recorded send |
| Scheduling.OncePerDate | main.py:250-278 | no two sends share a calendar date |
| Scheduling.MissedMinuteSkipsDay | main.py:250-278 | wakes at 9:59 and 10:01 of a day send nothing that day |
| PyText.Strip | main.py:533 | the result is the input with whitespace cut from both ends; it is empty iff the input is all whitespace, and otherwise neither starts nor ends with whitespace |
| PyText.ParseInt | main.py:552 | accepts exactly an optional sign followed by one or more digits; the sign decides the result's sign |
| PyText.ParseShow | main.py:552 | every integer written in decimal is read back as itself |
| Callbacks.CallbackData | main.py:300 | a button's data is its prefix followed by the client's name |
| Callbacks.RouteOfCallbackData | main.py:417-527 | every client button's data reaches that button's branch, with exactly the client's name recovered by the slice |
| Dialog.UserData.constructor | main.py:536 | a new user waits for nothing |
| Dialog.HandleTextMessage | main.py:531-578 | the message is stripped and then handled as below |
| Dialog.HandleText | main.py:536-578 | a pending name is taken first, then a pending count, else the user is told to use the buttons. An empty name, a non-integer, a count of zero or less, or no chosen client are refused. The file becomes the saved addition exactly when a name or count is accepted; the flags are cleared only then |
| Dialog.AddCounted | main.py:558-570 | the count is added and the new balance read back equals the old one plus the count |
| Dialog.RefusedTextChangesNothing | main.py:536-578 | every refused or unanswered message leaves both the file and the scratch data as they were |
| Dialog.ScratchChangesOnSuccess | main.py:536-563 | the scratch data changes iff a name was registered or a count was added |
| Dialog.TextAddsToTotal | main.py:536-560 | an accepted count raises the studio's total by exactly that count; a registered name leaves the total unchanged |
| Dialog.TextKeepsNonNegative | main.py:536-560 | no text message drives a balance below zero |
| Dialog.TypedCountAccepted | main.py:552-570 | typing back any positive number as the bot prints numbers adds exactly that many sessions to the chosen client |
| Dialog.HandleCallback | main.py:343-527 | only attendance and confirmed deletion change the file; "add client" and "add sessions" set the scratch data; the list, statistics, test-reminder, attendance and deletion screens show the loaded ledger's figures |
| Dialog.HandleClientButton | main.py:417-527 | each client button does its own branch: balance, record, attendance, count dialog, confirmation prompt or deletion, for that client only |
| Dialog.ButtonActsOnItsClient | main.py:417-527 | a client's button writes the file only for attendance and confirmed deletion, and then for that client's name |
| Dialog.AttendButtonShowsNewBalance | main.py:458-476 | the attendance button shows a balance iff the client had a session left, and it is one less and not negative |
| Dialog.CallbackKeepsNonNegative | main.py:458-527 | no button press drives a balance below zero |
| Packs.AddKeepsNonNegative | main.py:84-101 | adding a non-negative count to a file without negative counts leaves none |

## Left out

- The Flask keep-alive server and its thread: a liveness shim that holds no ledger logic.
- Reading the `.env` file and exiting when the token is missing: process configuration.
- Creating an empty data file at start-up (`ensure_data_file`): a missing file already loads as the empty ledger.
- JSON text is not modelled, so four cases fall outside the model:
  - duplicate keys;
  - a top level that is not an object;
  - values that are neither integers nor objects;
  - objects missing fields, which raise `KeyError` in Python.

  The document is a well-formed JSON object, or `Malformed` for a decode error.
- The clock is not modelled as such:
  - Python reads the clock several times within one operation, and the model uses one reading per call.
  - Times are whole seconds, and ISO-8601 formatting and parsing are not modelled.
- Message text, keyboards, `strftime` formatting and the statistics screen's truncation to five names: presentation only. `Dialog.HandleCallback` returns the figures behind each screen, not its text.
- The order of the client list keyboard, which sorts the names: `Dialog.HandleCallback` reports only whether the list is empty.
- The `asyncio` loop, `sleep(60)` and task creation: the model covers one wake and finite runs of wakes, not a long-running concurrent loop. It does not model the drift that lets a wake miss 10:00; `Scheduling.MissedMinuteSkipsDay` shows what a missed minute costs.
- Sending through the Telegram API: it is an input, `delivered`, not a call.
- Logging and `print`.
- Concurrency between handlers and the scheduler: each operation runs alone from load to save.
- PyText.ParseInt: does not accept the underscores (`1_000`), the non-ASCII digits or the surrounding whitespace that Python's `int` also accepts. The text reaching it is already stripped.
- A data file that is not valid UTF-8: `json.load` then raises `UnicodeDecodeError`, which `load_data` does not catch, so the operation fails and nothing is written. `Records.Document.Malformed` stands only for a JSON decode error, which loads as the empty ledger; the undecodable file is not modelled.
- Telegram's 64-byte limit on callback data: it is enforced by the messaging service, outside the bot.
