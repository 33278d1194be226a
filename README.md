# kworkbot request poller: a Dafny model

kworkbot is a small bot. It polls a site's API for new requests ("заявки"). It forwards each request it has not seen before to a Telegram chat. It records the requests it has handled in a SQLite table `requests`, whose PRIMARY KEY is the request's `id`. This project models the core of `bot.py` and proves properties of it. The core has four parts:

- the `requests` table, used as a de-duplication ledger (`init_db`, `is_request_sent`, `save_request_to_db`);
- the fetch (`get_new_requests`), which turns a client error into an empty batch;
- the notification text built by `send_request_to_telegram`;
- the body of `main`'s polling loop.

Modules, one per component:

- `Requests` (requests.dfy): records, table rows, the exceptions the code raises, and reading the four display fields in the order the code reads them.
- `Message` (message.dfy): the exact notification text. It also has a splitter into lines and a parser that reads the text back. The round trip is proved for fields that hold no line break.
- `Storage` (storage.dfy): `Insert`, the effect of one INSERT on the rows. It also has the class `Ledger`, which holds whether the table exists and its rows as a `map<int, Row>`.
- `Fetch` (fetch.dfy): the GET's outcome as an input, and `get_new_requests`.
- `Poll` (poll.dfy): `Process`, the specification of one pass over a batch, and the lemmas about it. It also holds `ProcessBatch`, the loop of `main` as a method proved equal to `Process`, plus `PollOnce` and `RunPoller`.

The notifier (`bot.send_message`) is an input `delivers: nat -> bool`: the answer to the n-th call in a pass.

## Behaviour of the code, as modelled

Points where the code's behaviour is easy to misread:

- `send_request_to_telegram` swallows every exception. That includes the KeyError from formatting and a notifier failure. So `main` inserts the request whether or not it was delivered. A failed notification is never retried: delivery is at most once, not at least once (`UndeliveredIsNotRetried`, `RunAtMostOnce`).
- The code handles one request at a time, and each insert is committed before the next `is_request_sent`. So an id that appears twice in one batch is attempted once and then skipped. It does not reach the PRIMARY KEY. A pass never ends on a duplicate key (`AbortIsBadRecord`).
- A request without `id` raises at bot.py:95 and ends the pass. So does a request missing a display field whose id is not yet stored: the KeyError while building the INSERT's parameters (bot.py:73) ends the pass, right after the swallowed formatting failure. A request whose id is already stored is skipped at bot.py:95 before any display field is read, like any other stored request. The exception leaves `main`, and the polling task is over (`RunPoller` stops). Earlier requests keep their effects (`AbortKeepsPrefix`).
- SQLite binds a Python int as a signed 64-bit INTEGER. An id outside that range raises OverflowError when `is_request_sent` binds it (bot.py:79, called at bot.py:95), and that exception also ends `main` (`IdOverflow`).
- `save_request_to_db` builds its parameter tuple before the statement is prepared (bot.py:70-73). A record missing a key therefore raises the KeyError even when the table does not exist.
- `raise_for_status` raises for statuses of 400 and above, not for every status outside 2xx.
- `test_bot.py:115-116` expects `send_request_to_telegram` to raise a KeyError for a request without `name`. The code catches it, and the model follows the code (`SendRequest` never fails).

## Model

| member | source | states |
|---|---|---|
| Requests.ReadRow | bot.py:55-61 | The four display fields are read in the order name, contact, text, datetime. The read succeeds exactly when all four are present, and then yields their values. Otherwise the error names the first absent key, which is the key of the KeyError. |
| Message.FormatMessage | bot.py:55-61 | The text is built exactly when the four display fields are present. Otherwise it is the KeyError of the first absent one. The text is the header line, then "Имя: ", "Контактные данные: ", "Текст заявки: " and "Дата и время: ", each followed by the record's field, joined by line breaks. It starts with the header line "Новая заявка:" and ends with "Дата и время: " followed by the datetime, with no trailing newline. When the values hold no line break, parsing the text gives the record's row back. |
| Message.RenderLines | bot.py:55-61 | When no field holds a line break, the text is exactly five lines: the header, then "Имя: ", "Контактные данные: ", "Текст заявки: " and "Дата и время: " each followed by its field. |
| Message.RenderAffixes | bot.py:56-60 | The text begins with the header and a line break, and ends with the datetime line. |
| Message.ParseRender | bot.py:55-61 | When no field holds a line break, reading the rendered text back yields the same name, contact, text and datetime (the inverse of the formatter). |
| Message.FormatReadsOnlyRowKeys | bot.py:55-61 | Two records that agree on name, contact, text and datetime get the same text. No other field, `id` included, reaches the message. |
| Storage.Insert | bot.py:67-74 | The insert succeeds exactly when the record has an id within the signed 64-bit range, has all display fields and its id is not yet stored. It then adds exactly one row under that id, holding the record's fields, and leaves every other row as it was. A missing id or field fails with a KeyError for the first missing key, in the order id, name, contact, text, datetime. An id outside the 64-bit range then fails with OverflowError. A stored id fails on the PRIMARY KEY. |
| Storage.Ledger.constructor | bot.py:29 | Opening the database finds the table either absent, with no rows, or present with its rows. |
| Storage.Ledger.InitDb | bot.py:27-39 | After the call the table exists and its rows are those it had before. So calling it again changes nothing. |
| Storage.Ledger.IsRequestSent | bot.py:76-81 | Without the table it fails with "no such table". Otherwise an id outside the 64-bit range fails with OverflowError. Otherwise it gives true exactly when a row with that id exists. |
| Storage.Ledger.SaveRequest | bot.py:67-74 | A missing id or display field gives its KeyError whether or not the table exists. A complete record without the table gives "no such table". With the table, success makes the rows `Insert`'s result, and any error (overflow, duplicate id) is `Insert`'s. On every error the rows are unchanged. |
| Fetch.GetNewRequests | bot.py:41-50 | A client error or a status of 400 or above yields the empty batch. Otherwise the decoded list is passed on unchanged, malformed records included. |
| Poll.SendRequest | bot.py:52-65 | Never fails. It hands the notifier a text exactly when the display fields are present, and that text is `FormatMessage`'s. Otherwise it records the swallowed KeyError of the first absent field. |
| Poll.ProcessGrows | bot.py:94-97 | During a pass the ledger only grows. Every earlier row stays unchanged, and every new row has the id of a record in the batch. |
| Poll.AttemptsAreNew | bot.py:94-97 | An attempt is made only for an id not stored when the pass began, and never twice for one id in a pass. |
| Poll.SentIsStored | bot.py:94-97 | Every text handed to the notifier, delivered or not, has its id stored, and the stored row renders to that text. An unformattable record is the last attempt, and the pass ends with that same KeyError. |
| Poll.SentIsFromBatch | bot.py:94-97 | Every text handed to the notifier was made from the first request in the batch with that id. The ledger stores the row read from that same request under the id. |
| Poll.AbortIsBadRecord | bot.py:94-97 | A pass ends early only on a KeyError or an id outside the 64-bit range, never on the PRIMARY KEY or a missing table. It ends at an index inside the batch. A completed pass met an in-range id in every record. |
| Poll.AbortKeepsPrefix | bot.py:94-97 | When a pass stops at record j, records 0..j-1 processed alone complete with the same final ledger. Their attempts begin the pass's attempts, followed by at most one more. |
| Poll.WellFormedBatch | bot.py:94-97 | For a batch of complete records the pass completes, every attempt reaches the notifier, and the ledger becomes the old ids plus every batch id. |
| Poll.WellFormedBatchOrder | bot.py:94-97 | For a batch of complete records the notifier is called once for each id not stored before, in batch order, first occurrence only. |
| Poll.RerunIsQuiet | bot.py:92-97 | A second pass over the same batch leaves the ledger as the first left it, ends the same way and makes no notifier call. After a completed first pass it makes no attempt at all. |
| Poll.UndeliveredIsNotRetried | bot.py:95-97 | A request whose notification failed is stored anyway, and the next pass over the same batch does not send it again. |
| Poll.ProcessBatch | bot.py:94-97 | The loop over the batch: the ledger, the attempts and the outcome it produces are exactly those of the pass specification `RunCycle` on the old ledger. |
| Poll.PollOnce | bot.py:93-97 | One iteration (fetch, then the loop) equals the pass over `GetNewRequests`' batch. After a failed fetch it makes no attempt, completes, and leaves the ledger unchanged. |
| Poll.RunAtMostOnce | bot.py:88-99 | Over any run of `main`'s loop: at most one iteration per round, every round used unless one ends in an exception, rows stored before never changed or removed. No id reaches the notifier twice, none stored before the run reaches it, and each one that reached it is stored at the end. |
| Poll.RunPoller | bot.py:88-99 | `main` over a finite sequence of rounds creates the table first. The rows, the log of attempts, the number of iterations and how the last ended are exactly those of `RunRounds`, which stops after the first round that raises. It also states the guarantees of `RunAtMostOnce` for the ledger and the log. |

## Left out

- Loading the environment and `exit(1)` when a variable is missing (bot.py:14-21): process-level configuration.
- The aiogram `Bot` and `Dispatcher` setup and the `/start` reply (bot.py:24-25, bot.py:83-86, bot.py:101-103): a foreign chat library and a stateless reply. `bot.send_message` is the input `delivers`.
- The aiohttp session, the HTTP GET and JSON decoding (bot.py:43-47): the GET's outcome is the input `Response`. A ContentTypeError from `.json()` is a ClientError and counts as `ClientFailure`. A JSON decoding error and a timeout are not ClientErrors: they escape `get_new_requests` and are not modelled. Neither is a JSON body that is not a list of objects.
- Only string field values are modelled. A JSON number, array or object value would print in the message, but binding an array or object in the INSERT (bot.py:70-73) raises sqlite3's unsupported-type error and ends the pass; the model would store the printed text and go on. Converting non-string values with `str()` is not modelled.
- Ids are modelled as integers or absent. A JSON `null` id, which SQLite would replace with a fresh rowid, and non-integer ids are not modelled.
- SQLite connections, SQL text and commits (bot.py:29-39, bot.py:69-81) are replaced by a map keyed by id with the same PRIMARY KEY behaviour. Database I/O errors are not modelled.
- `asyncio.sleep(5)`, the endless `while True` and the event loop running the poller beside the dispatcher (bot.py:92, bot.py:99, bot.py:105-109): scheduling and concurrency. `RunPoller` runs a finite sequence of iterations.
- Logging calls: they do not affect state.
