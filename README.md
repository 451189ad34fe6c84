# IPO alerter: change detection and persistence, modelled in Dafny

`ipo_alert.py` polls the nepsealpha IPO calendar, keeps the IPOs it has seen in
an SQLite table, and sends a Telegram message for each IPO it has not seen
before. This project models the logic around the network, database and HTML
calls:

- **Record normaliser** (`IPOEntry.from_api_data`, module `Entry`). It maps one
  payload object to an `IpoEntry`. Keys are read in the source's order, and the
  first missing key raises `KeyError`. BeautifulSoup's `get_text()` and
  `find("a")` are kept as function values (`HtmlParser`) that nothing is
  assumed about. Python's `str.strip()` and `str()` of a price are written
  out (module `PyStr`).
- **Store** (`get_known_ipo_ids` / `save_ipo_entries`, module `Store`). The
  table is a `map<int, Row>` held by the class `IpoStore`. `INSERT OR IGNORE`
  is a loop that inserts a key only when it is absent. It is specified by the
  function `InsertAll`.
- **Fetch gate** (`fetch_ipo_data`, module `Fetch`). The HTTP exchange is a
  parameter (`HttpResult`). A transport error, a body that is not JSON, or a
  missing `"data"` key gives `[]`. Otherwise there is one entry per item, or
  the first item's exception.
- **Alert** (`send_telegram_alert`, module `Alert`). It has the configuration
  guard, the Markdown message and the `sendMessage` request. The POST is a
  parameter (`Request -> PostResult`).
- **Cycle** (`check_for_new_ipos`, module `Cycle`). It filters out the known
  ids. Then it saves the batch, then makes one alert call per new entry, in
  order. `Cycle` is the specification as a function, with its trace of
  `Saved`/`Alerted` events. The methods `CheckForNewIpos` and `SendAlerts` are
  proved equal to it.

The model follows what the code does, which differs from what a reader might expect:

- There is one fetch attempt. No retry tiers, backoff or browser fallback exist.
- A record with a missing key is not skipped. Its `KeyError` escapes
  `fetch_ipo_data` and ends the cycle before anything is saved.
- `raise_for_status()` raises `httpx.HTTPStatusError`, which is not an
  `httpx.RequestError`. So a non-2xx answer is not caught.
  - In `fetch_ipo_data`, it ends the cycle.
  - In `send_telegram_alert`, it ends the alert loop. The remaining new entries
    get no alert, although they are already saved.
  - An alert returns `False`, and the loop goes on, only when the configuration
    is missing or the POST raises an `httpx.RequestError`.

## Model

| member | source | states |
|---|---|---|
| `PyStr.Strip` | ipo_alert.py:123 | `strip()` removes only whitespace, and only at both ends. The result is an infix of the input with no whitespace at either end. |
| `PyStr.StripIdempotent` | ipo_alert.py:123 | Stripping a stripped text changes nothing. |
| `PyStr.NatToDecimal` | ipo_alert.py:153 | `str()` of a non-negative int is a non-empty digit string with no leading zero (except `"0"`). |
| `PyStr.IntToDecimalRoundTrip` | ipo_alert.py:153 | `str()` of any int, sign included, reads back as the same int. |
| `Entry.ViewHref` | ipo_alert.py:137-142 | There is a link exactly when `view` is a non-empty string, BeautifulSoup finds an anchor in it and that anchor's `href` is non-empty. The link is then that `href`. |
| `Entry.FromApiData` | ipo_alert.py:118-156 | Success exactly when every key read is present (`url` only when `view` gives no link). An error names a missing key. `id`, `symbol`, `company_name`, `units` and `issue_manager` are copied unchanged. `price` is `str(price)`. The markup fields are stripped text. The embedded `href` wins and the raw `url` is the fallback. |
| `Entry.UrlFieldUnreadWhenViewLinks` | ipo_alert.py:155 | When `view` yields a link, the raw `url` field's value and even its presence do not change the result. |
| `Entry.IntPriceRecoverable` | ipo_alert.py:153 | `str()` of an integer price loses nothing: the stored text reads back as the same integer. |
| `Entry.CleanTextTrimmed` | ipo_alert.py:122-134 | Symbol, dates and status carry no surrounding whitespace, and stripping them again changes nothing. |
| `Store.InsertAllShape` | ipo_alert.py:186-211 | After a save, the key set is the old key set plus the batch ids. Rows that were already stored keep their contents. |
| `Store.InsertAllFirstWins` | ipo_alert.py:190-197 | For an id that was not stored before, the row kept is the one from its first occurrence in the batch. |
| `Store.InsertAllKnown` | ipo_alert.py:193 | A batch whose ids are all stored leaves the table unchanged (insert-or-ignore never overwrites). |
| `Store.InsertAllIdempotent` | ipo_alert.py:186-211 | Saving the same batch twice equals saving it once. |
| `Store.InsertAllAppend` | ipo_alert.py:190-210 | Saving `a + b` equals saving `a` and then `b`. |
| `Store.IpoStore.KnownIds` | ipo_alert.py:179-184 | The known-id set holds exactly the ids of the stored rows. |
| `Store.IpoStore.SaveEntries` | ipo_alert.py:186-211 | The loop leaves the table equal to `InsertAll` of the old table and the batch. The key set grows to the union, and old rows are unchanged. |
| `Fetch.MapRaising` | ipo_alert.py:230 | The comprehension succeeds exactly when every item parses, giving one result per item in order. Otherwise it raises the error of the first item that fails, and every item before it parsed. |
| `Fetch.FetchIpoData` | ipo_alert.py:213-238 | A transport error, invalid JSON or a missing `"data"` key gives `[]`. A non-2xx status raises. For a 2xx JSON answer with `"data"`, the result is one entry per item in order when every item parses; otherwise it raises the first failing item's error. A non-empty result comes only from such an answer. |
| `Alert.AlertMessage` | ipo_alert.py:249-262 | The message starts with the fixed header and ends with `)` exactly when the url is truthy. With a url it is the header plus eight labelled lines plus `\n[View Details](url)`. Without one, it has no suffix. |
| `Alert.MessageUrlOnlyAddsSuffix` | ipo_alert.py:261-262 | The message without a url is a prefix of the message with it. The two are equal exactly when the url is not truthy. |
| `Alert.AlertRequest` | ipo_alert.py:264-269 | The payload carries the message text and the configured chat id, in Markdown mode with link previews enabled. |
| `Alert.SendTelegramAlert` | ipo_alert.py:240-279 | Unconfigured means `False`. Otherwise the result is `True` exactly on a 2xx answer and `False` on a transport error. It raises `HttpStatusError` exactly on a non-2xx answer. |
| `Alert.UnconfiguredNeverPosts` | ipo_alert.py:242-244 | Without configuration, the result does not depend on the network. |
| `Cycle.NewEntries` | ipo_alert.py:292 | The new entries are exactly the fetched entries whose id is not known. The result is never longer than the fetched list. |
| `Cycle.NewEntriesAppend` | ipo_alert.py:292 | The filter keeps fetched order: it distributes over concatenation. |
| `Cycle.NewEntriesCount` | ipo_alert.py:292 | Each unseen entry is kept as many times as it was fetched. A known entry is never kept. |
| `Cycle.NewEntriesAllKnown` | ipo_alert.py:292 | When every fetched id is known, nothing is new. |
| `Cycle.NewEntriesCoverFetched` | ipo_alert.py:286-292 | Every fetched id is known or carried by a new entry. No new entry has a known id. |
| `Cycle.AlertAllShape` | ipo_alert.py:300-302 | The alert loop calls the alert for a prefix of the batch, in order, once each. It goes on after calls that return `True` or `False`. It completes exactly when every call returns, and it stops at the first call that raises. |
| `Cycle.CycleQuietWhenNothingNew` | ipo_alert.py:294-304 | A cycle that raises while fetching, or finds nothing new, saves nothing and sends no alert. |
| `Cycle.CycleSavesThenAlerts` | ipo_alert.py:294-302 | With new entries, the first event is the save of the whole batch. Each later event is the alert for the next new entry, in order. The cycle completes exactly when all of them returned. |
| `Cycle.CycleStore` | ipo_alert.py:286-298 | After a cycle, old rows are unchanged and every fetched id is known. A new entry is stored as fetched, unless its id occurred earlier in the batch. |
| `Cycle.CycleRepeatIsQuiet` | ipo_alert.py:281-304 | A second cycle over the same answer finds nothing new, sends no alert and leaves the table as it is. |
| `Cycle.SendAlerts` | ipo_alert.py:300-302 | The `for` loop produces exactly the events and the outcome of `AlertAll`. |
| `Cycle.CheckForNewIpos` | ipo_alert.py:281-304 | The method's trace, outcome and resulting table equal `Cycle` of the old table, the fetch result and the alert call. |

## Left out

- The HTTP GET (URL, query parameters, headers, 30 s timeout; ipo_alert.py:42-101, 217-224) and the Telegram POST (ipo_alert.py:271-279) are network I/O. Each is a parameter of the model: an `HttpResult`, or a function from request to `PostResult`.
- SQLite connections, SQL text, commits and `setup_database` (ipo_alert.py:158-177) are left out. Only the table contents are modelled. The `first_seen` timestamp is a clock value and is not a column of `Row`. A failure to open or write the database is not modelled.
- BeautifulSoup's `get_text()` and `find("a")` are a foreign HTML parser. They are uninterpreted, and nothing is claimed about tag stripping.
- Logging, `load_dotenv`, the scheduler loop, `asyncio` and `time.sleep` (ipo_alert.py:22-37, 306-328) are side effects and the process driver.
- The payload's values are typed as the upstream sends them. Text fields are strings; `id` is an integer; `view` and `url` are a string or `null`; `price` is an integer, a string, a boolean or `null`. The following are not modelled:
  - floating-point prices;
  - `null` or numeric values in `company_name`, `units` or `issue_manager`, which the source stores and prints as they are;
  - a `null` `id`, which the source never finds among the known ids and which SQLite stores under a fresh row id, so such a record is saved and alerted again on every cycle;
  - non-string values in the markup fields (`symbol`, the dates, `status`, `view`), which go to BeautifulSoup as they are;
  - a decoded body that is not an object, or whose `"data"` is not a list of objects.
- Store.InsertAll: ids are unbounded integers. In the source, an id outside the 64-bit range [-2^63, 2^63) makes the sqlite3 binding raise `OverflowError` during `save_ipo_entries`. The connection then rolls the whole batch back, and the exception ends the cycle before any alert. The model stores such an id and alerts it.
- Entry.FromApiData: says that an error names a key the record lacks. It does not say which missing key comes first.
- Cycle.SendAlerts: receives the alert call as a value (`Sender` builds it from the configuration and the POST) instead of calling `send_telegram_alert` by name.
- The Telegram POST is a function of the request, so two identical requests get the same answer.
