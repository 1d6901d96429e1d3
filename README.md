# COM-Server connection core, modelled in Dafny

This project models the core of COM-Server, a Python library that manages a serial
(COM) port for a web API. Three parts are modelled.

- **`BaseConnection`** (`base_connection.dfy`, module `BaseConnections`). The connection
  is closed or open. It has a strict mode (`exception`) in which misuse raises instead of
  returning `False`/`None`. `send` is throttled by `send_interval` and feeds a FIFO
  outgoing queue of at most 65536 payloads. `receive` reads a bounded history of
  received chunks, counting back from the newest. One iteration of the IO thread stores
  the chunk the device offers, evicting the oldest entry past `queue_size`, then writes
  queued payloads front first. `_reset` clears both queues.
  The class invariant `Valid()` holds across every method. It says:
  - the history holds at most `queue_size` entries;
  - the outgoing queue holds at most 65536 payloads;
  - both queues are empty while the connection is closed.
- **String post-processing** (`connection.dfy`, module `Connections`).
  `conv_bytes_to_str` cuts the received text before the first occurrence of
  `str(read_until)` and optionally strips it. `receive_str` applies it to what
  `receive` returns.
- **Endpoint registry** (`api_server.dfy`, module `ApiServer`). `add_endpoint`
  appends `(name, class)` pairs to `all_endpoints`. It first refuses a duplicate name,
  then a class that does not extend `Resource`. Its invariant is that names are pairwise
  distinct.

Supporting modules:
- `results.dfy` (module `Results`): `Option`, `Result` and the exceptions raised.
- `pystr.dfy` (module `PyStr`): the Python string built-ins the code relies on.
  These are `str.strip()` (over the characters `str.isspace()` accepts), `str.index`
  and `str.join`.

How the outside world is represented:
- The device is an input. `Connect` takes whether the serial port could be opened, and
  `IoIteration` takes the chunk waiting to be read, if any.
- What is written to the device is appended to the ghost log `written`.
- The clock is an integer `now` passed to the methods that read it.
- The 0.5-second drain window is a bound `budget` on the number of writes per iteration.

Three small client methods replay scenarios of the library's usage.
- `ThrottleScenario` follows the test at `tests/test_server_running.py:60-66`: an
  immediate second send fails.
- `HistoryScenario` stores four chunks into a history of capacity 3, and `receive` then
  sees the last three.
- `ReceiveStrAsWrittenFails` shows the second finding below on a concrete connection.

Where the library's docstrings and its code differ, the model follows the code.
- `disconnect` on a closed connection raises `ConnectException` in strict mode
  (src/com_server/base_connection.py:130-133). Its docstring says it "just returns"
  (src/com_server/base_connection.py:123).
- `send` returns `True` while the queue already holds 65536 payloads, and drops the
  payload (src/com_server/base_connection.py:206-212). Its docstring promises `false`
  when the data is not fully sent through (src/com_server/base_connection.py:150,
  178-180).
- `receive` in strict mode raises `ValueError` for a negative index and `IndexError` past
  the oldest entry (src/com_server/base_connection.py:245-256). Its docstring says it
  returns None (src/com_server/base_connection.py:220-221).
- `receive_str` is documented to return `(timestamp, data)` records
  (src/com_server/connection.py:94-96), but the history stores bare chunks
  (src/com_server/base_connection.py:297). The second finding below is about this.

Two details of the code are easy to miss:
- The throttle rejects a send when `now - last_sent <= send_interval`
  (src/com_server/base_connection.py:192). A send exactly one interval later is
  therefore rejected.
- `last_sent` is set at construction and by `_reset`
  (src/com_server/base_connection.py:80, 319). So a send within one interval of
  constructing or disconnecting is rejected.

## Model

| member | source | states |
|---|---|---|
| `PyStr.Strip` | src/com_server/connection.py:55-65 | `str.strip()`: the result has no whitespace at either end; it is the factor of the input that remains once only whitespace is cut from both ends; it is empty exactly when the input is all whitespace |
| `PyStr.IndexOf` | src/com_server/connection.py:54 | `str.index`: found exactly when the marker occurs, and then at its first occurrence |
| `PyStr.IndexOfFirst` | src/com_server/connection.py:54 | the first occurrence determines the index returned |
| `PyStr.NoOccurrenceBefore` | src/com_server/connection.py:36-38 | a factor of the text ending before the first occurrence of a non-empty marker does not contain the marker |
| `PyStr.Join` | src/com_server/base_connection.py:199-201 | `sep.join(items)`: the empty list gives the empty text; otherwise the text starts with the first item and ends with the last |
| `PyStr.JoinSnoc` | src/com_server/base_connection.py:197-201 | `sep.join` of one more item adds the separator and that item at the end |
| `PyStr.JoinLength` | src/com_server/base_connection.py:197-201 | the joined text is as long as all items plus one separator between each two neighbours |
| `BaseConnections.CheckOutput` | src/com_server/base_connection.py:271-281 | `_check_output` returns text with no leading or trailing whitespace, for every argument type |
| `BaseConnections.ArgText` | src/com_server/base_connection.py:199-201 | with `check_type` each argument's text is the stripped `_check_output` text; without it the text is `str()` of the argument |
| `BaseConnections.ArgTexts` | src/com_server/base_connection.py:199-201 | the comprehensions: one text per argument, in argument order |
| `BaseConnections.Payload` | src/com_server/base_connection.py:197-204 | the text `send` queues always ends with `ending`, starts with the first argument's text, and is that text plus `ending` for a single argument |
| `BaseConnections.PayloadShape` | src/com_server/base_connection.py:197-204 | the queued payload ends with `ending`, and its length is the argument texts, the separators between them and the ending |
| `BaseConnections.PayloadSnoc` | src/com_server/base_connection.py:197-204 | one more argument adds `concatenate` and that argument's text just before the ending |
| `BaseConnections.PyIndex` | src/com_server/base_connection.py:256-261 | Python list indexing succeeds exactly for indices from `-len` to `len - 1` |
| `BaseConnections.FromNewest` | src/com_server/base_connection.py:256-261 | `q[-1-k]` is the entry `k` places back from the newest, and is absent for `k >= len` |
| `BaseConnections.Ingested` | src/com_server/base_connection.py:296-300 | the new history is a suffix of the old history plus the chunk; the chunk is its newest entry; within capacity its length is `min(len + 1, queue_size)` |
| `BaseConnections.IngestedEvictsOldest` | src/com_server/base_connection.py:296-300 | with room nothing is lost; at capacity exactly the oldest entry is dropped; with `queue_size = 0` the history stays empty; the new chunk becomes `receive(0)` |
| `BaseConnections.IngestedShiftsHistory` | src/com_server/base_connection.py:296-300 | after a chunk arrives, the former `k`-th newest entry is the `(k+1)`-th newest |
| `BaseConnections.FourIntoThree` | src/com_server/base_connection.py:296-300 | a history of capacity 3 that receives "1" to "4" keeps "2", "3", "4" |
| `BaseConnections.BaseConnection.constructor` | src/com_server/base_connection.py:68-83 | `timeout`, `queue_size` and `send_interval` are the absolute values of the arguments; the connection is closed; both queues are empty; `last_sent` is the construction time |
| `BaseConnections.BaseConnection.Connect` | src/com_server/base_connection.py:104-118 | when already open: raises `ConnectException` in strict mode, otherwise returns, and nothing changes; when closed: opens if the device opens, and leaves the queues and `last_sent` as they were |
| `BaseConnections.BaseConnection.Reset` | src/com_server/base_connection.py:315-322 | `last_sent` becomes now, both queues become empty, and the class invariant holds afterwards |
| `BaseConnections.BaseConnection.Disconnect` | src/com_server/base_connection.py:130-140 | when closed: raises in strict mode, otherwise a no-op; when open: closes, empties both queues and sets `last_sent` to now |
| `BaseConnections.BaseConnection.Send` | src/com_server/base_connection.py:184-212 | when closed: raises in strict mode or returns false, with nothing changed; within the interval: returns false with nothing changed; otherwise returns true, sets `last_sent` to now, and appends exactly the payload at the back unless 65536 payloads are waiting; the queue never exceeds 65536 |
| `BaseConnections.BaseConnection.Receive` | src/com_server/base_connection.py:238-261 | when closed: raises or gives None; negative index: `ValueError` or None; index within the history: the entry that many places back from the newest; past the oldest: `IndexError` or None |
| `BaseConnections.BaseConnection.Ingest` | src/com_server/base_connection.py:292-300 | the history becomes `Ingested(old history, chunk, queue_size)` and stays within `queue_size`; nothing else changes |
| `BaseConnections.BaseConnection.Drain` | src/com_server/base_connection.py:302-311 | writes `min(budget, pending)` payloads front first; the queue keeps the unwritten suffix; the write log grows by exactly those payloads in order |
| `BaseConnections.BaseConnection.IoIteration` | src/com_server/base_connection.py:290-313 | runs only while open; stores the waiting chunk if there is one, then drains; when closed nothing changes |
| `Connections.Marker` | src/com_server/connection.py:54 | `str(read_until)`: a string stays as it is, and None becomes the text "None" |
| `Connections.CutAtMarker` | src/com_server/connection.py:53-54 | the cut text is a prefix of the text, and is the whole text when the marker does not occur |
| `Connections.ConvBytesToStr` | src/com_server/connection.py:48-65 | None gives None; with `strip` the result has no outer whitespace; without it the result is a prefix of the text; the whole (stripped) text when the marker does not occur; the result never contains a non-empty marker |
| `Connections.CutAvoidsMarker` | src/com_server/connection.py:54-58 | neither the cut text nor its stripped form contains a non-empty marker |
| `Connections.ConvCutsAtFirstMarker` | src/com_server/connection.py:53-58 | when the marker occurs, the result is the text before its first occurrence, stripped if asked |
| `Connections.NoneMarkerTruncates` | src/com_server/connection.py:54 | with `read_until` None, "ANoneB" is converted to "A" |
| `Connections.ConvBytesToStrIntended` | src/com_server/connection.py:39 | with `read_until` None the whole (stripped) text is returned; with a marker, the result is the code's |
| `Connections.ReceiveStr` | src/com_server/connection.py:94-106 | exceptions from `receive` propagate; None exactly when `receive` gives None; otherwise the timestamp is passed through unchanged and the data is converted by `conv_bytes_to_str` |
| `Connections.ReceiveStrAsWritten` | src/com_server/connection.py:99-106 | as written over the bare chunks `receive` returns: never yields text, is None exactly when `receive` gives None, and raises whenever `receive` finds data |
| `Connections.ReceiveStrAsWrittenRaises` | src/com_server/connection.py:104 | for an open connection and an index inside the history, `receive_str` as written raises |
| `ApiServer.EndpointNames` | src/com_server/api_server.py:76 | the list of names, position by position, of the registered endpoints |
| `ApiServer.HasAlready` | src/com_server/api_server.py:72-80 | `_check_hasalready`: true exactly when some registered entry uses the name |
| `ApiServer.ExtendsResource` | src/com_server/api_server.py:95 | `Resource in ret.__bases__`: true exactly when `Resource` is one of the class's direct bases |
| `ApiServer.AppendNewNameKeepsDistinct` | src/com_server/api_server.py:93-101 | appending an entry whose name is new keeps the names pairwise distinct |
| `ApiServer.BaseRestConnection.constructor` | src/com_server/api_server.py:46-53 | the handler keeps its connection and starts with no endpoints |
| `ApiServer.BaseRestConnection.AddEndpoint` | src/com_server/api_server.py:82-103 | an exception from the decorated function propagates; a registered name raises `EndpointExistsException`; a class without `Resource` among its direct bases raises `TypeError`; the registry is unchanged on every exception; otherwise `(endpoint, class)` is appended at the end and `func` is returned; names stay pairwise distinct |

## Left out

- Serial-port I/O is not modelled: opening the port, `close`, `write`, `flush`,
  `in_waiting`, `read_all`, and the extra pyserial keyword arguments. Opening is a
  boolean input, reading is an input chunk, and writing is the ghost log.
- The waits are not modelled: `time.sleep(2)` after opening and the 10 ms pauses.
- The background thread is not modelled, and neither are races between it and callers.
  One iteration is a sequential method. For example, a thread left running after a
  disconnect can still touch the queues; the model does not capture that.
- Floating-point time is replaced by the integer `now`. `send` reads the clock twice and
  the model uses one reading for both. The 0.5-second window is the step bound `budget`.
- UTF-8 encoding and decoding are not modelled. Received and queued data is represented
  by its decoded text. A decoding error in `conv_bytes_to_str` is therefore not modelled.
- `json.dumps` and `str()` of arbitrary objects are not modelled. `PyValue` carries the
  texts they produce.
- `__repr__` is not part of this model.
- `get_first_response`, `send_for_response`, `wait_for_response` and `all_ports` have
  documentation but no code, so there is nothing to model.
- The web layer is not part of this model: `api_builtins.py`, `run`, and the Flask app
  and Api objects the handler creates.
- `src/com-server/connection.py` (an older stub) is not part of this model.
- `add_endpoint` is modelled for decorated functions that return a class. A function that
  returns something without `__bases__` raises AttributeError in the code, and the model
  does not represent such a return value.
- `read_until` is modelled as a string or None. The code calls `str()` on any other value;
  the model does not represent those values.
- `BaseConnections.BaseConnection.Send`: the model cannot raise once a send has passed the
  throttle. The code can: `last_sent` is set at src/com_server/base_connection.py:194,
  and the conversions after it can still raise (src/com_server/base_connection.py:197-204).
  `json.dumps` raises TypeError on an unserialisable item, `bytes.decode` in
  `_check_output` raises UnicodeDecodeError, and `.encode("utf-8")` raises
  UnicodeEncodeError on a lone surrogate. In each case the exception comes after
  `last_sent := now`, so the throttle slot is used up, and nothing is queued.
- `ReceiveStrAsWritten`: which exception is raised (`IndexError` for a chunk shorter than
  two bytes, otherwise `AttributeError`) is decided by the chunk's character count. That
  count differs from the byte count for non-ASCII text.

## Findings

| source | as written | input that shows it | evidently intended | confidence | as-written member | corrected member |
|---|---|---|---|---|---|---|
| src/com_server/connection.py:54 | `str(read_until)` turns None into the text "None", so the text is cut before the first "None" | received text "ANoneB", `read_until` None, `strip` False gives "A" | with `read_until` None the whole text is returned (connection.py:39) | high, not executed | `Connections.NoneMarkerTruncates` | `Connections.ConvBytesToStrIntended` |
| src/com_server/connection.py:104-106 | indexes `[0]` and `[1]` of what `receive` returns, but the history holds bare bytes chunks (base_connection.py:297) | a stored chunk b"OK\r\n": `[1]` is the int 75, and its `.decode` raises AttributeError | return `(timestamp, text)` for a timestamped record (connection.py:94-96) | high, not executed | `Connections.ReceiveStrAsWritten` | `Connections.ReceiveStr` |

`Connections.ReceiveStr` keeps the code's conversion, including the "None" marker. This
way each row above shows one discrepancy on its own.
