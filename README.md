# TradeBrain tick server, modelled in Dafny

TradeBrain is a TCP server. Clients stream market ticks to it as
newline-delimited JSON. It stores them in an SQLite table
`ticks (timestamp REAL, price REAL)` and trains a price-path model on them.
This project models its core:

- `server_src/database.py`, the `DatabaseManager`: cleaning and all-or-nothing
  bulk insertion of fed ticks, and the read of the most recent prices.
  Modules `Database` and `Sql`.
- `server_src/model_engine.py`, the `ModelEngine` without its Keras network:
  z-score normalisation, UTC hour/weekday features, the stride-sampled
  construction of the training set in `train`, and the arithmetic of
  `predict`. Module `ModelEngine`.
- `server_src/server_core.py`, the `ServerCore`: `process_request` and its
  three handlers. Module `ServerCore`.
- `server_src/socket_handler.py`, the `SocketHandler`: one client
  connection. Its `recv` results are framed by newlines, stripped, parsed
  and answered. Modules `SocketHandler` and `Framing`.
- `main.py`, the original single-file server: `FastBrain.save_bulk_data`,
  its placeholder `train_memory`/`predict`, and `handle_client`. Module
  `Legacy`.

Each operation that changes state step by step is a method of a class:

- `Database.TickStore`, `ServerCore.Core`, `SocketHandler.Handler` and
  `Legacy.FastBrain`, with their loops kept.
- Each of these methods is proved equal to a specification function of
  the old state (`SaveSpec`, `Dispatch`, `Serve`, `LineSpec`, …).
- The properties of the server are lemmas about those functions.

`Config` holds the constants of `server_src/config.py`: W = 2000,
horizon 2000, stride 100, 20 output steps and a training cap of 500000.
`Json` models decoded JSON values with Python's truth value, `dict.get`
and iteration. `Wrappers` holds `Option` and `Min`.

Collaborators the model cannot see become parameters:

- `json.loads` is `parse: string -> ParseResult`.
- `np.std` of a window is `stdOf`. The mean is exact over the reals.
- Keras `fit` and inference are `fit` and `infer`. Either returns `None`
  when it raises.
- A write that fails inside the transaction is the store's `faulty`
  flag.
- A client's connection is the sequence of its `recv` results.

Where the written code and its own evident intent differ:

- `_handle_train` calls `model.train` with one argument, but
  `ModelEngine.train` takes two (Findings, row 1). With the engine that
  `server_src/main.py` injects, TRAIN never trains.
- `_handle_predict` never calls the model. It echoes the request's price
  in a `PATH` reply once W ticks are stored. That is what is modelled.
- The server's store reports the rows it inserted
  (`return len(cleaned_data)` at server_src/database.py:57, passed on as
  `{"status": "saved", "count": count}` at server_src/server_core.py:80).
  `main.py` can commit a batch and still report 0 (Findings, row 2).

## Model

| member | source | states |
|---|---|---|
| Json.Lookup | server_src/server_core.py:55 | `req.get(key)` finds a value exactly when some pair has that key, and the value returned is the one stored under the last such pair, as in the dict `json.loads` builds |
| Json.Iterate | server_src/database.py:30 | Only lists, strings and dicts can be iterated (anything else raises `TypeError`); a dict yields string keys, each key of the document exactly once, and yields something exactly when it is truthy |
| Json.KeysSpec | server_src/database.py:30 | The dict's keys are exactly the keys of the object's pairs, none repeated, never more than the pairs and at least one when there is a pair |
| Json.KeyItemsSpec | server_src/database.py:30 | Iterating a dict yields only strings: one per distinct key of the pairs, none twice, and none exactly when the dict is empty |
| Sql.TsLeTotal | server_src/database.py:69 | SQLite's ordering of stored timestamps (NULL, then numbers, then text by code point) is total |
| Sql.TsLeTrans | server_src/database.py:69 | That ordering is transitive |
| Sql.SortByTs | server_src/database.py:69 | `ORDER BY timestamp` returns a permutation of the table (same length, same multiset) |
| Sql.SortByTsSorted | server_src/database.py:69 | The ordered rows are in ascending timestamp order |
| Sql.SortByTsOfSorted | server_src/database.py:69 | Rows already in timestamp order come back unchanged |
| Sql.InsertAfterOlder | server_src/database.py:69 | A row no earlier than every row of a prefix is placed after the whole prefix |
| Sql.SortByTsAppend | server_src/database.py:69 | When no stored row is later than a row of a new batch, ordering the table orders the old rows first and then the batch on its own |
| Database.CleanAppend | server_src/database.py:29-46 | Cleaning works item by item: the cleaned batch of `a + b` is the cleaned `a` followed by the cleaned `b` |
| Database.CleanLength | server_src/database.py:29-46 | Cleaning never adds items |
| Database.CleanWellFormed | server_src/database.py:29-46 | A batch of lists of length two or more is kept whole, in order, truncated to pairs |
| Database.BindPairs | server_src/database.py:55 | `executemany` binds every cleaned pair, in order, unless one component cannot be bound |
| Database.SaveAllOrNothing | server_src/database.py:20-63 | The insertion is all or nothing: either the table is unchanged and 0 (or `TypeError`) is returned, or every cleaned pair is appended in order and their number returned; the returned count equals the rows added |
| Database.SaveEmpty | server_src/database.py:25-26 | A falsy batch returns 0 and writes nothing |
| Database.SaveFaultRollsBack | server_src/database.py:52-61 | A failure inside the transaction rolls it back: table unchanged, result 0 |
| Database.SaveCountsCleaned | server_src/database.py:29-57 | Malformed items are filtered before the transaction; a positive count is the number of cleaned items, never more than the batch |
| Database.RecentPrices | server_src/database.py:65-73 | `get_training_data(limit)` returns min(limit, size) prices: those of the last rows in timestamp order, oldest first |
| Database.RecentAreLatest | server_src/database.py:69-73 | The prices returned are the most recent ones: every row left out is no later than every row returned, and the returned rows ascend |
| Database.RecentOfOrdered | server_src/database.py:69-73 | When rows were inserted in timestamp order, the read gives the prices of the last `limit` rows inserted |
| Database.FeedThenFetch | server_src/database.py:20-73 | A well-formed batch that binds, with no stored tick later than any of its ticks, is stored whole and counted; reading that many recent prices gives back the batch's prices in timestamp order, and in batch order when the batch is already in timestamp order |
| Database.TickStore.constructor | server_src/database.py:5-17 | A store opened on a database file holds the rows already stored there |
| Database.TickStore.SaveBulkData | server_src/database.py:20-63 | The cleaning loop and the transaction: the outcome and new table are those of `SaveSpec` on the old table |
| Database.TickStore.TrainingData | server_src/database.py:65-73 | As `RecentPrices`, on the store's current rows |
| ModelEngine.EffectiveStd | server_src/model_engine.py:99-101 | The std used is never below 1e-6 and equals the computed std when that is at least 1e-6 |
| ModelEngine.DenormalizeInvertsNormalize | server_src/model_engine.py:148-166 | Denormalizing with the window's mean and std undoes normalizing with them |
| ModelEngine.NormalizeInvertsDenormalize | server_src/model_engine.py:148-166 | Normalizing undoes denormalizing, for any positive std |
| ModelEngine.SumNormalize | server_src/model_engine.py:97-102 | The z-scores sum to (sum − n·mean)/std |
| ModelEngine.NormalizedMeanIsZero | server_src/model_engine.py:97-102 | A window normalized with its own mean has mean 0 |
| ModelEngine.TimeFeaturesSpec | server_src/model_engine.py:65-76 | Features exist exactly for instants in years 1–9999; the hour is the UTC hour (0–23); the weekday is the calendar weekday Monday–Friday and 4 on weekends |
| ModelEngine.ExtractTimeFeatures | server_src/model_engine.py:65-76 | The loop yields one `[hour, weekday]` per timestamp, in order, or raises exactly when some timestamp is out of range |
| ModelEngine.StepSliceInBounds | server_src/model_engine.py:110 | `xs[start:start+100n:100]` has n elements, the k-th at `start + 100k` |
| ModelEngine.FutureExact | server_src/model_engine.py:110 | The target takes exactly 20 future ticks, 100 apart, starting right after the window |
| ModelEngine.SampleAtSpec | server_src/model_engine.py:96-115 | A sample is the normalized window `prices[i..i+W)` plus the features of `timestamps[i+W-1]` plus the 20 future ticks normalized with the window's statistics, so that denormalizing the target gives the future back; it fails exactly when that timestamp is missing or out of range |
| ModelEngine.SampleStarts | server_src/model_engine.py:91-95 | `range(0, limit, 20)` visits exactly the multiples of 20 below `limit` |
| ModelEngine.CollectSpec | server_src/model_engine.py:95-115 | The loop completes exactly when every iteration does, and then yields one sample per start, in order |
| ModelEngine.BuildSample | server_src/model_engine.py:96-115 | One iteration of the loop builds `SampleAt` for its start |
| ModelEngine.CollectSamples | server_src/model_engine.py:88-115 | The loop returns all samples in order, or the exception of the first iteration that raises |
| ModelEngine.TrainSpecProps | server_src/model_engine.py:78-134 | `train` refuses fewer than W+T+100 ticks; with every timestamp in range it fits on exactly ⌈(n−W−T)/20⌉ samples, the k-th starting at tick 20k, and returns `fit`'s loss or its failure |
| ModelEngine.Train | server_src/model_engine.py:78-134 | The guard, the sample loop and `fit`: "insufficient" exactly for short inputs, and otherwise the result of `TrainSpec` |
| ModelEngine.Predict | server_src/model_engine.py:136-172 | `predict` returns `None` exactly when the window is shorter than W |
| ModelEngine.PredictSpec | server_src/model_engine.py:136-172 | A longer window cannot be reshaped; a path comes only from a W-price window with a valid timestamp and has the model output's length, each offset being the output denormalized with the window's statistics minus the last price |
| ModelEngine.PredictOfExactModel | server_src/model_engine.py:160-170 | A model that outputs the true future normalized with the window's statistics yields the future's offsets from the current price |
| ServerCore.DispatchRoutes | server_src/server_core.py:44-67 | A request that is not an object makes `req.get` raise outside the `try`; an unknown type is reported back; only FEED_DATA can change the table |
| ServerCore.FeedSpecProps | server_src/server_core.py:69-80 | Missing or falsy `data` is refused without calling the store; otherwise the reply carries the store's count and the table changes as `save_bulk_data` changes it; a non-iterable batch answers the `TypeError` |
| ServerCore.PredictSpec | server_src/server_core.py:82-106 | Without a price (missing or null) PREDICT answers "No price provided"; with one, it waits while fewer than W ticks are stored, reporting the count, and otherwise echoes the price; the table is unchanged |
| ServerCore.TrainSpec | server_src/server_core.py:108-129 | TRAIN reads at most 500000 prices; with fewer than W+T stored it answers the "需要至少 4000" error whatever the model does; otherwise it answers the model's result, or its exception as text |
| ServerCore.Core.constructor | server_src/server_core.py:21-30 | The core holds the injected store and model |
| ServerCore.Core.ProcessRequest | server_src/server_core.py:44-67 | Response or escaped exception, and the new table, are those of `Dispatch` on the old table |
| ServerCore.Core.HandleFeedData | server_src/server_core.py:69-80 | Response and new table are those of `FeedSpec` on the old table |
| ServerCore.TrainAsWiredNeverTrains | server_src/server_core.py:124-129 | As written, every TRAIN request answers an error; with enough ticks, the error is the missing-argument `TypeError` |
| ServerCore.RecentTicks | server_src/server_core.py:114 | The corrected read returns min(limit, size) rows, all from the table |
| ServerCore.RecentTicksLatest | server_src/server_core.py:114 | The rows read ascend by timestamp, and no row left out is later than a row read |
| ServerCore.RecentTicksSpec | server_src/server_core.py:114 | The rows read carry exactly the prices `get_training_data(limit)` returns, in the same order, and are the most recent ticks in ascending order |
| ServerCore.RecentTicksPrices | server_src/server_core.py:114 | On numeric ticks, the price column handed to the engine is `get_training_data(limit)` converted to floats, element by element |
| ServerCore.RecentTicksNumeric | server_src/server_core.py:114 | On a table of numeric ticks with valid timestamps, the recent ticks convert, with usable timestamps |
| ServerCore.FixedTrainTrains | server_src/server_core.py:108-129 | With the corrected call, a store of at least W+T+100 usable ticks trains on the prices `get_training_data` returns, builds every sample and answers `{"status": "ok", "val_loss": …}` whenever `fit` succeeds |
| Framing.StripLeftSpec | server_src/socket_handler.py:118 | `lstrip` leaves a suffix, drops only whitespace and stops at the first other character |
| Framing.StripRightSpec | server_src/socket_handler.py:118 | `rstrip` leaves a prefix, drops only whitespace and stops at the last other character |
| Framing.StripSpec | server_src/socket_handler.py:118 | `strip` yields a slice of the message with only whitespace outside it and no whitespace at either end |
| Framing.StripEmptyIff | server_src/socket_handler.py:118-121 | A message is skipped as blank exactly when it is all whitespace |
| Framing.FirstNewline | server_src/socket_handler.py:116-117 | The split point is a newline with none before it, and none exists exactly when the buffer holds no newline |
| Framing.FramesSound | server_src/socket_handler.py:116-117 | Splitting loses nothing: the messages and the leftover fragment, rejoined with newlines, give back the buffer, and none contains a newline |
| Framing.FramesUnique | server_src/socket_handler.py:116-117 | The split is the only newline-free way to cut the stream into messages and a fragment |
| Framing.FramesAppend | server_src/socket_handler.py:113-117 | Framing a buffer and then its extension gives the first part's messages, then the messages completed by the extension |
| SocketHandler.ServeSegmentsAppend | server_src/socket_handler.py:116-124 | Handling two runs of messages is handling the first, then, unless it was fatal, the second |
| SocketHandler.ChunkBoundariesInvisible | server_src/socket_handler.py:107-124 | Receiving `a` and then `b` gives the same replies, end and table as receiving `a + b` at once |
| SocketHandler.InvalidJsonAnswered | server_src/socket_handler.py:152-156 | A malformed line gets one "Invalid JSON" error with the decoder's message, leaves the table alone, and reading goes on |
| SocketHandler.BlankLineSkipped | server_src/socket_handler.py:118-121 | A whitespace-only line produces nothing and changes nothing |
| SocketHandler.NonObjectIsFatal | server_src/socket_handler.py:126-129 | Valid JSON that is not an object escapes `process_request`: nothing more is sent and the connection closes |
| SocketHandler.OneReplyPerMessage | server_src/socket_handler.py:116-124 | Unless a message is fatal, every non-blank message gets exactly one reply |
| SocketHandler.EofDropsFragment | server_src/socket_handler.py:109-111 | An orderly close ends the session at once; a fragment without its newline is dropped unanswered |
| SocketHandler.StoppedReadsNothing | server_src/socket_handler.py:107 | A handler that is not running reads and sends nothing |
| SocketHandler.Handler.constructor | server_src/socket_handler.py:23-31 | A new handler is not running and is wired to `json.loads` and the core's `process_request` |
| SocketHandler.Handler.Start | server_src/socket_handler.py:42 | `start` sets the running flag before it blocks in its accept loop |
| SocketHandler.Handler.Stop | server_src/socket_handler.py:79-82 | `stop` clears the running flag |
| SocketHandler.Handler.ProcessMessage | server_src/socket_handler.py:131-157 | Outcome and new table are those of `ProcessSpec`: the decode error answered, the request's response sent, or the escaping exception |
| SocketHandler.Handler.TakeMessage | server_src/socket_handler.py:116-124 | One turn of the inner loop: the buffer loses its first line, which is stripped and, unless blank, processed as `MessageSpec` says |
| SocketHandler.Handler.DrainBuffer | server_src/socket_handler.py:116-124 | The inner loop handles the buffer's complete messages in order, up to the first fatal one, and leaves the trailing fragment in the buffer |
| SocketHandler.Handler.HandleClient | server_src/socket_handler.py:96-129 | Replies, end and new table of a connection are those of `Serve` over its receive results |
| Legacy.BindAll | main.py:71 | `executemany` binds every row, in order, or fails when any one cannot be bound |
| Legacy.SaveAsWrittenMisreports | main.py:72-79 | As written, `[[null, 1]]` is committed and still reported as 0 |
| Legacy.SaveFixedCounts | main.py:63-81 | Both versions write all of a batch or none; the corrected one reports exactly the rows it added; the two agree whenever the log line formats |
| Legacy.SaveAsWrittenCounts | main.py:63-81 | As written, a batch is stored whole or not at all and a positive count is the number of rows added; 0 comes back exactly when nothing was stored or the log line failed after the commit |
| Legacy.LineSpecProps | main.py:105-129 | A line is answered exactly when it decodes to an object with a `type` (and `data` for FEED_DATA, `price` for PREDICT); the table only grows, and only through a FEED_DATA reply; a positive count is the number of rows added; the TRAIN and PREDICT placeholders do not touch it |
| Legacy.MalformedLineIgnored | main.py:126-127 | A line that fails to decode produces no reply and no effect |
| Legacy.FastBrain.constructor | main.py:27-44 | The brain opens a table that may already hold rows |
| Legacy.FastBrain.SaveBulkData | main.py:63-81 | Count and new table are those of `SaveAsWritten`, the code as written, on the old table |
| Legacy.FastBrain.HandleLine | main.py:107-129 | Reply and new table of one line are those of `LineSpec`, whose FEED_DATA is the save as written |
| Legacy.FastBrain.DrainBuffer | main.py:105-129 | The inner loop answers the buffer's complete lines in order, each as `LineSpec` says, and leaves the trailing fragment |
| Legacy.FastBrain.HandleClient | main.py:95-136 | Replies, closing and new table of a connection are those of `Legacy.Serve` over its receive results |

## Left out

- Sockets and threads are not modelled: socket creation, options, bind,
  listen, the accept loop, daemon threads, `_shutdown`, `_close_client`,
  and main.py's module-level server. They are operating-system I/O and
  concurrency. `SocketHandler.Handler.Start` models only the running flag.
- A concurrent `stop()` during a session is not modelled. `running` stays
  fixed within `HandleClient`, so it is tested before the first read only.
- `sendall` failures and `json.dumps` are not modelled. A reply is a
  `Response` value, not the bytes sent. In server_src a failed send ends
  the connection. In `main.py` the send at main.py:124 is inside the
  per-line `try` (main.py:109-129), so a failed send is swallowed and the
  loop goes on to the next line.
- UTF-8 decoding is not modelled. Each `recv` result is given already
  decoded. A decode error is a `Failed` result and ends the connection, as
  any exception does.
- `json.loads` is the abstract parameter `parse`. The model reasons only
  about what the server does with its result.
- Keras is a parameter: model construction, `fit`, inference, and
  `save`/`load_model`. `fit`'s epochs, batch size and validation split are
  inside it.
- Floating point is not modelled. Prices are exact reals and the mean is
  exact. `np.std` is the parameter `stdOf`. NaN and infinities are not
  represented.
- `datetime.utcfromtimestamp` is integer-second arithmetic on the floor of
  the timestamp. Its microsecond rounding is not modelled.
- `get_training_data` is modelled for non-negative limits only. SQLite's
  `LIMIT` with a negative value is not modelled.
- REAL affinity turning numeric-looking text into a number is not
  modelled. Text is stored as text.
- Rows with equal timestamps come back in insertion order, as a scan of the
  timestamp index yields them. SQL leaves this unspecified.
- Database.TickStore.SaveBulkData: a failure to open the database raises
  outside any `try` and is not modelled. `_get_conn()` runs at
  server_src/database.py:51, before the `try` at :52, so its exception
  reaches server_core.py:66-67 and FEED_DATA answers
  `{"status": "error", "msg": …}`. Only a write that fails inside the
  transaction (`faulty`) is modelled.
- Database.TickStore.TrainingData: a failure to open the database, or a
  failing read, raises and is not modelled: `get_training_data`
  (server_src/database.py:65-73) has no `try`, so PREDICT and TRAIN would
  answer the error through server_core.py:66-67. The modelled read is
  total.
- Legacy.FastBrain.SaveBulkData: a failure of `sqlite3.connect` or
  `cursor()` at main.py:65-66, before the `try`, is not modelled. It
  reaches main.py:128-129 and the line gets no reply, so
  `Legacy.LineSpecProps`'s "answered exactly when" holds only while the
  database opens.
- `init_db` is not modelled: the table's prior rows are a constructor
  argument. Logging and `print` are left out.
- The `deque` and `Lock` of `FastBrain` are constructed but never used, so
  they are left out.
- ModelEngine.Train: an insufficient or trained result is a `TrainResult`
  value. The Python dict it builds appears only in
  `ServerCore.TrainResultJson`.
- ModelEngine.Predict: the length of Keras' output is not constrained to 20.
  The path has whatever length `infer` returns.
- ServerCore.EngineErrorText: the exception texts of the engine are
  representative strings, not Python's exact messages.
- Json.Iterate: a dict's keys come in first-occurrence order by the
  definition of `Json.Keys`. No lemma states that order.
- ServerCore.FixedTrainTrains: it assumes every stored value is numeric.
  A text timestamp would make `np.array` yield strings; that case is one
  error string (`NON_NUMERIC_TICK`).

## Findings

| source | as written | input that shows it | evidently intended | confidence | as-written member | corrected member |
|---|---|---|---|---|---|---|
| server_src/server_core.py:126 | `self.model.train(training_data)` passes only the prices, but `ModelEngine.train` at server_src/model_engine.py:78 requires `prices_list` and `timestamps_list`, so the call raises `TypeError` and TRAIN always answers an error | a store holding 4100 ticks, then `{"type": "TRAIN"}` | fetch the timestamps of the same recent ticks and call `train(prices, timestamps)`, whose result is `{"status": "ok", "val_loss": …}` | not executed | ServerCore.TrainAsWiredNeverTrains | ServerCore.FixedTrainTrains |
| main.py:72-79 | the log line formatting `data_list[-1][0]` with `:.0f` runs after `COMMIT` inside the `try`, so when it raises the committed batch is reported as 0 | `{"type": "FEED_DATA", "data": [[null, 1]]}` | report `len(data_list)` once the transaction has committed | not executed | Legacy.SaveAsWrittenMisreports | Legacy.SaveFixedCounts |

In `ServerCore`, `Dispatch` stays parametric in the model's `train`.
`ServerCore.EngineTrainAsCalled` is the call as written. The corrected
handler is `ServerCore.TrainResponseFixed`. The legacy store,
`Legacy.FastBrain.SaveBulkData`, and `Legacy.LineSpec` follow `main.py` as
written (`Legacy.SaveAsWritten`). `Legacy.SaveFixed` is the corrected save,
and `Legacy.SaveFixedCounts` proves that it reports exactly the rows it
added.
