# SEN55 environmental monitor: telemetry store and acquisition loop

A model in Dafny of the core of a CircuitPython program. The program samples a
Sensirion SEN55 sensor every five minutes. It keeps the latest reading and the last
hour of readings in memory, and serves both as JSON from `/api/data`.

The model covers three things.

- **The telemetry store**, in `telemetry.dfy`. This is the module-level `current_data`
  record plus the `history` table. The table holds seven `collections.deque`s of
  maximum length `MAX_HISTORY = 12`: one of `time.time()` timestamps, and one each for
  temperature, humidity, PM2.5, PM10, VOC index and NOx index.
  - `collect_sensor_data` becomes `TelemetryStore.Collect`. It either records a
    reading or changes nothing.
  - The part of it that stores the reading becomes `TelemetryStore.Record`.
  - The `/api/data` handler `get_data` becomes the read-only function
    `TelemetryStore.GetData`.
  - The store carries a ghost log of every successful acquisition. Its invariant
    says that each of the seven lists is the matching column of the last 12 log
    entries, and that `current_data` is the newest reading (zeros before the first).
    This is the cross-channel alignment: position *i* of every list comes from the
    same acquisition.
- **Deque semantics**, in `window.dfy`. This is what `append` does to a deque created
  with a maximum length: below the maximum it adds at the new end; at the maximum it
  drops the oldest element first. After any sequence of appends, the deque holds the
  newest min(M, 12) elements in append order.
- **The main loop**, in `scheduler.dfy`. A pass attempts an acquisition exactly when
  `current_time - last_update >= update_interval` (300 s). `last_update` becomes
  `current_time` only when the acquisition succeeded, so a failure is retried on the
  next pass. `Step` and `Run` give the loop's meaning as functions. The `Monitor`
  class carries the loop's state, and its methods `Tick` and `Loop` are proved
  against those functions.

`sensor.dfy` defines the reading. It also models the outcome of `sen55_read_data` as
a value: the six decoded numbers, or a failure.

Inputs from the environment become parameters:
- the monotonic clock `time.monotonic()`, as a `real`;
- the wall clock `time.time()`, as an `int`;
- the outcome of the sensor read.

## Model

| member | source | states |
|---|---|---|
| `Window.BoundedAppend` | code.py:60-66 | the contents of a deque created with a maximum length after one `append`: the last n elements of the old contents with the new element added at the end (its cases are stated by `Window.BoundedAppendCases`) |
| `Window.BoundedAppendCases` | code.py:60-66 | appending to a deque below its maximum length adds the element at the new end; appending to a full one drops the oldest and adds the new one at the new end; a deque of maximum length 0 stays empty; the length afterwards is min(old length + 1, maximum) |
| `Window.LastNAppend` | code.py:141-147 | a deque that already holds only the newest n elements, after one more append, holds the newest n of the whole appended sequence |
| `Window.AppendAllKeepsNewest` | code.py:60-66 | appending a sequence of elements one by one to a deque of maximum length n leaves it holding the last n elements of everything appended, in append order |
| `Window.AppendAllFromEmpty` | code.py:58-67 | a deque created empty holds, after M appends, exactly the last min(M, n) appended elements in order, and its length is min(M, n) |
| `Telemetry.RowsOfHistory` | code.py:141-147 | splitting a list of acquisitions into the seven columns gives lists of equal length, and reading position i of every column back yields acquisition i itself |
| `Telemetry.HistoryOfRows` | code.py:172-183 | conversely, seven lists of equal length are the column split of the acquisitions read back from them |
| `Telemetry.Push` | code.py:141-147 | the seven history lists after the seven appends of one acquisition: each list gets a bounded append, maximum 12, of the timestamp or of its channel's value (its meaning on the retained log is stated by `Telemetry.PushRetained`) |
| `Telemetry.PushRetained` | code.py:141-147 | appending the new timestamp and the six new values to their deques turns the columns of the last 12 acquisitions into the columns of the last 12 acquisitions including the new one |
| `Telemetry.ChannelsKeepNewest` | code.py:58-67 | each value deque and the timestamp deque hold the last min(M, 12) of the M values appended to them, in append order, the same as a deque of maximum length 12 after those appends |
| `Telemetry.ThirteenthEvictsFirst` | code.py:140-147 | after thirteen acquisitions stamped 0, 300, ..., 3600, the timestamp list is 300, 600, ..., 3600 (the first has been evicted) |
| `Telemetry.TelemetryStore.constructor` | code.py:58-76 | initially `current_data` is all zeros, the log is empty, and the snapshot has zero current values and seven empty history lists |
| `Telemetry.TelemetryStore.Record` | code.py:131-147 | `current_data` becomes the new reading, each of the seven deques gets a bounded append of its value, the log gains the acquisition, and the alignment invariant is kept |
| `Telemetry.TelemetryStore.Collect` | code.py:126-153 | the result is true exactly when the sensor read succeeded; then the reading and its timestamp are recorded and `current_data` holds the six returned values; on failure neither `current_data` nor any deque changes |
| `Telemetry.TelemetryStore.GetData` | code.py:170-183 | reads and never changes the store; `current` is the latest reading (zeros before the first); the history lists are the columns of the last 12 acquisitions, oldest first, all of length min(M, 12), and row i of them is the i-th retained acquisition |
| `Scheduler.Due` | code.py:209 | a pass attempts an acquisition when the monotonic time minus `last_update` is at least `update_interval`, 300 s |
| `Scheduler.Step` | code.py:206-211 | one pass: the store keeps what it had and gains at most one sample; it gains one exactly when the pass is due and its read succeeded; `last_update` either stays or becomes the time of this pass |
| `Scheduler.Run` | code.py:205-211 | the passes in order, each a `Step` of the state the earlier ones left; the store never shrinks and gains at most one sample per pass |
| `Scheduler.FailureRetriedNextPass` | code.py:205-211 | a failed attempt leaves `last_update` and the store unchanged, so with a clock that does not go backwards the next pass attempts again |
| `Scheduler.SuccessWaitsInterval` | code.py:209-211 | after a successful attempt at time t the sample is stored, and the next attempt happens exactly at passes whose time is at least t + 300 |
| `Scheduler.RunRateLimit` | code.py:202-211 | over any sequence of passes the store only grows; `last_update` is its start value or the time of some pass; 300 times the number of acquisitions is at most how far `last_update` moved, so there is at most one acquisition per interval |
| `Scheduler.NoAcquisitionBeforeFirstInterval` | code.py:202-209 | starting from `last_update = 0`, no acquisition happens while the monotonic clock is below 300 |
| `Scheduler.SpacedPassesStoreEverySuccess` | code.py:205-211 | when passes are at least 300 s apart, every pass is due in the state the passes before it leave, so every pass attempts; the store gains exactly the successful reads in order, and `last_update` is at most the time of the last pass |
| `Scheduler.FailureIsolation` | code.py:205-211 | ten attempts 300 s apart of which only the fifth fails store nine acquisitions and end with `last_update` at the tenth pass |
| `Scheduler.Monitor.constructor` | code.py:202-203 | the loop starts with `last_update = 0` over an initialised store |
| `Scheduler.Monitor.Tick` | code.py:205-211 | attempts an acquisition if and only if `now - last_update >= 300`; the new `last_update` and store are one `Step` of the old ones; a pass that does not attempt leaves the store untouched |
| `Scheduler.Monitor.Loop` | code.py:205-214 | running the loop over a finite sequence of passes leaves `last_update` and the store equal to `Run` over those passes |

## Left out

- The body of `sen55_read_data` (code.py:78-112) is not modelled. Its outcome is a parameter: six values, or a failure raised before anything is stored. The body does the following:
  - calls the Sensirion driver library (start, read of values and device status, stop), which is not part of this model;
  - sleeps 3 s and prints progress messages;
  - runs three rounds of wait-then-read, so the values returned are those of the third round (code.py:86-98);
  - takes the six quantities from the library's already decoded value objects (code.py:103-110); there is no decoding step in code.py itself.
- The wait loop at code.py:89-90 is left out. It is in code.py itself, polls the library's `read_data_ready` every 0.1 s and has no limit on the number of polls. A sensor that never reports data ready would therefore hang the main loop forever. `ReadResult` has no value for that outcome, so the model only describes passes whose read finishes, successfully or with an exception.
- `update_display` (code.py:114-124), the labels, and the sensor-initialisation status texts (code.py:188-195) are display output with floating-point formatting. They are not modelled. `Collect` therefore assumes that `update_display` does not raise. If it did raise, `collect_sensor_data` would return `False` after the store was already updated, and the next pass would record again.
- WiFi, the HTTP server, its routes, `json.dumps` and `server.poll()` (code.py:155-167, 184-186, 197-199, 214) are network I/O. They are not modelled. The snapshot is a structured value, not JSON text.
- The main loop has no exception guard (code.py:205-214). An exception escaping `server.poll()` would end the program. Because `poll` is left out, this is not modelled.
- `Scheduler.Monitor.Loop` covers a finite prefix of the `while True` loop, because an infinite loop cannot be given a terminating model.
- Numbers are exact. Sensor values and the monotonic clock are Dafny `real`s, not floats, so the model does not capture float rounding or the precision CircuitPython's `time.monotonic()` loses over long uptimes. The initial `current_data` values are the integer `0` in the source and are modelled as `0.0`, so the JSON `0` versus `0.0` difference is not modelled. `time.time()` timestamps are integers.
- Python's `deque` is modelled by its contents (a list, oldest first) and the `BoundedAppend` function. The in-place ring-buffer storage inside the deque implementation is not modelled.
- `static/script.js` is the browser page that draws charts from `/api/data`. It is not modelled.
