# MeasureTime: the split/lap time ledger of debuglog

This project models `MeasureTime` from `debuglog/measuretime.py` in Dafny and proves properties of the model. `MeasureTime` is a timing helper. Each instance holds a start instant and an append-only list of split records. A split record (`Splittime`) is an event label, or `None`, paired with the time elapsed from the start.

- `record_split` appends a record for the current instant and returns it.
- `record_restart` moves the start to the current instant and empties the list.
- `end` is the instant of the last record, or the start when there is none.
- `totaltime` is `end - start`.
- `get_splittime` yields the stored records in order.
- `get_laptime` yields one lap record (`Laptime`) per split record.
- Every instance takes a fresh id from a class-wide counter.

Everything is in `measuretime.dfy`, module `Measuretime`:

- `datetime` and `timedelta` values are whole microseconds (`Instant` and `Duration`, both `int`).
- The wall clock `dt.now()` becomes a `now` parameter of the constructor, `RecordSplit` and `RecordRestart`. The model puts no constraint on `now`, because the wall clock may run backwards.
- The class counter `__leatest_id` is the class `IdSource`. It keeps a ghost set of the ids it has handed out. The `MeasureTime` constructor takes the `IdSource` to draw from.
- The instance is the class `MeasureTime`. Its fields are `id`, `name`, `start` and `splittimes`, where `splittimes` is a `seq` that the methods reassign. The `start` property is the `start` field itself.
- `end` and `totaltime` are the functions `End()` and `TotalTime()`. `get_splittime` is the function `GetSplittime()`.
- `get_laptime` is the method `GetLaptime`. Its loop keeps the accumulator `prev`, and it is proved equal to the function `Laps`, which follows the same recurrence (`LapsFrom`).

Where the code and its documentation disagree, the model follows the code:

- **`name` is always the id.** Line 36 assigns the id whether or not a name is passed (`NameFor`). One might expect the name to fall back to the id only when none is given.
- **Only the first two laps are intervals.** Lines 115-119 add each split time into the accumulator (`prev += splt.time`). So lap `i` is split `i` minus the sum of all earlier splits. The doc comment at lines 109-111 says a lap is the time since the previous record. The model computes what the loop computes (`Laps`) and also defines the documented laps (`Intervals`). `LapsVersusIntervals` states exactly where the two agree, and the gap is logged under "## Findings".

## Model

| member | source | states |
|---|---|---|
| `Measuretime.IdSource.constructor` | debuglog/measuretime.py:23 | The class counter starts at 0 and no id has been handed out yet. |
| `Measuretime.IdSource.GetId` | debuglog/measuretime.py:27-31 | Returns the counter's current value and increments the counter by one. The id returned was never handed out before, and it is larger than every earlier id. |
| `Measuretime.MeasureTime.constructor` | debuglog/measuretime.py:33-38 | A new instance takes the next id from the class counter, which advances by one. Its `name` equals that id. Its start is the creation instant and it has no records. |
| `Measuretime.NameFor` | debuglog/measuretime.py:36 | The assigned `name` is the id whatever name argument is passed, `None` or a string. |
| `Measuretime.MeasureTime.End` | debuglog/measuretime.py:45-51 | With no records, `end` is `start`. When records are in time order, `end` is not before `start` and is at least the instant of every record, so it is the latest recorded instant. |
| `Measuretime.EndWithoutSplits` | debuglog/measuretime.py:45-51 | With no records, `end` equals `start` and `totaltime` is zero. |
| `Measuretime.MeasureTime.TotalTime` | debuglog/measuretime.py:53-56 | `totaltime` is zero with no records. Otherwise it is the elapsed time of the last record. |
| `Measuretime.TotalTimeIsLastSplit` | debuglog/measuretime.py:53-56 | `totaltime` equals `end - start`. When records exist, it is the time of the last record that `get_splittime` yields. |
| `Measuretime.TotalTimeBoundsSplits` | debuglog/measuretime.py:53-56 | If record times never decrease and are not negative, `totaltime` is not negative and no record's time exceeds it. |
| `Measuretime.MeasureTime.RecordRestart` | debuglog/measuretime.py:58-66 | After a restart at `now`, the start is `now` and the list is empty. Then `end == start` and `totaltime == 0`. |
| `Measuretime.MeasureTime.RecordSplit` | debuglog/measuretime.py:68-86 | Appends exactly one record `(event, now - start)` and returns that same record. Earlier records and `start` are unchanged. Afterwards `end == now`. If records were in time order and `now` is not before the old `end`, they still are. |
| `Measuretime.MeasureTime.GetSplittime` | debuglog/measuretime.py:88-101 | Yields exactly the stored records in the order they were recorded, events included (`None` too), and changes nothing. |
| `Measuretime.SingleSplitIsTotalTime` | tests/test_measuretime.py:85-89 | After a single record, its split time and its lap time both equal `totaltime`. |
| `Measuretime.MeasureTime.GetLaptime` | debuglog/measuretime.py:103-119 | The loop with its accumulator yields exactly `Laps` of the stored records and changes nothing. |
| `Measuretime.LapsFrom` | debuglog/measuretime.py:115-119 | The loop yields one lap per record, with the same events in the same order. |
| `Measuretime.Laps` | debuglog/measuretime.py:115-119 | What `get_laptime` yields: one lap per record, with the same events in the same order, and the first lap equal to the first split. The general closed form is stated by `LapAt`. |
| `Measuretime.LapsLoopStep` | debuglog/measuretime.py:116-118 | One turn of the loop at record `i` keeps this true: the laps yielded so far, followed by what the loop still yields from record `i` on, make up the whole result. |
| `Measuretime.LapsFromAt` | debuglog/measuretime.py:115-119 | If the accumulator starts at `prev`, lap `i` is split `i` minus `prev` minus the sum of splits `0..i-1`. |
| `Measuretime.LapAt` | debuglog/measuretime.py:115-119 | Lap `i` keeps split `i`'s event. Its time is split `i` minus the sum of all earlier splits. |
| `Measuretime.FirstTwoLaps` | debuglog/measuretime.py:115-119 | Lap 0 is split 0, and lap 1 is split 1 minus split 0. |
| `Measuretime.TwoRecordLaps` | tests/test_measuretime.py:91-98 | Records made at `t1` and then at `t2` have laps `t1 - start` and `t2 - t1`. |
| `Measuretime.Intervals` | debuglog/measuretime.py:109-111 | The laps the doc comment describes: one per record, same events, the first equal to the first split, and each later one being the time from the previous record to this one. `IntervalsSumToSplit` states what they add up to. |
| `Measuretime.IntervalsSumToSplit` | debuglog/measuretime.py:109-111 | The documented laps, each the time since the previous record, add up through index `i` to split `i`. |
| `Measuretime.IntervalsNonNegative` | debuglog/measuretime.py:109-111 | If record times never decrease and are not negative, no documented lap is negative. |
| `Measuretime.LapsVersusIntervals` | debuglog/measuretime.py:115-119 | A computed lap and the documented lap have the same event. For `i >= 2` the computed time is smaller by the sum of splits `0..i-2`. They agree exactly when `i < 2` or that sum is zero. |
| `Measuretime.LapsSumCounterexample` | debuglog/measuretime.py:115-119 | For splits at 1, 2 and 3 µs, the computed laps are 1, 1 and 0, which sum to 2, not 3. The documented laps sum to 3. |
| `Measuretime.NegativeLapCounterexample` | debuglog/measuretime.py:115-119 | For splits at 1, 2 and 2 µs, which are in time order, the third computed lap is negative. |

## Findings

| source | as written | input that shows it | evidently intended | confidence | as-written member | corrected member |
|---|---|---|---|---|---|---|
| debuglog/measuretime.py:115-119 | `prev += splt.time` adds every split time into the accumulator, so lap `i` for `i >= 2` is split `i` minus the sum of all earlier splits | splits at 1, 2 and 3 µs give laps 1, 1 and 0, not 1, 1 and 1; splits at 1, 2 and 2 µs give a lap of -1 | `prev = splt.time`, so that each lap is the time since the previous record, as the doc comment at lines 109-111 says | high; not executed | `Measuretime.LapsSumCounterexample` | `Measuretime.IntervalsSumToSplit` |

`MeasureTime.GetLaptime` follows the code as written, so it yields `Laps`. The corrected definition is `Intervals`, and `IntervalsSumToSplit` and `IntervalsNonNegative` are proved about it.

## Left out

- The wall clock `dt.now()` is not modelled. Each reading is a `now` parameter, with no constraint on how successive readings relate.
- Generator laziness is not modelled. `get_splittime` and `get_laptime` return whole sequences. A live Python generator also sees changes made while it is being consumed, and the model does not capture this. It sees records appended by `record_split`. It also sees the in-place `clear()` of `record_restart` (line 66): it then stops early, or goes on over the records of the new run.
- Range limits are not modelled. In Python, a `datetime` outside years 1 to 9999 raises `OverflowError`. So does a `timedelta` beyond ±999999999 days, such as the accumulator `prev` of `get_laptime` (line 118). Model instants and durations are unbounded integers.
- Sub-microsecond precision is not modelled, because `datetime` has none.
- The class counter belongs to the class in Python. In the model it is an `IdSource` object passed to the constructor. A subclass that shadows the counter is not modelled. The freshness and increasing order that `GetId` proves hold for each `IdSource` separately. Two `IdSource` objects can hand out the same id, which Python's single class counter cannot.
- `name` is a public attribute that callers may reassign. The model only shows the value `__init__` gives it.
- The following are not part of this model, because `debuglog/measuretime.py` does not define them:
  - a registry of named ledgers (`time_record`, `get_measurer` and `pop_measurer`, which `debuglog/__init__.py` imports);
  - conversion to and from rows;
  - plotting;
  - combining two ledgers;
  - a timing decorator.
- The logger factory and formatters in `debuglog/debuglog.py` are not modelled. They are thin wrappers over Python's `logging` library and the file system.
- The `calledlog` decorator is not modelled. Its only effects are log writes and clock reads.
- The command-line log cleaner in `debuglog/__main__.py` is not modelled. It is interactive input and file deletion.
