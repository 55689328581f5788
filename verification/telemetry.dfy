/** The monitor's telemetry store: the module-level `current_data` record and
    the `history` table of seven bounded deques (one of timestamps, one per
    measured quantity), the acquisition step that fills them, and the
    read-only snapshot the `/api/data` route serves. */
module Telemetry {
  import opened Sensor
  import opened Window

  /** Maximum length of every history deque: one hour at one point per five minutes. */
  const MaxHistory: nat := 12

  /** One successful acquisition: the wall-clock time it was stored at and its reading. */
  datatype Sample = Sample(timestamp: int, reading: Reading)

  /** The `history` part of a snapshot: one list per deque, oldest first. */
  datatype History = History(
    timestamps: seq<int>,
    temperature: seq<real>,
    humidity: seq<real>,
    pm25: seq<real>,
    pm10: seq<real>,
    voc: seq<real>,
    nox: seq<real>
  )
  {
    /** The list of value channel `c`. */
    function Column(c: Channel): seq<real> {
      match c
      case Temperature => temperature
      case Humidity => humidity
      case Pm25 => pm25
      case Pm10 => pm10
      case Voc => voc
      case Nox => nox
    }

    /** Every list has as many entries as the timestamp list. */
    predicate Aligned() {
      forall c: Channel :: |Column(c)| == |timestamps|
    }
  }

  /** What `/api/data` returns: the current reading and the history lists. */
  datatype Snapshot = Snapshot(current: Reading, history: History)

  /** The timestamps of the samples `w`, in order. */
  function Timestamps(w: seq<Sample>): seq<int> {
    seq(|w|, i requires 0 <= i < |w| => w[i].timestamp)
  }

  /** The values of channel `c` in the samples `w`, in order. */
  function Values(w: seq<Sample>, c: Channel): seq<real> {
    seq(|w|, i requires 0 <= i < |w| => w[i].reading.Get(c))
  }

  /** The history lists that hold exactly the samples `w`, column by column. */
  function HistoryOf(w: seq<Sample>): History {
    History(Timestamps(w), Values(w, Temperature), Values(w, Humidity), Values(w, Pm25),
            Values(w, Pm10), Values(w, Voc), Values(w, Nox))
  }

  /** Position `i` of every list of an aligned history, read back as one sample. */
  function Rows(h: History): (w: seq<Sample>)
    requires h.Aligned()
    ensures |w| == |h.timestamps|
  {
    assert forall c: Channel :: |h.Column(c)| == |h.timestamps|;
    assert |h.temperature| == |h.humidity| == |h.pm25| == |h.pm10| == |h.voc| == |h.nox| == |h.timestamps| by {
      assert |h.Column(Temperature)| == |h.Column(Humidity)| == |h.Column(Pm25)| == |h.timestamps|;
      assert |h.Column(Pm10)| == |h.Column(Voc)| == |h.Column(Nox)| == |h.timestamps|;
    }
    seq(|h.timestamps|, i requires 0 <= i < |h.timestamps| =>
      Sample(h.timestamps[i], Reading(h.temperature[i], h.humidity[i], h.pm25[i],
                                      h.pm10[i], h.voc[i], h.nox[i])))
  }

  /** Splitting samples into columns and reading the rows back gives the samples:
      position i of every list refers to the same acquisition. */
  lemma RowsOfHistory(w: seq<Sample>)
    ensures HistoryOf(w).Aligned()
    ensures Rows(HistoryOf(w)) == w
  {
    var h := HistoryOf(w);
    assert h.Aligned() by {
      forall c: Channel ensures |h.Column(c)| == |h.timestamps| {
        match c
        case Temperature =>
        case Humidity =>
        case Pm25 =>
        case Pm10 =>
        case Voc =>
        case Nox =>
      }
    }
    forall i | 0 <= i < |w| ensures Rows(h)[i] == w[i] {
      ReadingByChannels(Rows(h)[i].reading, w[i].reading);
    }
  }

  /** Conversely, an aligned history is the column split of its rows. */
  lemma HistoryOfRows(h: History)
    requires h.Aligned()
    ensures HistoryOf(Rows(h)) == h
  {
    var w := Rows(h);
    assert |h.temperature| == |h.humidity| == |h.pm25| == |h.pm10| == |h.voc| == |h.nox| == |w| by {
      assert |h.Column(Temperature)| == |h.Column(Humidity)| == |h.Column(Pm25)| == |h.timestamps|;
      assert |h.Column(Pm10)| == |h.Column(Voc)| == |h.Column(Nox)| == |h.timestamps|;
    }
    assert Timestamps(w) == h.timestamps;
    assert Values(w, Temperature) == h.temperature;
    assert Values(w, Humidity) == h.humidity;
    assert Values(w, Pm25) == h.pm25;
    assert Values(w, Pm10) == h.pm10;
    assert Values(w, Voc) == h.voc;
    assert Values(w, Nox) == h.nox;
  }

  /** The samples the deques retain out of everything recorded so far. */
  function Retained(log: seq<Sample>): seq<Sample> {
    LastN(log, MaxHistory)
  }

  /** What `current_data` holds after the acquisitions `log`. */
  function Latest(log: seq<Sample>): Reading {
    if log == [] then Zero else log[|log| - 1].reading
  }

  /** Taking timestamps commutes with a bounded append. */
  lemma TimestampsAppend(w: seq<Sample>, s: Sample, n: nat)
    ensures Timestamps(BoundedAppend(w, s, n)) == BoundedAppend(Timestamps(w), s.timestamp, n)
  {
    var u := w + [s];
    assert Timestamps(u) == Timestamps(w) + [s.timestamp];
    if |u| > n {
      assert Timestamps(u[|u| - n..]) == Timestamps(u)[|u| - n..];
    }
  }

  /** Taking the values of a channel commutes with a bounded append. */
  lemma ValuesAppend(w: seq<Sample>, s: Sample, n: nat, c: Channel)
    ensures Values(BoundedAppend(w, s, n), c) == BoundedAppend(Values(w, c), s.reading.Get(c), n)
  {
    var u := w + [s];
    assert Values(u, c) == Values(w, c) + [s.reading.Get(c)];
    if |u| > n {
      assert Values(u[|u| - n..], c) == Values(u, c)[|u| - n..];
    }
  }

  /** The history lists after `append` of the sample `s` to each deque of `h`. */
  function Push(h: History, s: Sample): History {
    History(BoundedAppend(h.timestamps, s.timestamp, MaxHistory),
            BoundedAppend(h.temperature, s.reading.temperature, MaxHistory),
            BoundedAppend(h.humidity, s.reading.humidity, MaxHistory),
            BoundedAppend(h.pm25, s.reading.pm25, MaxHistory),
            BoundedAppend(h.pm10, s.reading.pm10, MaxHistory),
            BoundedAppend(h.voc, s.reading.voc, MaxHistory),
            BoundedAppend(h.nox, s.reading.nox, MaxHistory))
  }

  /** Appending a sample to every deque keeps each deque equal to its column of
      the last 12 samples recorded. */
  lemma PushRetained(log: seq<Sample>, s: Sample)
    ensures Push(HistoryOf(Retained(log)), s) == HistoryOf(Retained(log + [s]))
  {
    var w := Retained(log);
    LastNAppend(log, s, MaxHistory);
    TimestampsAppend(w, s, MaxHistory);
    ValuesAppend(w, s, MaxHistory, Temperature);
    ValuesAppend(w, s, MaxHistory, Humidity);
    ValuesAppend(w, s, MaxHistory, Pm25);
    ValuesAppend(w, s, MaxHistory, Pm10);
    ValuesAppend(w, s, MaxHistory, Voc);
    ValuesAppend(w, s, MaxHistory, Nox);
  }

  /** Each deque holds the last min(M, 12) of the M values appended to it, in
      append order: what a deque created empty with maximum length 12 holds
      after those appends. */
  lemma {:induction false} ChannelsKeepNewest(log: seq<Sample>, c: Channel)
    ensures Values(Retained(log), c) == LastN(Values(log, c), MaxHistory)
    ensures Values(Retained(log), c) == AppendAll([], Values(log, c), MaxHistory)
    ensures Timestamps(Retained(log)) == LastN(Timestamps(log), MaxHistory)
    ensures Timestamps(Retained(log)) == AppendAll([], Timestamps(log), MaxHistory)
  {
    if |log| > MaxHistory {
      var k := |log| - MaxHistory;
      assert Values(log[k..], c) == Values(log, c)[k..];
      assert Timestamps(log[k..]) == Timestamps(log)[k..];
    }
    AppendAllFromEmpty(Values(log, c), MaxHistory);
    AppendAllFromEmpty(Timestamps(log), MaxHistory);
  }

  /** Thirteen acquisitions stamped 0, 300, ..., 3600: the thirteenth evicts
      the first, leaving the twelve timestamps 300 to 3600. */
  lemma ThirteenthEvictsFirst(log: seq<Sample>)
    requires |log| == 13 && forall i :: 0 <= i < 13 ==> log[i].timestamp == 300 * i
    ensures Timestamps(Retained(log)) ==
      [300, 600, 900, 1200, 1500, 1800, 2100, 2400, 2700, 3000, 3300, 3600]
  {
    var t := Timestamps(Retained(log));
    assert Retained(log) == log[1..];
    forall j | 0 <= j < 12 ensures t[j] == 300 * (j + 1) {
      assert log[1..][j] == log[j + 1];
    }
  }

  /** The module-level `current_data` and `history` of the monitor. Each
      history deque is kept as the list of its elements, oldest first. */
  class TelemetryStore {
    var current: Reading
    var timestamps: seq<int>
    var temperature: seq<real>
    var humidity: seq<real>
    var pm25: seq<real>
    var pm10: seq<real>
    var voc: seq<real>
    var nox: seq<real>
    ghost var log: seq<Sample>  // every successful acquisition so far, in order

    /** The seven deques as lists, oldest first. */
    function Contents(): History
      reads this
    {
      History(timestamps, temperature, humidity, pm25, pm10, voc, nox)
    }

    /** Every deque holds its column of the last 12 acquisitions, and
        `current_data` holds the latest reading (zeros before the first). */
    ghost predicate Valid()
      reads this
    {
      && Contents() == HistoryOf(Retained(log))
      && current == Latest(log)
    }

    /** The initial `current_data` (all zeros) and seven empty deques of maximum length 12. */
    constructor ()
      ensures Valid()
      ensures log == [] && current == Zero
      ensures GetData() == Snapshot(Zero, History([], [], [], [], [], [], []))
    {
      current := Zero;
      timestamps, temperature, humidity, pm25, pm10, voc, nox := [], [], [], [], [], [], [];
      log := [];
    }

    /** Overwrite `current_data` with `reading` and append the timestamp and
        the six values to their deques. */
    method Record(timestamp: int, reading: Reading)
      requires Valid()
      modifies this
      ensures Valid()
      ensures log == old(log) + [Sample(timestamp, reading)]
      ensures current == reading
      ensures Contents() == Push(old(Contents()), Sample(timestamp, reading))
    {
      var s := Sample(timestamp, reading);
      PushRetained(log, s);
      current := reading;
      timestamps := BoundedAppend(timestamps, timestamp, MaxHistory);
      temperature := BoundedAppend(temperature, reading.temperature, MaxHistory);
      humidity := BoundedAppend(humidity, reading.humidity, MaxHistory);
      pm25 := BoundedAppend(pm25, reading.pm25, MaxHistory);
      pm10 := BoundedAppend(pm10, reading.pm10, MaxHistory);
      voc := BoundedAppend(voc, reading.voc, MaxHistory);
      nox := BoundedAppend(nox, reading.nox, MaxHistory);
      log := log + [s];
    }

    /** `collect_sensor_data`: `read` is what the sensor call produced and
        `wallClock` what `time.time()` returns right after it. On success the
        reading is recorded and the result is true; on failure nothing changes
        and the result is false. */
    method Collect(read: ReadResult, wallClock: int) returns (ok: bool)
      requires Valid()
      modifies this
      ensures Valid()
      ensures ok == read.Measured?
      ensures ok ==> log == old(log) + [Sample(wallClock, read.reading)] && current == read.reading
      ensures !ok ==> unchanged(this)
    {
      match read
      case ReadFailed =>
        ok := false;
      case Measured(reading) =>
        Record(wallClock, reading);
        ok := true;
    }

    /** The document `/api/data` serves: `current_data` and every deque as a
        list, oldest first. */
    function GetData(): (snap: Snapshot)
      requires Valid()
      reads this
      ensures snap.current == Latest(log)
      ensures snap.history == HistoryOf(Retained(log))
      ensures snap.history.Aligned() && |snap.history.timestamps| == Min(|log|, MaxHistory)
      ensures Rows(snap.history) == log[|log| - Min(|log|, MaxHistory)..]
    {
      RowsOfHistory(Retained(log));
      LastNSuffix(log, MaxHistory);
      Snapshot(current, Contents())
    }
  }
}
