/** The main loop: every pass reads the monotonic clock and, once at least
    `update_interval` seconds have passed since the last successful
    acquisition, collects a reading; `last_update` moves forward only when the
    collection succeeded, so a failed one is retried on the next pass. */
module Scheduler {
  import opened Sensor
  import opened Window
  import opened Telemetry

  /** `update_interval`: five minutes, in seconds. */
  const UpdateInterval: real := 300.0

  /** An acquisition is attempted when `current_time - last_update >= update_interval`. */
  predicate Due(now: real, lastUpdate: real) {
    now - lastUpdate >= UpdateInterval
  }

  /** What one pass of the loop observes from outside: the monotonic clock,
      the wall clock `time.time()` would return after a read, and what the
      sensor read would produce if it were made. */
  datatype Input = Input(now: real, wallClock: int, read: ReadResult)

  /** The loop's state: `last_update` and every acquisition stored so far. */
  datatype State = State(lastUpdate: real, log: seq<Sample>)

  /** `last_update = 0` and an empty store. */
  const Start: State := State(0.0, [])

  /** One pass of the loop: the store keeps what it had and gains at most one
      sample, and it gains one exactly when the pass is due and its read
      succeeded; `last_update` can only move to the time of this pass. */
  function Step(st: State, t: Input): (r: State)
    ensures |st.log| <= |r.log| <= |st.log| + 1 && r.log[..|st.log|] == st.log
    ensures |r.log| == |st.log| + 1 <==> Due(t.now, st.lastUpdate) && t.read.Measured?
    ensures r.lastUpdate == st.lastUpdate || r.lastUpdate == t.now
  {
    if Due(t.now, st.lastUpdate) && t.read.Measured? then
      State(t.now, st.log + [Sample(t.wallClock, t.read.reading)])
    else
      st
  }

  /** The passes `ts`, in order: at most one new sample per pass. */
  function Run(st: State, ts: seq<Input>): (r: State)
    ensures |st.log| <= |r.log| <= |st.log| + |ts|
    decreases |ts|
  {
    if ts == [] then st else Step(Run(st, ts[..|ts| - 1]), ts[|ts| - 1])
  }

  /** The samples stored by the passes `ts` whose read succeeded, in order. */
  function Successes(ts: seq<Input>): seq<Sample>
    decreases |ts|
  {
    if ts == [] then []
    else
      var t := ts[|ts| - 1];
      Successes(ts[..|ts| - 1]) + if t.read.Measured? then [Sample(t.wallClock, t.read.reading)] else []
  }

  /** Every pass comes at least one interval after the one before it, and the
      first at least one interval after `lastUpdate`. */
  predicate Spaced(lastUpdate: real, ts: seq<Input>) {
    && (|ts| > 0 ==> Due(ts[0].now, lastUpdate))
    && forall i :: 0 < i < |ts| ==> Due(ts[i].now, ts[i - 1].now)
  }

  lemma SpacedPrefix(lastUpdate: real, ts: seq<Input>)
    requires Spaced(lastUpdate, ts) && ts != []
    ensures Spaced(lastUpdate, ts[..|ts| - 1])
  {
    var p := ts[..|ts| - 1];
    forall i | 0 < i < |p| ensures Due(p[i].now, p[i - 1].now) {
      assert p[i] == ts[i] && p[i - 1] == ts[i - 1];
    }
  }

  /** A failed attempt leaves the state alone, so with a clock that does not go
      backwards the very next pass attempts again. */
  lemma FailureRetriedNextPass(st: State, t: Input, u: Input)
    requires Due(t.now, st.lastUpdate) && t.read.ReadFailed?
    requires t.now <= u.now
    ensures Step(st, t) == st
    ensures Due(u.now, Step(st, t).lastUpdate)
  {
  }

  /** After a successful attempt at time `t.now` the next attempt waits for a full interval. */
  lemma SuccessWaitsInterval(st: State, t: Input, u: Input)
    requires Due(t.now, st.lastUpdate) && t.read.Measured?
    ensures Step(st, t).log == st.log + [Sample(t.wallClock, t.read.reading)]
    ensures Due(u.now, Step(st, t).lastUpdate) <==> u.now >= t.now + UpdateInterval
  {
  }

  /** Whatever the clock does, the store only grows, `last_update` is its
      start value or the time of some pass, and every stored acquisition
      accounts for a full interval between the start value and the final
      `last_update`: at most one acquisition per interval. */
  lemma {:induction false} RunRateLimit(st: State, ts: seq<Input>)
    ensures |Run(st, ts).log| >= |st.log| && Run(st, ts).log[..|st.log|] == st.log
    ensures UpdateInterval * ((|Run(st, ts).log| - |st.log|) as real) <= Run(st, ts).lastUpdate - st.lastUpdate
    ensures Run(st, ts).lastUpdate == st.lastUpdate || exists i :: 0 <= i < |ts| && Run(st, ts).lastUpdate == ts[i].now
    decreases |ts|
  {
    if ts != [] {
      var p := ts[..|ts| - 1];
      RunRateLimit(st, p);
      var mid := Run(st, p);
      if Run(st, ts) != mid {
        assert Run(st, ts).lastUpdate == ts[|ts| - 1].now;
        assert Run(st, ts).log == mid.log + [Sample(ts[|ts| - 1].wallClock, ts[|ts| - 1].read.reading)];
      } else if mid.lastUpdate != st.lastUpdate {
        var i :| 0 <= i < |p| && mid.lastUpdate == p[i].now;
        assert ts[i] == p[i];
      }
    }
  }

  /** From power-on (`last_update = 0`), no acquisition happens before the
      monotonic clock reaches one full interval. */
  lemma NoAcquisitionBeforeFirstInterval(ts: seq<Input>)
    requires forall i :: 0 <= i < |ts| ==> ts[i].now < UpdateInterval
    ensures Run(Start, ts).log == []
  {
    RunRateLimit(Start, ts);
  }

  /** When passes are at least one interval apart, every pass attempts an
      acquisition (the pass at index `i` is due in the state the passes before
      it leave), the store gains exactly the successful ones in order, and a
      failure costs only its own sample. */
  lemma {:induction false} SpacedPassesStoreEverySuccess(st: State, ts: seq<Input>)
    requires Spaced(st.lastUpdate, ts)
    ensures Run(st, ts).log == st.log + Successes(ts)
    ensures Run(st, ts).lastUpdate <= if ts == [] then st.lastUpdate else ts[|ts| - 1].now
    ensures forall i :: 0 <= i < |ts| ==> Due(ts[i].now, Run(st, ts[..i]).lastUpdate)
    decreases |ts|
  {
    if ts != [] {
      var p := ts[..|ts| - 1];
      SpacedPrefix(st.lastUpdate, ts);
      SpacedPassesStoreEverySuccess(st, p);
      var t := ts[|ts| - 1];
      assert Due(t.now, Run(st, p).lastUpdate) by {
        if |ts| > 1 {
          assert Due(ts[|ts| - 1].now, ts[|ts| - 2].now);
          assert p[|p| - 1] == ts[|ts| - 2];
        }
      }
      forall i | 0 <= i < |ts| ensures Due(ts[i].now, Run(st, ts[..i]).lastUpdate) {
        if i < |p| {
          assert ts[..i] == p[..i] && ts[i] == p[i];
        } else {
          assert ts[..i] == p;
        }
      }
      assert st.log + Successes(ts) == (st.log + Successes(p)) +
        (if t.read.Measured? then [Sample(t.wallClock, t.read.reading)] else []);
    }
  }

  /** Passes whose reads all succeed store one sample each. */
  lemma {:induction false} AllMeasuredCount(ts: seq<Input>)
    requires forall i :: 0 <= i < |ts| ==> ts[i].read.Measured?
    ensures |Successes(ts)| == |ts|
    decreases |ts|
  {
    if ts != [] {
      var p := ts[..|ts| - 1];
      assert forall i :: 0 <= i < |p| ==> p[i] == ts[i];
      AllMeasuredCount(p);
    }
  }

  /** Passes in which exactly the read at position `k` fails store one sample
      fewer than there are passes. */
  lemma {:induction false} OneFailureCount(ts: seq<Input>, k: nat)
    requires k < |ts| && ts[k].read.ReadFailed?
    requires forall i :: 0 <= i < |ts| && i != k ==> ts[i].read.Measured?
    ensures |Successes(ts)| == |ts| - 1
    decreases |ts|
  {
    var p := ts[..|ts| - 1];
    assert forall i :: 0 <= i < |p| ==> p[i] == ts[i];
    if k == |ts| - 1 {
      AllMeasuredCount(p);
    } else {
      OneFailureCount(p, k);
    }
  }

  /** Ten attempts one interval apart, the fifth of which fails: the store
      holds the nine others, and `last_update` is the tenth pass's time. */
  lemma FailureIsolation(st: State, ts: seq<Input>)
    requires |ts| == 10 && Spaced(st.lastUpdate, ts)
    requires ts[4].read.ReadFailed? && forall i :: 0 <= i < 10 && i != 4 ==> ts[i].read.Measured?
    ensures |Run(st, ts).log| == |st.log| + 9
    ensures Run(st, ts).lastUpdate == ts[9].now
  {
    SpacedPassesStoreEverySuccess(st, ts);
    OneFailureCount(ts, 4);
    var p := ts[..9];
    SpacedPrefix(st.lastUpdate, ts);
    SpacedPassesStoreEverySuccess(st, p);
    assert Due(ts[9].now, ts[8].now);
    assert p[8] == ts[8];
  }

  /** The `while True` loop of the monitor, with the store it fills. */
  class Monitor {
    const store: TelemetryStore
    var lastUpdate: real

    ghost predicate Valid()
      reads this, store
    {
      store.Valid()
    }

    /** `last_update` and the store's record of acquisitions. */
    ghost function Observed(): State
      reads this, store
    {
      State(lastUpdate, store.log)
    }

    /** `last_update = 0`, with the store as module initialisation left it. */
    constructor (store: TelemetryStore)
      requires store.Valid()
      ensures Valid() && this.store == store && lastUpdate == 0.0
    {
      this.store := store;
      lastUpdate := 0.0;
    }

    /** One pass of the loop body before `server.poll()`; `attempted` tells
        whether `collect_sensor_data` was called. */
    method Tick(now: real, wallClock: int, read: ReadResult) returns (attempted: bool)
      requires Valid()
      modifies this, store
      ensures Valid()
      ensures attempted == Due(now, old(lastUpdate))
      ensures Observed() == Step(old(Observed()), Input(now, wallClock, read))
      ensures !attempted ==> unchanged(store)
    {
      attempted := now - lastUpdate >= UpdateInterval;
      if attempted {
        var ok := store.Collect(read, wallClock);
        if ok {
          lastUpdate := now;
        }
      }
    }

    /** The passes `inputs` of the loop, in order. */
    method Loop(inputs: seq<Input>)
      requires Valid()
      modifies this, store
      ensures Valid()
      ensures Observed() == Run(old(Observed()), inputs)
    {
      for i := 0 to |inputs|
        invariant Valid()
        invariant Observed() == Run(old(Observed()), inputs[..i])
      {
        var _ := Tick(inputs[i].now, inputs[i].wallClock, inputs[i].read);
        assert inputs[..i + 1][..i] == inputs[..i];
      }
      assert inputs[..|inputs|] == inputs;
    }
  }
}
