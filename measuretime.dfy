/**
 A model of `MeasureTime`, the split/lap time ledger of debuglog.

 A ledger holds a start instant and an append-only list of split records,
 each the time elapsed from the start to the moment it was recorded.
 `datetime` instants and `timedelta` durations are whole microseconds, and
 the wall clock becomes a `now` parameter of every operation that reads it.
 */
module Measuretime {

  /** An optional event label; `None` is Python's `None`. */
  datatype Option<T> = None | Some(value: T)

  /** A `datetime`, in microseconds since an arbitrary epoch. */
  type Instant = int

  /** A `timedelta`, in microseconds; Python allows it to be negative. */
  type Duration = int

  /** `MeasureTime.Splittime`: an event and its time since the start. */
  datatype Splittime = Splittime(event: Option<string>, time: Duration)

  /** `MeasureTime.Laptime`: an event and the lap time `get_laptime` gives it. */
  datatype Laptime = Laptime(event: Option<string>, time: Duration)

  // ---------------------------------------------------------------------------
  // Sums and projections
  // ---------------------------------------------------------------------------

  function Sum(xs: seq<int>): int
  {
    if xs == [] then 0 else xs[0] + Sum(xs[1..])
  }

  lemma {:induction false} SumSnoc(xs: seq<int>, x: int)
    ensures Sum(xs + [x]) == Sum(xs) + x
  {
    if xs == [] {
      assert [x][1..] == [];
    } else {
      assert (xs + [x])[1..] == xs[1..] + [x];
      SumSnoc(xs[1..], x);
    }
  }

  /** The durations of a list of split records, in order. */
  function SplitDurations(s: seq<Splittime>): (r: seq<Duration>)
    ensures |r| == |s|
  {
    seq(|s|, i requires 0 <= i < |s| => s[i].time)
  }

  /**
   The durations of a list of lap records, in order. The same projection as
   `SplitDurations`, written again only because `Laptime` is a datatype of
   its own.
   */
  function LapDurations(l: seq<Laptime>): (r: seq<Duration>)
    ensures |r| == |l|
  {
    seq(|l|, i requires 0 <= i < |l| => l[i].time)
  }

  /**
   Split records whose times never decrease and are never negative: what
   the ledger holds when the clock never runs backwards.
   */
  ghost predicate Chronological(s: seq<Splittime>)
  {
    forall i, j :: 0 <= i <= j < |s| ==> 0 <= s[i].time <= s[j].time
  }

  // ---------------------------------------------------------------------------
  // Lap times as `get_laptime` computes them
  // ---------------------------------------------------------------------------

  /**
   The laps the loop of `get_laptime` yields for the records `s` when its
   accumulator `prev` holds `prev` on entry: each lap is the record's time
   minus the accumulator, and the accumulator then grows by the record's
   time.
   */
  function LapsFrom(s: seq<Splittime>, prev: Duration): (r: seq<Laptime>)
    ensures |r| == |s|
    ensures forall i :: 0 <= i < |s| ==> r[i].event == s[i].event
  {
    if s == [] then []
    else [Laptime(s[0].event, s[0].time - prev)] + LapsFrom(s[1..], prev + s[0].time)
  }

  /**
   One turn of the loop of `get_laptime`, at record `i`: what is yielded so
   far followed by what the rest of the loop yields stays the whole result.
   */
  lemma LapsLoopStep(s: seq<Splittime>, i: nat, prev: Duration, laps: seq<Laptime>, whole: seq<Laptime>)
    requires i < |s|
    requires laps + LapsFrom(s[i..], prev) == whole
    ensures (laps + [Laptime(s[i].event, s[i].time - prev)]) + LapsFrom(s[i + 1..], prev + s[i].time) == whole
  {
    assert s[i..][1..] == s[i + 1..];
  }

  /** The laps `get_laptime` yields: its accumulator starts at zero. */
  function Laps(s: seq<Splittime>): (r: seq<Laptime>)
    ensures |r| == |s|
    ensures forall i :: 0 <= i < |s| ==> r[i].event == s[i].event
    ensures |s| > 0 ==> r[0].time == s[0].time
  {
    LapsFrom(s, 0)
  }

  lemma {:induction false} LapsFromAt(s: seq<Splittime>, prev: Duration, i: nat)
    requires i < |s|
    ensures LapsFrom(s, prev)[i].time == s[i].time - prev - Sum(SplitDurations(s)[..i])
  {
    if i > 0 {
      LapsFromAt(s[1..], prev + s[0].time, i - 1);
      assert SplitDurations(s)[..i] == [s[0].time] + SplitDurations(s[1..])[..i - 1];
    }
  }

  /**
   Lap `i` is split `i` minus the sum of ALL earlier splits (not minus the
   previous split alone), and keeps split `i`'s event.
   */
  lemma LapAt(s: seq<Splittime>, i: nat)
    requires i < |s|
    ensures |Laps(s)| == |s|
    ensures Laps(s)[i] == Laptime(s[i].event, s[i].time - Sum(SplitDurations(s)[..i]))
  {
    LapsFromAt(s, 0, i);
  }

  /** The first two laps are the true intervals: split 0, then split 1 minus split 0. */
  lemma FirstTwoLaps(s: seq<Splittime>)
    requires |s| >= 2
    ensures Laps(s)[0].time == s[0].time
    ensures Laps(s)[1].time == s[1].time - s[0].time
  {
    LapAt(s, 0);
    LapAt(s, 1);
    assert SplitDurations(s)[..1] == [s[0].time];
  }

  // ---------------------------------------------------------------------------
  // Lap times as documented: time since the previous record
  // ---------------------------------------------------------------------------

  /**
   The laps the documentation of `get_laptime` describes: each record's
   time since the previous record, the first one's since the start.
   */
  function Intervals(s: seq<Splittime>): (r: seq<Laptime>)
    ensures |r| == |s|
    ensures forall i :: 0 <= i < |s| ==> r[i].event == s[i].event
    ensures |s| > 0 ==> r[0].time == s[0].time
    ensures forall i :: 0 < i < |s| ==> s[i - 1].time + r[i].time == s[i].time
  {
    seq(|s|, i requires 0 <= i < |s| =>
      Laptime(s[i].event, s[i].time - (if i == 0 then 0 else s[i - 1].time)))
  }

  /** Documented laps add up: the laps up to and including `i` sum to split `i`. */
  lemma {:induction false} IntervalsSumToSplit(s: seq<Splittime>, i: nat)
    requires i < |s|
    ensures Sum(LapDurations(Intervals(s))[..i + 1]) == s[i].time
  {
    var d := LapDurations(Intervals(s));
    assert d[..i + 1] == d[..i] + [d[i]];
    SumSnoc(d[..i], d[i]);
    if i > 0 {
      IntervalsSumToSplit(s, i - 1);
      assert d[..i] == d[..i - 1 + 1];
    }
  }

  /** The sum of the first `i` split times is the sum of the first `i - 1` plus split `i - 1`. */
  lemma SplitSumSnoc(s: seq<Splittime>, i: nat)
    requires 1 <= i <= |s|
    ensures Sum(SplitDurations(s)[..i]) == Sum(SplitDurations(s)[..i - 1]) + s[i - 1].time
  {
    var d := SplitDurations(s);
    assert d[..i] == d[..i - 1] + [d[i - 1]];
    SumSnoc(d[..i - 1], d[i - 1]);
  }

  /** With a clock that never runs backwards, documented laps are never negative. */
  lemma IntervalsNonNegative(s: seq<Splittime>, i: nat)
    requires Chronological(s)
    requires i < |s|
    ensures Intervals(s)[i].time >= 0
  {
  }

  /**
   Where the computed laps and the documented ones part: lap `i` agrees with
   the documented interval exactly when `i < 2` or the splits before `i - 1`
   sum to zero.
   */
  lemma LapsVersusIntervals(s: seq<Splittime>, i: nat)
    requires i < |s|
    ensures Laps(s)[i].event == Intervals(s)[i].event
    ensures i >= 2 ==> Laps(s)[i].time == Intervals(s)[i].time - Sum(SplitDurations(s)[..i - 1])
    ensures Laps(s)[i] == Intervals(s)[i] <==> i < 2 || Sum(SplitDurations(s)[..i - 1]) == 0
  {
    LapAt(s, i);
    var lap, doc := Laps(s)[i], Intervals(s)[i];
    if i >= 1 {
      SplitSumSnoc(s, i);
    }
    if i == 1 {
      assert SplitDurations(s)[..0] == [];
    }
    assert lap == doc <==> lap.time == doc.time;
  }

  /** Three splits at 1, 2 and 3 microseconds: the computed laps are 1, 1, 0 and add up to 2, not 3. */
  lemma LapsSumCounterexample()
    ensures var s := [Splittime(None, 1), Splittime(None, 2), Splittime(None, 3)];
      Chronological(s) &&
      LapDurations(Laps(s)) == [1, 1, 0] &&
      Sum(LapDurations(Laps(s))) != s[2].time &&
      Sum(LapDurations(Intervals(s))) == s[2].time
  {
    var s := [Splittime(None, 1), Splittime(None, 2), Splittime(None, 3)];
    assert s[1..] == [Splittime(None, 2), Splittime(None, 3)];
    assert s[1..][1..] == [Splittime(None, 3)];
    assert Laps(s) == [Laptime(None, 1), Laptime(None, 1), Laptime(None, 0)];
    assert LapDurations(Intervals(s)) == [1, 1, 1];
    assert [1, 1, 0][1..] == [1, 0] && [1, 0][1..] == [0] && [0][1..] == [];
    assert Sum([1, 1, 0]) == 2;
    IntervalsSumToSplit(s, 2);
    assert LapDurations(Intervals(s))[..3] == LapDurations(Intervals(s));
  }

  /** Splits at 1, 2 and 2 microseconds, a clock that never ran backwards: the third computed lap is negative. */
  lemma NegativeLapCounterexample()
    ensures var s := [Splittime(None, 1), Splittime(None, 2), Splittime(None, 2)];
      Chronological(s) && Laps(s)[2].time < 0
  {
    var s := [Splittime(None, 1), Splittime(None, 2), Splittime(None, 2)];
    assert s[1..] == [Splittime(None, 2), Splittime(None, 2)];
    assert s[1..][1..] == [Splittime(None, 2)];
  }

  // ---------------------------------------------------------------------------
  // Instance ids
  // ---------------------------------------------------------------------------

  /** The class-wide counter `MeasureTime.__leatest_id`, shared by every instance. */
  class IdSource {
    var latestId: nat
    /** Every id handed out so far. */
    ghost var issued: set<nat>

    ghost predicate Valid()
      reads this
    {
      forall k: nat :: k in issued <==> k < latestId
    }

    constructor ()
      ensures Valid() && latestId == 0 && issued == {}
    {
      latestId := 0;
      issued := {};
    }

    /** `_get_id`: hands out the counter's value, then increments the counter. */
    method GetId() returns (id: nat)
      requires Valid()
      modifies this
      ensures Valid()
      ensures id == old(latestId) && latestId == old(latestId) + 1
      ensures id !in old(issued) && issued == old(issued) + {id}
      ensures forall k :: k in old(issued) ==> k < id
    {
      id := latestId;
      latestId := latestId + 1;
      issued := issued + {id};
    }
  }

  /**
   The `name` that `__init__` assigns: the instance id, whether or not a
   name was passed (both branches of the conditional yield the id).
   */
  function NameFor(id: nat, name: Option<string>): (r: nat)
    ensures r == id
  {
    if name.None? then id else id
  }

  // ---------------------------------------------------------------------------
  // The ledger
  // ---------------------------------------------------------------------------

  class MeasureTime {
    const id: nat
    var name: nat
    var start: Instant
    var splittimes: seq<Splittime>

    /** `__init__` at instant `now`: a fresh id from `ids`, no records yet. */
    constructor (ids: IdSource, name: Option<string>, now: Instant)
      requires ids.Valid()
      modifies ids
      ensures ids.Valid()
      ensures id == old(ids.latestId) && id !in old(ids.issued)
      ensures ids.latestId == old(ids.latestId) + 1 && ids.issued == old(ids.issued) + {id}
      ensures this.name == id
      ensures start == now && splittimes == []
    {
      var newId := ids.GetId();
      id := newId;
      this.name := NameFor(newId, name);
      start := now;
      splittimes := [];
    }

    /**
     `end`: the instant of the last record, or the start when there is none.
     When the records are in time order it is the latest recorded instant.
     */
    function End(): (e: Instant)
      reads this
      ensures splittimes == [] ==> e == start
      ensures Chronological(splittimes) ==> start <= e
      ensures Chronological(splittimes) ==>
        forall i :: 0 <= i < |splittimes| ==> start + splittimes[i].time <= e
    {
      if splittimes == [] then start else start + splittimes[|splittimes| - 1].time
    }

    /** `totaltime`: from the start to `end`, which is the time of the last record. */
    function TotalTime(): (t: Duration)
      reads this
      ensures splittimes == [] ==> t == 0
      ensures splittimes != [] ==> t == splittimes[|splittimes| - 1].time
    {
      End() - start
    }

    /** `record_restart` at instant `now`: a new start and no records. */
    method RecordRestart(now: Instant)
      modifies this`start, this`splittimes
      ensures start == now && splittimes == []
      ensures End() == start && TotalTime() == 0
    {
      start := now;
      splittimes := [];
    }

    /** `record_split` at instant `now`: appends and returns the record of `now - start`. */
    method RecordSplit(event: Option<string>, now: Instant) returns (rec: Splittime)
      modifies this`splittimes
      ensures rec == Splittime(event, now - start)
      ensures start == old(start)
      ensures splittimes == old(splittimes) + [rec]
      ensures End() == now && TotalTime() == now - start
      ensures Chronological(old(splittimes)) && old(End()) <= now ==> Chronological(splittimes)
    {
      splittimes := splittimes + [Splittime(event, now - start)];
      rec := splittimes[|splittimes| - 1];
    }

    /** `get_splittime`: the stored records, in the order they were recorded. */
    function GetSplittime(): (r: seq<Splittime>)
      reads this
      ensures |r| == |splittimes|
      ensures forall i :: 0 <= i < |r| ==> r[i] == splittimes[i]
    {
      splittimes
    }

    /** `get_laptime`: the loop over the records with its accumulator `prev`. */
    method GetLaptime() returns (laps: seq<Laptime>)
      ensures laps == Laps(splittimes)
    {
      var s := splittimes;
      var prev: Duration := 0;
      laps := [];
      assert s[0..] == s;
      for i := 0 to |s|
        invariant laps + LapsFrom(s[i..], prev) == Laps(s)
      {
        var splt := s[i];
        LapsLoopStep(s, i, prev, laps, Laps(s));
        var lap := splt.time - prev;
        prev := prev + splt.time;
        laps := laps + [Laptime(splt.event, lap)];
      }
      assert s[|s|..] == [];
    }
  }

  // ---------------------------------------------------------------------------
  // Properties of `end` and `totaltime`
  // ---------------------------------------------------------------------------

  /**
   With no records, `end` is the start and `totaltime` is zero. This only
   collects, for one ledger, what the contracts of `End` and `TotalTime`
   already say about the empty case.
   */
  lemma EndWithoutSplits(m: MeasureTime)
    requires m.splittimes == []
    ensures m.End() == m.start && m.TotalTime() == 0
  {
  }

  /** `totaltime` is the time of the last record, and `end - start` always. */
  lemma TotalTimeIsLastSplit(m: MeasureTime)
    ensures m.TotalTime() == m.End() - m.start
    ensures m.splittimes != [] ==> m.TotalTime() == m.GetSplittime()[|m.splittimes| - 1].time
  {
  }

  /** After a single record, its time is `totaltime` and its lap is the same. */
  lemma SingleSplitIsTotalTime(m: MeasureTime)
    requires |m.splittimes| == 1
    ensures m.GetSplittime()[0].time == m.TotalTime()
    ensures Laps(m.splittimes)[0].time == m.TotalTime()
  {
    LapAt(m.splittimes, 0);
  }

  /**
   With a clock that never runs backwards, `totaltime` is not negative and
   no record exceeds it.
   */
  lemma TotalTimeBoundsSplits(m: MeasureTime)
    requires Chronological(m.splittimes)
    ensures 0 <= m.TotalTime()
    ensures forall i :: 0 <= i < |m.splittimes| ==> m.splittimes[i].time <= m.TotalTime()
  {
  }

  /**
   Two records made at `t1` and then `t2` after a start at `start`: the laps
   are `t1 - start` and `t2 - t1`, the instants the records were made.
   */
  lemma TwoRecordLaps(start: Instant, t1: Instant, t2: Instant, e1: Option<string>, e2: Option<string>)
    ensures Laps([Splittime(e1, t1 - start), Splittime(e2, t2 - start)])
      == [Laptime(e1, t1 - start), Laptime(e2, t2 - t1)]
  {
    var s := [Splittime(e1, t1 - start), Splittime(e2, t2 - start)];
    FirstTwoLaps(s);
  }
}
