/** `StatsDatabase`: the day-bucketed metrics store. The embedded collection is the field
    `entries`, updated in place by the mutators; the clock is replaced by the parameters
    `today` (the day key of now) and `nowIso` (the ISO-8601 text of now), and the report
    factory by `newReport`, the value it would return if it were called. */
module Database {
  import opened Values
  import opened MetricsModel
  import opened StoreSpec

  class StatsDatabase {
    /** The `metrics` collection, in insertion order. */
    var entries: seq<Entry>

    /** At most one entry per day key. */
    ghost predicate Valid()
      reads this
    {
      UniqueDays(entries)
    }

    constructor ()
      ensures Valid() && entries == []
    {
      entries := [];
    }

    /** Finds today's entry, inserting one built from `newReport` if there is none, and
        returns its position: the stored record, which later edits write back to. */
    method GetCurrentMetrics(today: int, newReport: Metrics) returns (i: nat)
      requires Valid()
      modifies this
      ensures Valid()
      ensures (entries, i) == FindOrCreate(old(entries), today, newReport)
      ensures i < |entries| && entries[i].date == today
      ensures forall j :: 0 <= j < |entries| && entries[j].date == today ==> j == i
      ensures (exists j :: 0 <= j < |old(entries)| && old(entries)[j].date == today) ==>
                entries == old(entries)
      ensures (forall j :: 0 <= j < |old(entries)| ==> old(entries)[j].date != today) ==>
                entries == old(entries) + [Entry(today, newReport)]
    {
      var report := FindDay(entries, today);
      if report.None? {
        entries := entries + [Entry(today, newReport)];
        i := |entries| - 1;
      } else {
        i := report.value;
      }
    }

    /** `incrementCounter(counterName)`: an absent counter starts at 0, then goes up by one. */
    method IncrementCounter(counterName: string, today: int, newReport: Metrics)
      requires Valid()
      modifies this
      ensures Valid()
      ensures entries == ApplyToday(old(entries), today, newReport, Increment(counterName))
      ensures TodayBucket(entries, today, newReport).measures[counterName]
           == Count(TodayBucket(old(entries), today, newReport), counterName) + 1
    {
      var i := GetCurrentMetrics(today, newReport);
      var m := entries[i].metrics;
      ghost var before := m;
      if counterName !in m.measures {
        m := m.(measures := m.measures[counterName := 0]);
      }
      m := m.(measures := m.measures[counterName := m.measures[counterName] + 1]);
      assert m.measures == before.measures[counterName := Count(before, counterName) + 1];
      assert m == Apply(before, Increment(counterName));
      entries := entries[i := entries[i].(metrics := m)];
      ApplyTodayBucket(old(entries), today, newReport, Increment(counterName), newReport);
    }

    /** `addCustomEvent(eventType, customEvent)`: stamps `date` and `eventType` onto the
        caller's object (returned as `stamped`, what the caller's object now holds) and
        appends it to today's custom events. */
    method AddCustomEvent(eventType: string, customEvent: Object, today: int, nowIso: string, newReport: Metrics)
      returns (stamped: Object)
      requires Valid()
      modifies this
      ensures Valid()
      ensures stamped == Stamp(customEvent, eventType, nowIso)
      ensures entries == ApplyToday(old(entries), today, newReport, AddEvent(stamped))
      ensures TodayBucket(entries, today, newReport).customEvents
           == TodayBucket(old(entries), today, newReport).customEvents + [stamped]
    {
      var i := GetCurrentMetrics(today, newReport);
      stamped := customEvent["date" := Str(nowIso)];
      stamped := stamped["eventType" := Str(eventType)];
      var m := entries[i].metrics;
      m := m.(customEvents := m.customEvents + [stamped]);
      entries := entries[i := entries[i].(metrics := m)];
      ApplyTodayBucket(old(entries), today, newReport, AddEvent(stamped), newReport);
    }

    /** `addTiming(eventType, durationInMilliseconds, metadata = {})`: appends one timing
        record stamped with the current time to today's timings. */
    method AddTiming(eventType: string, durationInMilliseconds: int, metadata: Option<Object>,
                     today: int, nowIso: string, newReport: Metrics)
      requires Valid()
      modifies this
      ensures Valid()
      ensures entries == ApplyToday(old(entries), today, newReport,
                                    Edit.AddTiming(MakeTiming(eventType, durationInMilliseconds, metadata, nowIso)))
      ensures TodayBucket(entries, today, newReport).timings
           == TodayBucket(old(entries), today, newReport).timings
              + [Timing(eventType, durationInMilliseconds, if metadata.Some? then metadata.value else map[], nowIso)]
    {
      var i := GetCurrentMetrics(today, newReport);
      var meta := if metadata.None? then map[] else metadata.value;
      var m := entries[i].metrics;
      m := m.(timings := m.timings + [Timing(eventType, durationInMilliseconds, meta, nowIso)]);
      entries := entries[i := entries[i].(metrics := m)];
      ApplyTodayBucket(old(entries), today, newReport,
                       Edit.AddTiming(MakeTiming(eventType, durationInMilliseconds, metadata, nowIso)), newReport);
    }

    /** `clearData(date?)`: without a date, removes every entry; with the day key of a
        date, removes exactly the entries strictly before it. */
    method ClearData(date: Option<int>)
      requires Valid()
      modifies this
      ensures Valid()
      ensures date.None? ==> entries == []
      ensures date.Some? ==> entries == KeepFrom(old(entries), date.value)
      ensures date.Some? ==> forall e :: e in entries <==> e in old(entries) && e.date >= date.value
    {
      if date.None? {
        entries := [];
      } else {
        KeepFromUnique(entries, date.value);
        entries := KeepFrom(entries, date.value);
      }
    }

    /** `getMetrics(beforeDate?)`: the buckets of all entries, or of those whose day key is
        strictly below the given one, in collection order. Changes nothing. */
    method GetMetrics(beforeDate: Option<int>) returns (r: seq<Metrics>)
      ensures beforeDate.None? ==> r == MetricsOf(entries)
      ensures beforeDate.Some? ==> r == MetricsOf(Before(entries, beforeDate.value))
      ensures beforeDate.Some? ==>
                forall m :: m in r <==> exists e :: e in entries && e.date < beforeDate.value && e.metrics == m
    {
      if beforeDate.Some? {
        var selected := Before(entries, beforeDate.value);
        r := MetricsOf(selected);
        forall m ensures m in r <==> exists e :: e in entries && e.date < beforeDate.value && e.metrics == m
        {
          if m in r {
            var k :| 0 <= k < |r| && r[k] == m;
            assert selected[k] in selected;
          }
          if exists e :: e in entries && e.date < beforeDate.value && e.metrics == m {
            var e :| e in entries && e.date < beforeDate.value && e.metrics == m;
            assert e in selected;
            var k :| 0 <= k < |selected| && selected[k] == e;
            assert r[k] == m;
          }
        }
      } else {
        r := MetricsOf(entries);
      }
    }

    /** `getMetricsForDate(date)`: the bucket stored under exactly that day key, if any. */
    method GetMetricsForDate(date: int) returns (r: Option<Metrics>)
      ensures r == Lookup(entries, date)
      ensures r.None? <==> forall j :: 0 <= j < |entries| ==> entries[j].date != date
      ensures Valid() ==> forall j :: 0 <= j < |entries| && entries[j].date == date ==> r == Some(entries[j].metrics)
    {
      var report := FindDay(entries, date);
      if report.Some? {
        return Some(entries[report.value].metrics);
      }
      return None;
    }
  }

  /** Three increments of one counter on one day, seen through `getMetricsForDate`. */
  method SameDayIncrements(today: int, newReport: Metrics)
    requires "commits" !in newReport.measures
  {
    var db := new StatsDatabase();
    db.IncrementCounter("commits", today, newReport);
    db.IncrementCounter("commits", today, newReport);
    db.IncrementCounter("commits", today, newReport);
    var m := db.GetMetricsForDate(today);
    assert m == Some(TodayBucket(db.entries, today, newReport));
    assert m.value.measures["commits"] == 3;
    assert |db.entries| == 1;
  }
}
