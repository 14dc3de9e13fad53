/** The day-bucketed entry collection as a value: what each store operation does to the
    sequence of entries, and the properties those operations keep. The class in
    `Database` is proved against these functions. */
module StoreSpec {
  import opened Values
  import opened MetricsModel

  /** The collection's invariant: at most one entry per day key. */
  ghost predicate UniqueDays(es: seq<Entry>)
  {
    forall i, j :: 0 <= i < |es| && 0 <= j < |es| && i != j ==> es[i].date != es[j].date
  }

  /** `findOne({date: d})`: the position of the first entry with day key `d`, if any. */
  function FindDay(es: seq<Entry>, d: int): (r: Option<nat>)
    ensures r.Some? ==> r.value < |es| && es[r.value].date == d
    ensures r.Some? ==> forall j :: 0 <= j < r.value ==> es[j].date != d
    ensures r.None? <==> forall j :: 0 <= j < |es| ==> es[j].date != d
  {
    if |es| == 0 then None
    else if es[0].date == d then Some(0)
    else match FindDay(es[1..], d)
      case None => None
      case Some(i) => Some(i + 1)
  }

  /** Under the invariant, the entry `FindDay` finds is the only one for its day. */
  lemma FindDayUnique(es: seq<Entry>, d: int, j: int)
    requires UniqueDays(es)
    requires 0 <= j < |es| && es[j].date == d
    ensures FindDay(es, d) == Some(j)
  {
  }

  /** `FindDay` is pinned down by its contract: the first position holding the day. */
  lemma FindDayIs(es: seq<Entry>, d: int, k: nat)
    requires k < |es| && es[k].date == d
    requires forall j :: 0 <= j < k ==> es[j].date != d
    ensures FindDay(es, d) == Some(k)
  {
  }

  /** `getCurrentMetrics`: find today's entry, or append a new one built from `newReport`.
      Returns the (possibly grown) collection and the position of today's entry. */
  function FindOrCreate(es: seq<Entry>, today: int, newReport: Metrics): (r: (seq<Entry>, nat))
    ensures r.1 < |r.0| && r.0[r.1].date == today
    ensures (exists j :: 0 <= j < |es| && es[j].date == today) ==>
              r.0 == es && forall j :: 0 <= j < r.1 ==> es[j].date != today
    ensures (forall j :: 0 <= j < |es| ==> es[j].date != today) ==>
              r.0 == es + [Entry(today, newReport)] && r.1 == |es|
    ensures UniqueDays(es) ==> UniqueDays(r.0)
    ensures UniqueDays(es) ==> forall j :: 0 <= j < |r.0| && r.0[j].date == today ==> j == r.1
  {
    match FindDay(es, today)
    case Some(i) => (es, i)
    case None => (es + [Entry(today, newReport)], |es|)
  }

  /** Two find-or-create calls in a row for the same day make at most one entry: the
      second finds what the first found or inserted and changes nothing. */
  lemma FindOrCreateTwice(es: seq<Entry>, today: int, r1: Metrics, r2: Metrics)
    ensures FindOrCreate(FindOrCreate(es, today, r1).0, today, r2) == FindOrCreate(es, today, r1)
  {
    var (es', i) := FindOrCreate(es, today, r1);
    if FindDay(es, today).None? {
      assert forall j :: 0 <= j < i ==> es'[j] == es[j];
    }
    FindDayIs(es', today, i);
  }

  /** The bucket that today's edits start from: the stored one, or the factory's report. */
  function TodayBucket(es: seq<Entry>, today: int, newReport: Metrics): (m: Metrics)
    ensures (forall j :: 0 <= j < |es| ==> es[j].date != today) ==> m == newReport
    ensures UniqueDays(es) ==> forall j :: 0 <= j < |es| && es[j].date == today ==> m == es[j].metrics
  {
    match FindDay(es, today)
    case Some(i) => es[i].metrics
    case None => newReport
  }

  /** The collection after one mutator (`incrementCounter`, `addCustomEvent`, `addTiming`):
      find-or-create today's entry, then edit it in place. */
  function ApplyToday(es: seq<Entry>, today: int, newReport: Metrics, e: Edit): (r: seq<Entry>)
    ensures UniqueDays(es) ==> UniqueDays(r)
    ensures FindDay(r, today).Some?
    ensures |r| == |es| || |r| == |es| + 1
    ensures forall j :: 0 <= j < |es| ==> j < |r| && r[j].date == es[j].date
    ensures forall j :: 0 <= j < |es| && es[j].date != today ==> j < |r| && r[j] == es[j]
    ensures forall j :: |es| <= j < |r| ==> r[j].date == today
  {
    var (es', i) := FindOrCreate(es, today, newReport);
    var r := es'[i := Entry(today, Apply(es'[i].metrics, e))];
    assert r[i].date == today;
    r
  }

  /** After a mutator, today's bucket is the old one (or the factory's) with the edit applied;
      nothing the factory produces matters once today's entry exists. */
  lemma {:induction false} ApplyTodayBucket(es: seq<Entry>, today: int, newReport: Metrics, e: Edit, later: Metrics)
    ensures TodayBucket(ApplyToday(es, today, newReport, e), today, later)
         == Apply(TodayBucket(es, today, newReport), e)
  {
    var r := ApplyToday(es, today, newReport, e);
    var (es', i) := FindOrCreate(es, today, newReport);
    assert r == es'[i := Entry(today, Apply(es'[i].metrics, e))];
    match FindDay(es, today)
    case Some(k) =>
      assert es' == es && i == k;
      assert forall j :: 0 <= j < k ==> r[j] == es[j];
      FindDayIs(r, today, k);
    case None =>
      assert i == |es|;
      assert forall j :: 0 <= j < |es| ==> r[j] == es[j];
      FindDayIs(r, today, |es|);
  }

  /** The collection after `n` successive `incrementCounter(name)` calls on the same day. */
  function IncrementedTimes(es: seq<Entry>, today: int, newReport: Metrics, name: string, n: nat): seq<Entry>
    decreases n
  {
    if n == 0 then es
    else ApplyToday(IncrementedTimes(es, today, newReport, name, n - 1), today, newReport, Increment(name))
  }

  /** The value today's edits would see for a counter. */
  function TodayCount(es: seq<Entry>, today: int, newReport: Metrics, name: string): int
  {
    Count(TodayBucket(es, today, newReport), name)
  }

  /** One increment raises today's counter by one. */
  lemma IncrementStep(es: seq<Entry>, today: int, newReport: Metrics, name: string)
    ensures TodayCount(ApplyToday(es, today, newReport, Increment(name)), today, newReport, name)
         == TodayCount(es, today, newReport, name) + 1
  {
    var before := TodayBucket(es, today, newReport);
    ApplyTodayBucket(es, today, newReport, Increment(name), newReport);
    IncrementEffect(before, name);
  }

  /** `n` increments of one counter on one day raise that counter by exactly `n`. */
  lemma {:induction false} IncrementedTimesCount(es: seq<Entry>, today: int, newReport: Metrics, name: string, n: nat)
    ensures TodayCount(IncrementedTimes(es, today, newReport, name, n), today, newReport, name)
         == TodayCount(es, today, newReport, name) + n
    decreases n, 1
  {
    if n == 0 {
      assert IncrementedTimes(es, today, newReport, name, n) == es;
    } else {
      IncrementedTimesCountStep(es, today, newReport, name, n);
    }
  }

  /** The inductive step of `IncrementedTimesCount`. */
  lemma IncrementedTimesCountStep(es: seq<Entry>, today: int, newReport: Metrics, name: string, n: nat)
    requires n > 0
    ensures TodayCount(IncrementedTimes(es, today, newReport, name, n), today, newReport, name)
         == TodayCount(es, today, newReport, name) + n
    decreases n, 0
  {
    IncrementedTimesCount(es, today, newReport, name, n - 1);
    IncrementedTimesLast(es, today, newReport, name, n);
  }

  /** The `n`-th increment: if the first `n - 1` raised the count by `n - 1`, the `n`-th
      brings the rise to `n`. */
  lemma IncrementedTimesLast(es: seq<Entry>, today: int, newReport: Metrics, name: string, n: nat)
    requires n > 0
    requires TodayCount(IncrementedTimes(es, today, newReport, name, n - 1), today, newReport, name)
          == TodayCount(es, today, newReport, name) + n - 1
    ensures TodayCount(IncrementedTimes(es, today, newReport, name, n), today, newReport, name)
         == TodayCount(es, today, newReport, name) + n
  {
    IncrementStep(IncrementedTimes(es, today, newReport, name, n - 1), today, newReport, name);
  }

  /** From an empty store, `n` increments of a counter the fresh report does not carry
      leave that counter at exactly `n`, in the only entry, which is today's. */
  lemma IncrementFromEmpty(today: int, newReport: Metrics, name: string, n: nat)
    requires n > 0 && name !in newReport.measures
    ensures |IncrementedTimes([], today, newReport, name, n)| == 1
    ensures IncrementedTimes([], today, newReport, name, n)[0].date == today
    ensures IncrementedTimes([], today, newReport, name, n)[0].metrics.measures[name] == n
  {
    IncrementedTimesCount([], today, newReport, name, n);
    OneEntryAfterIncrements(today, newReport, name, n);
    var r := IncrementedTimes([], today, newReport, name, n);
    assert TodayBucket(r, today, newReport) == r[0].metrics;
  }

  lemma {:induction false} OneEntryAfterIncrements(today: int, newReport: Metrics, name: string, n: nat)
    requires n > 0
    ensures |IncrementedTimes([], today, newReport, name, n)| == 1
    ensures IncrementedTimes([], today, newReport, name, n)[0].date == today
  {
    if n > 1 {
      OneEntryAfterIncrements(today, newReport, name, n - 1);
    }
  }

  /** What `clearData(date)` keeps: the entries whose day key is not below the cutoff, in order. */
  function KeepFrom(es: seq<Entry>, cutoff: int): (r: seq<Entry>)
    ensures forall e :: e in r <==> e in es && e.date >= cutoff
    ensures |r| <= |es|
  {
    if |es| == 0 then []
    else if es[0].date < cutoff then KeepFrom(es[1..], cutoff)
    else [es[0]] + KeepFrom(es[1..], cutoff)
  }

  /** The entries `getMetrics(beforeDate)` selects: day key strictly below the cutoff, in order. */
  function Before(es: seq<Entry>, cutoff: int): (r: seq<Entry>)
    ensures forall e :: e in r <==> e in es && e.date < cutoff
    ensures |r| <= |es|
  {
    if |es| == 0 then []
    else if es[0].date < cutoff then [es[0]] + Before(es[1..], cutoff)
    else Before(es[1..], cutoff)
  }

  /** The buckets of a run of entries, in the same order (`.map(x => x.metrics)`). */
  function MetricsOf(es: seq<Entry>): (r: seq<Metrics>)
    ensures |r| == |es| && forall i :: 0 <= i < |es| ==> r[i] == es[i].metrics
  {
    seq(|es|, i requires 0 <= i < |es| => es[i].metrics)
  }

  /** `getMetricsForDate(date)`: the bucket stored under exactly that day key, if any. */
  function Lookup(es: seq<Entry>, d: int): (r: Option<Metrics>)
    ensures r.None? <==> forall j :: 0 <= j < |es| ==> es[j].date != d
    ensures r.Some? ==> Entry(d, r.value) in es
    ensures UniqueDays(es) ==> forall j :: 0 <= j < |es| && es[j].date == d ==> r == Some(es[j].metrics)
  {
    match FindDay(es, d)
    case Some(i) => Some(es[i].metrics)
    case None => None
  }

  /** Any subsequence-by-filter of a collection without duplicate days has none either. */
  lemma {:induction false} KeepFromUnique(es: seq<Entry>, cutoff: int)
    requires UniqueDays(es)
    ensures UniqueDays(KeepFrom(es, cutoff))
  {
    if |es| > 0 {
      var tail := es[1..];
      assert UniqueDays(tail) by {
        forall i, j | 0 <= i < |tail| && 0 <= j < |tail| && i != j
          ensures tail[i].date != tail[j].date
        {
          assert tail[i] == es[i + 1] && tail[j] == es[j + 1];
        }
      }
      KeepFromUnique(tail, cutoff);
      if es[0].date >= cutoff {
        var r := KeepFrom(es, cutoff);
        var rest := KeepFrom(tail, cutoff);
        assert r == [es[0]] + rest;
        forall k | 0 <= k < |rest| ensures rest[k].date != es[0].date
        {
          assert rest[k] in tail;
          var m :| 0 <= m < |tail| && tail[m] == rest[k];
          assert tail[m] == es[m + 1];
        }
      }
    }
  }

  /** `getMetrics(d)` and `clearData(d)` split the collection: every entry is either
      selected by the one or kept by the other, never both. */
  lemma {:induction false} BeforeKeepFromPartition(es: seq<Entry>, cutoff: int)
    ensures multiset(Before(es, cutoff)) + multiset(KeepFrom(es, cutoff)) == multiset(es)
  {
    if |es| > 0 {
      BeforeKeepFromPartition(es[1..], cutoff);
      assert es == [es[0]] + es[1..];
    }
  }

  /** After `clearData(d)`, `getMetrics(d)` finds nothing. */
  lemma ClearedHasNothingBefore(es: seq<Entry>, cutoff: int)
    ensures Before(KeepFrom(es, cutoff), cutoff) == []
  {
  }

  /** `clearData(d)` does not change the lookup of the cutoff day or of any later day. */
  lemma {:induction false} KeepFromLookup(es: seq<Entry>, cutoff: int, d: int)
    requires d >= cutoff
    ensures Lookup(KeepFrom(es, cutoff), d) == Lookup(es, d)
  {
    if |es| > 0 {
      KeepFromLookup(es[1..], cutoff, d);
      if es[0].date < cutoff {
        assert es[0].date != d;
      } else {
        assert KeepFrom(es, cutoff) == [es[0]] + KeepFrom(es[1..], cutoff);
      }
    }
  }
}
