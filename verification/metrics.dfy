/** The shape of one day's bucket (`IMetrics` of the `telemetry-github` typings) and the
    three in-place edits the store makes to a bucket. */
module MetricsModel {
  import opened Values

  /** Environment facts stored with a bucket when it is created. The store never reads
      or changes them; they come from the caller-supplied report factory. */
  datatype Dimensions = Dimensions(
    appVersion: string,
    platform: string,
    guid: string,
    date: string,
    eventType: string,
    language: string,
    gitHubUser: Option<string>)

  /** One timing sample as `addTiming` pushes it. */
  datatype Timing = Timing(
    eventType: string,
    durationInMilliseconds: int,
    metadata: Object,
    date: string)

  /** One day's bucket: counters by name, custom events and timings in append order. */
  datatype Metrics = Metrics(
    dimensions: Dimensions,
    measures: map<string, int>,
    customEvents: seq<Object>,
    timings: seq<Timing>)

  /** A stored record of the collection: the day key and that day's bucket. */
  datatype Entry = Entry(date: int, metrics: Metrics)

  /** The edits the mutators make to today's bucket. */
  datatype Edit =
    | Increment(counterName: string)
    | AddEvent(event: Object)
    | AddTiming(timing: Timing)

  /** The current value of a counter, counting an absent counter as 0, as
      `incrementCounter` does before it increments. */
  function Count(m: Metrics, name: string): (c: int)
    ensures name !in m.measures ==> c == 0
    ensures name in m.measures ==> c == m.measures[name]
  {
    if name in m.measures then m.measures[name] else 0
  }

  /** The event object after `addCustomEvent` has stamped it: first `date`, then `eventType`. */
  function Stamp(event: Object, eventType: string, nowIso: string): (r: Object)
    ensures r.Keys == event.Keys + {"date", "eventType"}
    ensures r["date"] == Str(nowIso) && r["eventType"] == Str(eventType)
    ensures forall k :: k in event && k != "date" && k != "eventType" ==> r[k] == event[k]
  {
    event["date" := Str(nowIso)]["eventType" := Str(eventType)]
  }

  /** The timing record `addTiming` pushes; an omitted metadata argument defaults to `{}`. */
  function MakeTiming(eventType: string, durationInMilliseconds: int, metadata: Option<Object>, nowIso: string): (t: Timing)
    ensures t.eventType == eventType && t.durationInMilliseconds == durationInMilliseconds && t.date == nowIso
    ensures metadata.None? ==> t.metadata == map[]
    ensures metadata.Some? ==> t.metadata == metadata.value
  {
    Timing(eventType, durationInMilliseconds, if metadata.Some? then metadata.value else map[], nowIso)
  }

  /** Applies one edit to a bucket, in place in the source. An edit only ever adds: the
      dimensions stay, no counter disappears or decreases, and the earlier events and
      timings remain as a prefix. The exact effect of each edit is stated by the three
      lemmas below. */
  function Apply(m: Metrics, e: Edit): (r: Metrics)
    ensures r.dimensions == m.dimensions
    ensures m.measures.Keys <= r.measures.Keys
    ensures forall name :: Count(m, name) <= Count(r, name)
    ensures m.customEvents <= r.customEvents && m.timings <= r.timings
  {
    match e
    case Increment(name) => m.(measures := m.measures[name := Count(m, name) + 1])
    case AddEvent(ev) => m.(customEvents := m.customEvents + [ev])
    case AddTiming(t) => m.(timings := m.timings + [t])
  }

  /** An increment raises exactly one counter by one (creating it at 1) and leaves the
      other counters, the events, the timings and the dimensions as they were. */
  lemma IncrementEffect(m: Metrics, name: string)
    ensures Apply(m, Increment(name)).measures.Keys == m.measures.Keys + {name}
    ensures Count(Apply(m, Increment(name)), name) == Count(m, name) + 1
    ensures name !in m.measures ==> Apply(m, Increment(name)).measures[name] == 1
    ensures forall other :: other != name ==> Count(Apply(m, Increment(name)), other) == Count(m, other)
    ensures Apply(m, Increment(name)).(measures := m.measures) == m
  {
  }

  /** Appending an event grows `customEvents` by exactly that one element at the end. */
  lemma AddEventEffect(m: Metrics, ev: Object)
    ensures |Apply(m, AddEvent(ev)).customEvents| == |m.customEvents| + 1
    ensures Apply(m, AddEvent(ev)).customEvents[..|m.customEvents|] == m.customEvents
    ensures Apply(m, AddEvent(ev)).customEvents[|m.customEvents|] == ev
    ensures Apply(m, AddEvent(ev)).(customEvents := m.customEvents) == m
  {
  }

  /** Appending a timing grows `timings` by exactly that one element at the end. */
  lemma AddTimingEffect(m: Metrics, t: Timing)
    ensures |Apply(m, AddTiming(t)).timings| == |m.timings| + 1
    ensures Apply(m, AddTiming(t)).timings[..|m.timings|] == m.timings
    ensures Apply(m, AddTiming(t)).timings[|m.timings|] == t
    ensures Apply(m, AddTiming(t)).(timings := m.timings) == m
  {
  }
}
