/** `StatsStore`: the reporting orchestrator. The settings store (`localStorage`) is a
    `map<string, string>` argument, the clock (`Date.now()`) a `now` argument in epoch
    milliseconds, and the network `post` a function from payload to response. */
module Reporting {
  import opened Values
  import opened JsNumber

  const BaseUsageApi: string := "http://localhost:4000/api/usage/"
  const LastDailyStatsReportKey: string := "last-daily-stats-report"
  /** Settings key holding whether the user has opted out. */
  const StatsOptOutKey: string := "stats-opt-out"
  /** How often daily stats are submitted: 24 hours, in milliseconds. */
  const DailyStatsReportInterval: int := 1000 * 60 * 60 * 24

  type Settings = map<string, string>

  datatype AppName = Atom

  function AppNameText(a: AppName): string
  {
    match a
    case Atom => "atom"
  }

  /** The dimensions of a daily payload, recomputed at send time. */
  datatype Dimensions = Dimensions(
    version: string,
    platform: string,
    guid: string,
    date: string,
    accessToken: Option<string>,
    eventType: string,
    language: Option<string>)

  /** The body posted to the usage endpoint. */
  datatype Payload = Payload(measures: Object, dimensions: Dimensions)

  /** What the transport gives back: an HTTP status, or a rejection with its error text. */
  datatype Response = Status(status: int) | Rejected(error: string)

  /** What `reportStats` logs: the success line, or the caught error, represented by its
      message. */
  datatype LogLine = Reported | Failure(message: string)

  /** The opt-out flag a store reads at construction: a stored non-empty value counts as
      opted out exactly when it parses to a non-zero integer. Opting out therefore takes a
      stored text with a digit other than `0` in it; "0", "-0", "" and "no" all opt in. */
  predicate OptedOut(settings: Settings): (b: bool)
    ensures b ==> StatsOptOutKey in settings && HasNonZeroDigit(settings[StatsOptOutKey])
  {
    if StatsOptOutKey in settings && settings[StatsOptOutKey] != "" then
      var v := settings[StatsOptOutKey];
      match ParseInt(v)
      case None => false
      case Some(n) => if n != 0 then ParseIntNonZero(v); true else false
    else false
  }

  /** The last report time the cadence gate works from: the stored timestamp when it
      parses, else 0 ("never reported"). */
  function LastReportTime(settings: Settings): (t: int)
    ensures LastDailyStatsReportKey !in settings ==> t == 0
    ensures LastDailyStatsReportKey in settings && ParseInt(settings[LastDailyStatsReportKey]).None? ==> t == 0
  {
    if LastDailyStatsReportKey in settings then
      match ParseInt(settings[LastDailyStatsReportKey])
      case None => 0
      case Some(n) => n
    else 0
  }

  /** The daily report is due: strictly more than one interval since the last report.
      The interval is 86 400 000 ms; a store that never reported counts from time 0. */
  predicate Due(settings: Settings, now: int): (b: bool)
    ensures b <==> now > LastReportTime(settings) + 86_400_000
    ensures LastDailyStatsReportKey !in settings ==> (b <==> now > 86_400_000)
  {
    now - LastReportTime(settings) > DailyStatsReportInterval
  }

  const FailurePrefix: string := "Stats reporting failure: "

  /** The message of the error `reportStats` throws on a non-200 status and then logs:
      the prefix, the status as decimal text, and a closing parenthesis without an opening
      one. The status can be read back from the text between the prefix and that
      parenthesis. */
  function FailureMessage(status: int): (msg: string)
    ensures |msg| > |FailurePrefix| + 1
    ensures msg[..|FailurePrefix|] == FailurePrefix && msg[|msg| - 1] == ')'
    ensures ParseInt(msg[|FailurePrefix|..|msg| - 1]) == Some(status)
  {
    var msg := FailurePrefix + Decimal(status) + ")";
    assert msg[|FailurePrefix|..|msg| - 1] == Decimal(status);
    ParseIntOfDecimal(status);
    msg
  }

  class StatsStore {
    /** Whether this store was opted out when it was built. */
    var optOut: bool
    /** The endpoint the daily stats are posted to. */
    var appUrl: string
    /** The running application's version. */
    var version: string

    /** Reads the opt-out flag once: absent or empty means opted in; otherwise the flag is
        the truthiness of `parseInt(value, 10)`, so `0` and NaN mean opted in. */
    constructor (appName: AppName, version: string, settings: Settings)
      ensures this.version == version
      ensures appUrl == BaseUsageApi + AppNameText(appName)
      ensures optOut == OptedOut(settings)
    {
      this.version := version;
      appUrl := BaseUsageApi + AppNameText(appName);
      if StatsOptOutKey in settings && settings[StatsOptOutKey] != "" {
        var parsed := ParseInt(settings[StatsOptOutKey]);
        optOut := parsed.Some? && parsed.value != 0;
        // Without a recorded opt-in ping the source reaches a branch whose only
        // statement (sending the ping) is commented out: nothing happens.
      } else {
        optOut := false;
      }
    }

    /** `shouldReportDailyStats`: a query of the settings and the clock; it writes nothing. */
    method ShouldReportDailyStats(settings: Settings, now: int) returns (r: bool)
      ensures r == Due(settings, now)
      ensures LastDailyStatsReportKey !in settings || settings[LastDailyStatsReportKey] == "" ==>
                (r <==> now > DailyStatsReportInterval)
      ensures LastDailyStatsReportKey in settings && ParseInt(settings[LastDailyStatsReportKey]).None? ==>
                (r <==> now > DailyStatsReportInterval)
      ensures LastDailyStatsReportKey in settings && ParseInt(settings[LastDailyStatsReportKey]).Some? ==>
                (r <==> now - ParseInt(settings[LastDailyStatsReportKey]).value > DailyStatsReportInterval)
    {
      var lastDate: Option<int> := Some(0);
      if LastDailyStatsReportKey in settings && |settings[LastDailyStatsReportKey]| > 0 {
        lastDate := ParseInt(settings[LastDailyStatsReportKey]);
      }
      if lastDate.None? {
        lastDate := Some(0);
      }
      if LastDailyStatsReportKey in settings && settings[LastDailyStatsReportKey] == "" {
        ParseIntNaN("");
      }
      r := now - lastDate.value > DailyStatsReportInterval;
    }

    /** `getDailyStats(getDate)`: the payload for `measures`, with dimensions computed now. */
    function GetDailyStats(date: string, platform: string, guid: string, measures: Object): (p: Payload)
      reads this
      ensures p.measures == measures
      ensures p.dimensions.date == date && p.dimensions.version == version
      ensures p.dimensions.platform == platform && p.dimensions.guid == guid
      ensures p.dimensions.eventType == "usage"
      ensures p.dimensions.accessToken.None? && p.dimensions.language.None?
    {
      Payload(measures, Dimensions(version, platform, guid, date, None, "usage", None))
    }

    /** `reportStats(getDate)`: posts the daily payload and logs the outcome. A non-200
        status and a rejected post are both caught and logged; nothing is stored. */
    method ReportStats(date: string, platform: string, guid: string, measures: Object,
                       post: Payload -> Response)
      returns (sent: Payload, log: LogLine)
      ensures sent == GetDailyStats(date, platform, guid, measures)
      ensures log.Reported? <==> post(sent) == Status(200)
      ensures post(sent).Status? && post(sent).status != 200 ==>
                log == Failure(FailureMessage(post(sent).status))
      ensures post(sent).Rejected? ==> log == Failure(post(sent).error)
    {
      sent := GetDailyStats(date, platform, guid, measures);
      var response := post(sent);
      match response
      case Rejected(e) =>
        log := Failure(e);
      case Status(s) =>
        if s != 200 {
          log := Failure(FailureMessage(s));
        } else {
          log := Reported;
        }
    }
  }

  /** Absent, empty or unparsable opt-out values all mean opted in. */
  lemma OptOutDefaults(settings: Settings)
    requires StatsOptOutKey !in settings || settings[StatsOptOutKey] == ""
             || ParseInt(settings[StatsOptOutKey]).None?
    ensures !OptedOut(settings)
  {
  }

  /** A stored integer opts out exactly when it is non-zero, whatever white space
      precedes it and whatever non-digit text follows it. */
  lemma OptOutNumeric(settings: Settings, ws: string, n: int, tail: string)
    requires forall i :: 0 <= i < |ws| ==> IsWhiteSpace(ws[i])
    requires tail == [] || !IsDigit(tail[0])
    requires StatsOptOutKey in settings && settings[StatsOptOutKey] == ws + Decimal(n) + tail
    ensures OptedOut(settings) <==> n != 0
  {
    ParseIntDecimal(ws, n, tail);
  }

  /** A stored decimal timestamp is read back as exactly that time. */
  lemma LastReportTimeDecimal(settings: Settings, t: int)
    requires LastDailyStatsReportKey in settings && settings[LastDailyStatsReportKey] == Decimal(t)
    ensures LastReportTime(settings) == t
  {
    ParseIntOfDecimal(t);
  }

  /** The gate is strict: exactly one interval after the stored time the report is not
      due; one millisecond later it is. */
  lemma DueBoundary(settings: Settings, t: int)
    requires LastDailyStatsReportKey in settings && settings[LastDailyStatsReportKey] == Decimal(t)
    ensures !Due(settings, t + DailyStatsReportInterval)
    ensures Due(settings, t + DailyStatsReportInterval + 1)
  {
    LastReportTimeDecimal(settings, t);
  }

  /** Once due, the report stays due as time goes on (until the settings change). */
  lemma DueMonotone(settings: Settings, now: int, later: int)
    requires Due(settings, now) && now <= later
    ensures Due(settings, later)
  {
  }

  /** With no usable stored timestamp the gate compares against time 0. */
  lemma NeverReportedIsDue(settings: Settings, now: int)
    requires LastDailyStatsReportKey !in settings || ParseInt(settings[LastDailyStatsReportKey]).None?
    ensures Due(settings, now) <==> now > DailyStatsReportInterval
  {
  }

  /** The payload's dimensions are recomputed per call: two payloads built for different
      dates differ only in `dimensions.date`. */
  lemma DailyStatsDateOnly(store: StatsStore, d1: string, d2: string, platform: string, guid: string, measures: Object)
    ensures store.GetDailyStats(d1, platform, guid, measures)
         == store.GetDailyStats(d2, platform, guid, measures).(
              dimensions := store.GetDailyStats(d2, platform, guid, measures).dimensions.(date := d1))
  {
  }
}
