/** The request-planning helpers of beeswax_report.py: the timezone list
    read from the environment, the per-timezone start date, the query
    payload, the half-month intervals request_report submits, and the
    names fetch_report gives downloaded files together with the selection
    merge_reports makes among them. The environment is a map, pytz's
    timezone check is the parameter `isValidTz`, and the clock is the
    parameters `today` (the UTC date) and `todayDay` (the local day of the
    month). */
module BeeswaxReport {
  import opened Strings
  import opened Dates

  type Env = map<string, string>

  datatype Error = UnknownReportType | BadDate | DateOverflow

  /** os.getenv(name). */
  function GetEnv(env: Env, name: string): (r: Option<string>)
    ensures r.Some? <==> name in env
    ensures r.Some? ==> r.value == env[name]
  {
    if name in env then Some(env[name]) else None
  }

  // ---------------------------------------------------------------------
  // parse_timezone_list
  // ---------------------------------------------------------------------

  /** The entries of a configured list: brackets stripped from both ends of
      the whole value, then the comma-separated pieces stripped of white
      space. */
  function TimezoneEntries(raw: string): seq<string> {
    TrimAll(Split(StripChars(raw, {'[', ']'}), ','))
  }

  /** The entries pytz accepts, in their order. */
  function ValidEntries(raw: string, isValidTz: string -> bool): (r: seq<string>)
    ensures forall tz :: tz in r <==> tz in TimezoneEntries(raw) && isValidTz(tz)
  {
    Filter(TimezoneEntries(raw), isValidTz)
  }

  /** The list parse_timezone_list returns. It is never empty: a missing or
      empty variable, or one without a valid entry, gives the default alone;
      otherwise it is the valid entries, in their order. */
  function TimezoneList(raw: Option<string>, isValidTz: string -> bool, default: string): (r: seq<string>)
    ensures |r| > 0
    ensures (raw.None? || raw.value == "" || |ValidEntries(raw.value, isValidTz)| == 0) ==> r == [default]
    ensures raw.Some? && raw.value != "" && |ValidEntries(raw.value, isValidTz)| > 0 ==>
              r == ValidEntries(raw.value, isValidTz)
  {
    if raw.None? || raw.value == "" then [default]
    else
      var valid := ValidEntries(raw.value, isValidTz);
      if |valid| == 0 then [default] else valid
  }

  /** The validation loop, appending each entry pytz accepts. */
  method KeepValidTimezones(entries: seq<string>, isValidTz: string -> bool) returns (valid: seq<string>)
    ensures valid == Filter(entries, isValidTz)
  {
    valid := [];
    for i := 0 to |entries|
      invariant valid == Filter(entries[..i], isValidTz)
    {
      FilterPrefixStep(entries, i, isValidTz);
      if isValidTz(entries[i]) {
        valid := valid + [entries[i]];
      }
    }
    assert entries[..|entries|] == entries;
  }

  method ParseTimezoneList(env: Env, name: string, isValidTz: string -> bool, default: string) returns (timezones: seq<string>)
    ensures timezones == TimezoneList(GetEnv(env, name), isValidTz, default)
  {
    var raw := GetEnv(env, name);
    if raw.None? || raw.value == "" {
      return [default];
    }
    timezones := KeepValidTimezones(TimezoneEntries(raw.value), isValidTz);
    if |timezones| == 0 {
      return [default];
    }
  }

  // ---------------------------------------------------------------------
  // get_timezone_specific_start_date
  // ---------------------------------------------------------------------

  /** START_DATE_<report type>_<timezone with every '/' as '_'>. */
  function StartDateVariable(reportType: string, tz: string): string {
    "START_DATE_" + reportType + "_" + ReplaceChar(tz, '/', '_')
  }

  function TimezoneStartDate(env: Env, reportType: string, tz: string, default: string): (r: string)
    ensures StartDateVariable(reportType, tz) in env ==> r == env[StartDateVariable(reportType, tz)]
    ensures StartDateVariable(reportType, tz) !in env ==> r == default
  {
    var v := GetEnv(env, StartDateVariable(reportType, tz));
    if v.Some? then v.value else default
  }

  /** Two timezones share a start-date variable exactly when they agree
      once '/' is read as '_' (so America/New_York and America_New_York
      collide). */
  lemma StartDateVariableShared(reportType: string, a: string, b: string)
    ensures StartDateVariable(reportType, a) == StartDateVariable(reportType, b) <==>
            ReplaceChar(a, '/', '_') == ReplaceChar(b, '/', '_')
  {
    var p := "START_DATE_" + reportType + "_";
    if StartDateVariable(reportType, a) == StartDateVariable(reportType, b) {
      assert ReplaceChar(a, '/', '_') == StartDateVariable(reportType, a)[|p|..];
      assert ReplaceChar(b, '/', '_') == StartDateVariable(reportType, b)[|p|..];
    }
  }

  /** The timezone part of the variable name never holds a '/'. */
  lemma StartDateVariableNoSlash(reportType: string, tz: string)
    requires '/' !in reportType
    ensures '/' !in StartDateVariable(reportType, tz)
  {
    var r := ReplaceChar(tz, '/', '_');
    assert '/' !in r;
    assert StartDateVariable(reportType, tz) == "START_DATE_" + reportType + "_" + r;
  }

  // ---------------------------------------------------------------------
  // get_payload
  // ---------------------------------------------------------------------

  datatype Payload = Payload(fields: seq<string>, bidDay: string, resultFormat: string, limit: int, view: string,
                             queryTimezone: Option<string>)

  const PayloadLimit := 30000

  /** payloads[report_type]["fields"]; None is the KeyError. */
  function ReportFields(reportType: string): Option<seq<string>> {
    if reportType == "Beeswax_Spend" then
      Some(["campaign_id", "line_item_id", "bid_day", "campaign_name", "line_item_name", "spend", "impression", "clicks"])
    else if reportType == "Beeswax_Reach_LI" then
      Some(["campaign_id", "line_item_id", "campaign_name", "line_item_name", "reach_standard_fallback"])
    else if reportType == "Beeswax_Reach_C" then
      Some(["campaign_name", "reach_standard_fallback"])
    else None
  }

  /** Python's truth value of the optional timezone argument. */
  predicate HasTimezone(tz: Option<string>) {
    tz.Some? && tz.value != ""
  }

  function GetPayload(reportType: string, startPeriod: string, endPeriod: string, tz: Option<string>): (r: Result<Payload, Error>)
    ensures r.Err? <==> ReportFields(reportType).None?
    ensures r.Ok? ==> r.value.fields == ReportFields(reportType).value && r.value.resultFormat == "csv" &&
                      r.value.limit == PayloadLimit && r.value.view == "performance_agg"
    ensures r.Ok? ==> (r.value.queryTimezone.Some? <==> HasTimezone(tz))
    ensures r.Ok? && HasTimezone(tz) ==> r.value.queryTimezone == tz
  {
    var fields := ReportFields(reportType);
    if fields.None? then Err(UnknownReportType)
    else
      Ok(Payload(fields.value, startPeriod + " to " + endPeriod, "csv", PayloadLimit, "performance_agg",
                 if HasTimezone(tz) then tz else None))
  }

  /** For dates written by strftime, bid_day splits on spaces back into the
      period's first and last dates. */
  lemma BidDayRoundTrip(reportType: string, startDay: Date, endDay: Date, tz: Option<string>)
    requires Valid(startDay) && Valid(endDay) && ReportFields(reportType).Some?
    ensures var r := GetPayload(reportType, Format(startDay), Format(endDay), tz);
            r.Ok? && Split(r.value.bidDay, ' ') == [Format(startDay), "to", Format(endDay)]
  {
    var a, b := Format(startDay), Format(endDay);
    FormatHasNoSpace(startDay);
    FormatHasNoSpace(endDay);
    SplitNoSep(b, ' ');
    assert ' ' !in "to";
    SplitAfterPiece("to", ' ', b);
    SplitAfterPiece(a, ' ', "to" + [' '] + b);
    PeriodRegrouped(a, b);
  }

  lemma PeriodRegrouped(a: string, b: string)
    ensures a + " to " + b == a + [' '] + ("to" + [' '] + b)
  {
  }

  lemma FormatHasNoSpace(d: Date)
    requires Valid(d)
    ensures ' ' !in Format(d)
  {
    DashedDigitsHaveNoSpace(Pad(d.year, 4), Pad(d.month, 2), Pad(d.day, 2));
  }

  lemma DashedDigitsHaveNoSpace(y: string, m: string, d: string)
    requires AllDigits(y) && AllDigits(m) && AllDigits(d)
    ensures ' ' !in y + "-" + m + "-" + d
  {
    var s := y + "-" + m + "-" + d;
    forall k | 0 <= k < |s| ensures s[k] != ' ' {
      if k < |y| { assert s[k] == y[k]; }
      else if k == |y| || k == |y| + 1 + |m| { }
      else if k < |y| + 1 + |m| { assert s[k] == m[k - |y| - 1]; }
      else { assert s[k] == d[k - |y| - 2 - |m|]; }
    }
  }

  // ---------------------------------------------------------------------
  // The intervals request_report submits
  // ---------------------------------------------------------------------

  /** A requested period, as the two date strings sent. */
  datatype Interval = Interval(from: string, to: string)

  /** A requested period of the month loop, as dates. */
  datatype Span = Span(from: Date, to: Date)

  predicate AllValid(spans: seq<Span>) {
    forall i :: 0 <= i < |spans| ==> Valid(spans[i].from) && Valid(spans[i].to)
  }

  /** The spans as strftime("%Y-%m-%d") writes them. */
  function Formatted(spans: seq<Span>): (r: seq<Interval>)
    requires AllValid(spans)
    ensures |r| == |spans|
    ensures forall i :: 0 <= i < |spans| ==> r[i] == Interval(Format(spans[i].from), Format(spans[i].to))
  {
    seq(|spans|, i requires 0 <= i < |spans| => Interval(Format(spans[i].from), Format(spans[i].to)))
  }

  lemma FormattedConcat(a: seq<Span>, b: seq<Span>)
    requires AllValid(a) && AllValid(b)
    ensures AllValid(a + b) && Formatted(a + b) == Formatted(a) + Formatted(b)
  {
    assert forall i :: 0 <= i < |a + b| ==> (a + b)[i] == if i < |a| then a[i] else b[i - |a|];
  }

  /** Months counted from year 0: one more for each following month. */
  function MonthIndex(d: Date): int {
    d.year * 12 + d.month
  }

  /** What one pass of the while loop submits for `current`: two halves
      split at first_half_end, the second running to the first of the next
      month; in today's month the plan stops at today, and a day of the
      month not past mid-month leaves a single span. */
  function MonthSpans(current: Date, today: Date, todayDay: int): (r: seq<Span>)
    requires Valid(current) && Valid(today)
    requires !(current.year == MaxYear && current.month == 12)
    ensures AllValid(r)
  {
    NextMonthStartIsFirstOfNextMonth(current);
    FirstHalfEndDay(current);
    var firstHalfEnd := FirstHalfEnd(current);
    if SameMonth(current, today) then
      if todayDay <= MidMonth(current) then [Span(current, today)]
      else [Span(current, firstHalfEnd), Span(firstHalfEnd, today)]
    else [Span(current, firstHalfEnd), Span(firstHalfEnd, NextMonthStart(current))]
  }

  /** The while loop from `current` on; Err is the OverflowError next_month
      raises in December 9999. */
  function PlanMonths(current: Date, end: Date, today: Date, todayDay: int): (r: Result<seq<Span>, Error>)
    requires Valid(current) && Valid(end) && Valid(today)
    ensures r.Ok? ==> AllValid(r.value)
    decreases MonthIndex(end) - MonthIndex(current)
  {
    if !NotAfter(current, end) then Ok([])
    else if current.year == MaxYear && current.month == 12 then Err(DateOverflow)
    else
      NextMonthStartIsFirstOfNextMonth(current);
      var next := NextMonthStart(current);
      match PlanMonths(next, end, today, todayDay)
      case Ok(rest) =>
        var block := MonthSpans(current, today, todayDay);
        FormattedConcat(block, rest);
        Ok(block + rest)
      case Err(e) => Err(e)
  }

  /** The intervals request_report submits, in submission order: the two
      dates are parsed first (ValueError is BadDate); without splitting the
      original strings form one interval, with it the month loop's spans
      are sent as strftime writes them. */
  function Intervals(startDate: string, endDate: string, today: Date, todayDay: int, splitByMonth: bool): Result<seq<Interval>, Error>
    requires Valid(today)
  {
    var start, end := Parse(startDate), Parse(endDate);
    if start.None? || end.None? then Err(BadDate)
    else if !splitByMonth then Ok([Interval(startDate, endDate)])
    else match PlanMonths(start.value, end.value, today, todayDay)
      case Ok(spans) => Ok(Formatted(spans))
      case Err(e) => Err(e)
  }

  /** `done` followed by what the loop still submits. */
  function Prepend(done: seq<Span>, r: Result<seq<Span>, Error>): Result<seq<Span>, Error> {
    match r
    case Ok(rest) => Ok(done + rest)
    case Err(e) => Err(e)
  }

  lemma PrependNothing(r: Result<seq<Span>, Error>)
    ensures Prepend([], r) == r
  {
    if r.Ok? {
      assert [] + r.value == r.value;
    }
  }

  /** One pass of the month loop: the intervals submitted for `current`.
      month_end is computed by the source but never submitted, so it is
      left out. */
  method MonthTasks(current: Date, today: Date, todayDay: int) returns (block: seq<Interval>)
    requires Valid(current) && Valid(today) && !(current.year == MaxYear && current.month == 12)
    ensures block == Formatted(MonthSpans(current, today, todayDay))
  {
    NextMonthStartIsFirstOfNextMonth(current);
    FirstHalfEndDay(current);
    var monthStart := Format(current);
    var nextMonth := NextMonthStart(current);
    var midMonth := MidMonth(current);
    var firstHalfEnd := Format(FirstHalfEnd(current));
    var secondHalfStart := firstHalfEnd;
    if SameMonth(current, today) {
      if todayDay <= midMonth {
        block := [Interval(monthStart, Format(today))];
      } else {
        block := [Interval(monthStart, firstHalfEnd), Interval(secondHalfStart, Format(today))];
      }
    } else {
      block := [Interval(monthStart, firstHalfEnd), Interval(secondHalfStart, Format(nextMonth))];
    }
  }

  lemma PlanStep(current: Date, end: Date, today: Date, todayDay: int, done: seq<Span>)
    requires Valid(current) && Valid(end) && Valid(today)
    requires NotAfter(current, end) && !(current.year == MaxYear && current.month == 12)
    ensures Valid(NextMonthStart(current))
    ensures Prepend(done, PlanMonths(current, end, today, todayDay)) ==
            Prepend(done + MonthSpans(current, today, todayDay), PlanMonths(NextMonthStart(current), end, today, todayDay))
  {
    NextMonthStartIsFirstOfNextMonth(current);
    var r := PlanMonths(NextMonthStart(current), end, today, todayDay);
    if r.Ok? {
      assert done + (MonthSpans(current, today, todayDay) + r.value) ==
             (done + MonthSpans(current, today, todayDay)) + r.value;
    }
  }

  /** The month loop of request_report, from the parsed first date. */
  method PlanSplit(start: Date, end: Date, today: Date, todayDay: int) returns (r: Result<seq<Interval>, Error>)
    requires Valid(start) && Valid(end) && Valid(today)
    ensures match PlanMonths(start, end, today, todayDay)
            case Ok(spans) => r == Ok(Formatted(spans))
            case Err(e) => r == Err(e)
  {
    var current := start;
    var tasks: seq<Interval> := [];
    ghost var done: seq<Span> := [];
    PrependNothing(PlanMonths(current, end, today, todayDay));
    while NotAfter(current, end)
      invariant Valid(current) && AllValid(done) && tasks == Formatted(done)
      invariant PlanMonths(start, end, today, todayDay) == Prepend(done, PlanMonths(current, end, today, todayDay))
      decreases MonthIndex(end) - MonthIndex(current)
    {
      if current.year == MaxYear && current.month == 12 {
        return Err(DateOverflow);
      }
      PlanStep(current, end, today, todayDay, done);
      NextMonthStartIsFirstOfNextMonth(current);
      var block := MonthTasks(current, today, todayDay);
      FormattedConcat(done, MonthSpans(current, today, todayDay));
      tasks := tasks + block;
      done := done + MonthSpans(current, today, todayDay);
      current := NextMonthStart(current);
    }
    assert done + [] == done;
    return Ok(tasks);
  }

  /** The interval part of request_report: both dates are parsed, then
      either one interval or the month loop. */
  method RequestIntervals(startDate: string, endDate: string, today: Date, todayDay: int, splitByMonth: bool)
    returns (r: Result<seq<Interval>, Error>)
    requires Valid(today)
    ensures r == Intervals(startDate, endDate, today, todayDay, splitByMonth)
  {
    var start, end := Parse(startDate), Parse(endDate);
    if start.None? || end.None? {
      return Err(BadDate);
    }
    if !splitByMonth {
      return Ok([Interval(startDate, endDate)]);
    }
    r := PlanSplit(start.value, end.value, today, todayDay);
  }

  /** A month other than today's gives exactly the two halves: up to day
      days_in_month // 2 + 1, and from there to the first of the next
      month. */
  lemma OtherMonthSpans(current: Date, today: Date, todayDay: int)
    requires Valid(current) && Valid(today) && !(current.year == MaxYear && current.month == 12)
    requires !SameMonth(current, today)
    ensures var mid := current.(day := DaysInMonth(current.year, current.month) / 2 + 1);
            Valid(mid) && 15 <= mid.day <= 16 &&
            MonthSpans(current, today, todayDay) == [Span(current, mid), Span(mid, FirstOfNextMonth(current))]
  {
    NextMonthStartIsFirstOfNextMonth(current);
    FirstHalfEndDay(current);
  }

  /** Today's month ends at today: in one span while today_day is at most
      days_in_month // 2, otherwise in two split at day
      days_in_month // 2 + 1. */
  lemma TodayMonthSpans(current: Date, today: Date, todayDay: int)
    requires Valid(current) && Valid(today) && !(current.year == MaxYear && current.month == 12)
    requires SameMonth(current, today)
    ensures var mid := current.(day := DaysInMonth(current.year, current.month) / 2 + 1);
            Valid(mid) &&
            (todayDay <= DaysInMonth(current.year, current.month) / 2 ==>
              MonthSpans(current, today, todayDay) == [Span(current, today)]) &&
            (todayDay > DaysInMonth(current.year, current.month) / 2 ==>
              MonthSpans(current, today, todayDay) == [Span(current, mid), Span(mid, today)])
  {
    FirstHalfEndDay(current);
  }

  /** The plan fails exactly when it would have to step past December 9999. */
  lemma {:induction false} PlanMonthsOverflow(current: Date, end: Date, today: Date, todayDay: int)
    requires Valid(current) && Valid(end) && Valid(today)
    ensures PlanMonths(current, end, today, todayDay).Err? <==>
            NotAfter(current, end) && end.year == MaxYear && end.month == 12
    decreases MonthIndex(end) - MonthIndex(current)
  {
    if NotAfter(current, end) && !(current.year == MaxYear && current.month == 12) {
      NextMonthStartIsFirstOfNextMonth(current);
      var next := NextMonthStart(current);
      PlanMonthsOverflow(next, end, today, todayDay);
      if !NotAfter(next, end) {
        assert SameMonth(current, end);
      }
    }
  }

  /** Each span starts where the previous one ended. */
  predicate Contiguous(spans: seq<Span>) {
    forall k, k' :: 0 <= k < |spans| && 0 <= k' < |spans| && k' == k + 1 ==> spans[k].to == spans[k'].from
  }

  lemma ContiguousConcat(a: seq<Span>, b: seq<Span>)
    requires Contiguous(a) && Contiguous(b) && |a| > 0 && |b| > 0 && a[|a| - 1].to == b[0].from
    ensures Contiguous(a + b)
  {
    forall k, k' | 0 <= k < |a + b| && 0 <= k' < |a + b| && k' == k + 1
      ensures (a + b)[k].to == (a + b)[k'].from
    {
      if k' < |a| {
        assert (a + b)[k] == a[k] && (a + b)[k'] == a[k'];
      } else if k == |a| - 1 {
        assert (a + b)[k] == a[|a| - 1] && (a + b)[k'] == b[0];
      } else {
        assert (a + b)[k] == b[k - |a|] && (a + b)[k'] == b[k' - |a|];
      }
    }
  }

  /** The spans form one chain from `current`: each starts where the
      previous one ended, and the last ends at today in today's month or at
      the first of the month after `end`; every month before today's gives
      two spans. A chain need not run forwards (LateStartRunsBackwards). */
  predicate ChainsRange(spans: seq<Span>, current: Date, end: Date, today: Date) {
    |spans| > 0 && spans[0].from == current && Contiguous(spans) &&
    spans[|spans| - 1].to == (if SameMonth(end, today) then today else FirstOfNextMonth(end)) &&
    (!SameMonth(end, today) ==> |spans| == 2 * (MonthIndex(end) - MonthIndex(current) + 1))
  }

  /** When the last month requested is not after today's month, the split
      plan is one chain: it starts at the first date, each span starts
      where the previous one ended, and it ends at today in today's month
      or at the first of the month after the last one; each month before
      today's gives two spans (December 9999 is the overflow case of
      PlanMonthsOverflow). With a start past first_half_end the first two
      spans of that chain run backwards and then back over earlier days
      (LateStartRunsBackwards). */
  lemma {:induction false} PlanChains(current: Date, end: Date, today: Date, todayDay: int)
    requires Valid(current) && Valid(end) && Valid(today)
    requires NotAfter(current, end) && MonthIndex(end) <= MonthIndex(today)
    requires !(end.year == MaxYear && end.month == 12)
    ensures var r := PlanMonths(current, end, today, todayDay);
            r.Ok? && ChainsRange(r.value, current, end, today)
    decreases MonthIndex(end) - MonthIndex(current)
  {
    NextMonthStartIsFirstOfNextMonth(current);
    var next := NextMonthStart(current);
    if NotAfter(next, end) {
      assert !SameMonth(current, today);
      PlanChains(next, end, today, todayDay);
      PlanChainsStep(current, end, today, todayDay);
    } else {
      PlanChainsLastMonth(current, end, today, todayDay);
    }
  }

  /** The last month of the plan. */
  lemma PlanChainsLastMonth(current: Date, end: Date, today: Date, todayDay: int)
    requires Valid(current) && Valid(end) && Valid(today)
    requires NotAfter(current, end) && MonthIndex(end) <= MonthIndex(today)
    requires !(end.year == MaxYear && end.month == 12)
    requires !NotAfter(NextMonthStart(current), end)
    ensures var r := PlanMonths(current, end, today, todayDay);
            r.Ok? && ChainsRange(r.value, current, end, today)
  {
    NextMonthStartIsFirstOfNextMonth(current);
    var block := MonthSpans(current, today, todayDay);
    assert SameMonth(current, end);
    if SameMonth(current, today) {
      TodayMonthSpans(current, today, todayDay);
    } else {
      OtherMonthSpans(current, today, todayDay);
    }
    assert PlanMonths(NextMonthStart(current), end, today, todayDay) == Ok([]);
    assert block + [] == block;
  }

  /** A month before the last one puts its two halves in front of the rest. */
  lemma PlanChainsStep(current: Date, end: Date, today: Date, todayDay: int)
    requires Valid(current) && Valid(end) && Valid(today)
    requires NotAfter(current, end) && !SameMonth(current, today)
    requires !(current.year == MaxYear && current.month == 12)
    requires Valid(NextMonthStart(current)) && NotAfter(NextMonthStart(current), end)
    requires var r := PlanMonths(NextMonthStart(current), end, today, todayDay);
             r.Ok? && ChainsRange(r.value, NextMonthStart(current), end, today)
    ensures var r := PlanMonths(current, end, today, todayDay);
            r.Ok? && ChainsRange(r.value, current, end, today)
  {
    NextMonthStartIsFirstOfNextMonth(current);
    var next := NextMonthStart(current);
    var rest := PlanMonths(next, end, today, todayDay).value;
    var block := MonthSpans(current, today, todayDay);
    OtherMonthSpans(current, today, todayDay);
    assert PlanMonths(current, end, today, todayDay) == Ok(block + rest);
    SpansCons(block, rest, current, next, end, today);
  }

  lemma SpansCons(block: seq<Span>, rest: seq<Span>, current: Date, next: Date, end: Date, today: Date)
    requires |block| == 2 && block[0].from == current && block[0].to == block[1].from && block[1].to == next
    requires MonthIndex(next) == MonthIndex(current) + 1
    requires ChainsRange(rest, next, end, today)
    ensures ChainsRange(block + rest, current, end, today)
  {
    assert Contiguous(block);
    ContiguousConcat(block, rest);
    assert (block + rest)[0] == block[0];
    assert (block + rest)[|block + rest| - 1] == rest[|rest| - 1];
  }

  /** Every span runs forwards and none starts before `current`. */
  predicate ForwardFrom(spans: seq<Span>, current: Date) {
    forall k :: 0 <= k < |spans| ==> NotAfter(current, spans[k].from) && NotAfter(spans[k].from, spans[k].to)
  }

  /** A start past first_half_end: for 2024-01-20 the pass asks for
      2024-01-20 to 2024-01-16, a span that runs backwards, and then for
      2024-01-16 to 2024-02-01, which starts before the date asked for. */
  lemma LateStartRunsBackwards()
    ensures var r := MonthSpans(Date(2024, 1, 20), Date(2024, 3, 1), 1);
            r == [Span(Date(2024, 1, 20), Date(2024, 1, 16)), Span(Date(2024, 1, 16), Date(2024, 2, 1))] &&
            !NotAfter(r[0].from, r[0].to) && !ForwardFrom(r, Date(2024, 1, 20))
  {
    OtherMonthSpans(Date(2024, 1, 20), Date(2024, 3, 1), 1);
    assert DaysInMonth(2024, 1) == 31;
  }

  /** One pass of the loop as it is evidently meant: a start on or after
      first_half_end has no first half left and gives a single span from
      the start; otherwise the pass is MonthSpans's. */
  function MonthSpansFromStart(current: Date, today: Date, todayDay: int): (r: seq<Span>)
    requires Valid(current) && Valid(today)
    requires !(current.year == MaxYear && current.month == 12)
    ensures AllValid(r)
  {
    NextMonthStartIsFirstOfNextMonth(current);
    FirstHalfEndDay(current);
    var firstHalfEnd := FirstHalfEnd(current);
    var stop := if SameMonth(current, today) then today else NextMonthStart(current);
    if NotAfter(firstHalfEnd, current) || (SameMonth(current, today) && todayDay <= MidMonth(current)) then
      [Span(current, stop)]
    else [Span(current, firstHalfEnd), Span(firstHalfEnd, stop)]
  }

  /** The corrected pass starts at `current`, runs forwards without
      starting before it, and is one chain ending where MonthSpans's pass
      ends: at today in today's month, or at the first of the next month.
      In today's month it needs a start not after today and a local day of
      the month that is today's UTC day. */
  lemma FromStartForward(current: Date, today: Date, todayDay: int)
    requires Valid(current) && Valid(today)
    requires !(current.year == MaxYear && current.month == 12)
    requires SameMonth(current, today) ==> current.day <= today.day && todayDay == today.day
    ensures var r := MonthSpansFromStart(current, today, todayDay);
            |r| > 0 && r[0].from == current && ForwardFrom(r, current) && Contiguous(r) &&
            r[|r| - 1].to == (if SameMonth(current, today) then today else FirstOfNextMonth(current)) &&
            r[|r| - 1].to == MonthSpans(current, today, todayDay)[|MonthSpans(current, today, todayDay)| - 1].to
  {
    NextMonthStartIsFirstOfNextMonth(current);
    FirstHalfEndDay(current);
    var r := MonthSpansFromStart(current, today, todayDay);
    var firstHalfEnd := FirstHalfEnd(current);
    var stop := if SameMonth(current, today) then today else NextMonthStart(current);
    assert NotAfter(current, stop);
    if |r| == 2 {
      assert r == [Span(current, firstHalfEnd), Span(firstHalfEnd, stop)];
      assert NotAfter(current, firstHalfEnd) && NotAfter(firstHalfEnd, stop);
    } else {
      assert r == [Span(current, stop)];
    }
  }

  /** A start not past mid-month, as every month after the first has (it
      starts on the 1st), gets the same pass from the code as written. */
  lemma FromStartAgreesEarly(current: Date, today: Date, todayDay: int)
    requires Valid(current) && Valid(today)
    requires !(current.year == MaxYear && current.month == 12)
    requires current.day <= MidMonth(current)
    ensures MonthSpansFromStart(current, today, todayDay) == MonthSpans(current, today, todayDay)
  {
    FirstHalfEndDay(current);
  }

  // ---------------------------------------------------------------------
  // File names: fetch_report writes them, merge_reports selects them
  // ---------------------------------------------------------------------

  /** _tz_<timezone with every '/' as '_'>, or nothing without a timezone. */
  function TzSuffix(tz: Option<string>): string {
    if HasTimezone(tz) then "_tz_" + ReplaceChar(tz.value, '/', '_') else ""
  }

  /** The name fetch_report saves a downloaded report under. */
  function FetchFileName(reportType: string, startPeriod: string, endPeriod: string, tz: Option<string>, taskId: string): string {
    Lower(reportType) + "_" + startPeriod + "_to_" + endPeriod + TzSuffix(tz) + "_" + taskId + ".csv"
  }

  /** Reports of different tasks with the same period and timezone never
      overwrite each other. */
  lemma FetchFileNameDistinct(reportType: string, startPeriod: string, endPeriod: string, tz: Option<string>,
                              t1: string, t2: string)
    requires FetchFileName(reportType, startPeriod, endPeriod, tz, t1) == FetchFileName(reportType, startPeriod, endPeriod, tz, t2)
    ensures t1 == t2
  {
    var p := Lower(reportType) + "_" + startPeriod + "_to_" + endPeriod + TzSuffix(tz) + "_";
    var n1, n2 := FetchFileName(reportType, startPeriod, endPeriod, tz, t1), FetchFileName(reportType, startPeriod, endPeriod, tz, t2);
    assert n1 == p + t1 + ".csv" && n2 == p + t2 + ".csv";
    assert t1 == n1[|p|..|n1| - 4];
    assert t2 == n2[|p|..|n2| - 4];
  }

  const ReportPrefix := "Beeswax_"

  /** The filter of merge_reports over the names in beeswax_raw. */
  predicate Selected(fileName: string, reportName: string, tz: Option<string>) {
    var pattern := Lower(RemoveAll(reportName, ReportPrefix));
    Contains(Lower(fileName), pattern) && (HasTimezone(tz) ==> Contains(fileName, TzSuffix(tz))) &&
    IsSuffix(".csv", fileName)
  }

  function SelectFiles(fileNames: seq<string>, reportName: string, tz: Option<string>): (r: seq<string>)
    ensures forall f :: f in r <==> f in fileNames && Selected(f, reportName, tz)
  {
    Filter(fileNames, f => Selected(f, reportName, tz))
  }

  lemma PatternOfReportName(x: string)
    requires !Contains(x, ReportPrefix)
    ensures RemoveAll(ReportPrefix + x, ReportPrefix) == x
  {
    var reportName := ReportPrefix + x;
    assert IsPrefix(ReportPrefix, reportName);
    assert reportName[|ReportPrefix|..] == x;
    RemoveAllAbsent(x, ReportPrefix);
  }

  lemma LowerOfLowered(a: string, b: string, tail: string)
    ensures Lower(Lower(a + b) + tail) == Lower(a) + Lower(b) + Lower(tail)
  {
    LowerConcat(a, b);
    LowerIdempotent(a + b);
    LowerConcat(Lower(a + b), tail);
  }

  lemma FetchNameEnds(reportType: string, startPeriod: string, endPeriod: string, tz: Option<string>, taskId: string)
    ensures IsSuffix(".csv", FetchFileName(reportType, startPeriod, endPeriod, tz, taskId))
  {
  }

  lemma FetchNameHasTimezone(reportType: string, startPeriod: string, endPeriod: string, tz: Option<string>, taskId: string)
    ensures Contains(FetchFileName(reportType, startPeriod, endPeriod, tz, taskId), TzSuffix(tz))
  {
    var head := Lower(reportType) + "_" + startPeriod + "_to_" + endPeriod;
    var rest := "_" + taskId + ".csv";
    assert FetchFileName(reportType, startPeriod, endPeriod, tz, taskId) == head + TzSuffix(tz) + rest;
    ContainsMiddle(head, TzSuffix(tz), rest);
  }

  lemma FetchNameHasPattern(x: string, startPeriod: string, endPeriod: string, tz: Option<string>, taskId: string)
    requires !Contains(x, ReportPrefix)
    ensures Contains(Lower(FetchFileName(ReportPrefix + x, startPeriod, endPeriod, tz, taskId)),
                     Lower(RemoveAll(ReportPrefix + x, ReportPrefix)))
  {
    var tail := "_" + startPeriod + "_to_" + endPeriod + TzSuffix(tz) + "_" + taskId + ".csv";
    assert FetchFileName(ReportPrefix + x, startPeriod, endPeriod, tz, taskId) == Lower(ReportPrefix + x) + tail;
    PatternOfReportName(x);
    LowerOfLowered(ReportPrefix, x, tail);
    ContainsMiddle(Lower(ReportPrefix), Lower(x), Lower(tail));
  }

  /** A report that fetch_report saved for Beeswax_<X> and a timezone is
      among the files merge_reports(Beeswax_<X>, timezone) merges. */
  lemma FetchedFileSelected(x: string, startPeriod: string, endPeriod: string, tz: Option<string>, taskId: string)
    requires !Contains(x, ReportPrefix)
    ensures Selected(FetchFileName(ReportPrefix + x, startPeriod, endPeriod, tz, taskId), ReportPrefix + x, tz)
  {
    FetchNameEnds(ReportPrefix + x, startPeriod, endPeriod, tz, taskId);
    FetchNameHasTimezone(ReportPrefix + x, startPeriod, endPeriod, tz, taskId);
    FetchNameHasPattern(x, startPeriod, endPeriod, tz, taskId);
  }

  /** The name of the merged file. */
  function MergedFileName(reportName: string, tz: Option<string>, today: Date): string
    requires Valid(today)
  {
    reportName + TzSuffix(tz) + "_" + RemoveAll(Format(today), "-") + ".csv"
  }

  lemma {:induction false} RemoveDashAfter(a: string, b: string)
    requires '-' !in a
    ensures RemoveAll(a + "-" + b, "-") == a + RemoveAll(b, "-")
    decreases |a|
  {
    if |a| == 0 {
      assert a + "-" + b == "-" + b;
      assert ("-" + b)[1..] == b;
    } else {
      assert (a + "-" + b)[0] == a[0] && a[0] in a;
      assert !IsPrefix("-", a + "-" + b);
      assert (a + "-" + b)[1..] == a[1..] + "-" + b;
      RemoveDashAfter(a[1..], b);
      assert [a[0]] + a[1..] == a;
    }
  }

  /** today.replace('-', ''): the eight digits YYYYMMDD. */
  lemma FormatWithoutDashes(today: Date)
    requires Valid(today)
    ensures RemoveAll(Format(today), "-") == Pad(today.year, 4) + Pad(today.month, 2) + Pad(today.day, 2)
  {
    var y, m, d := Pad(today.year, 4), Pad(today.month, 2), Pad(today.day, 2);
    DigitsHaveNoDash(y);
    DigitsHaveNoDash(m);
    DigitsHaveNoDash(d);
    DashesRemoved(y, m, d);
  }

  lemma DashesRemoved(y: string, m: string, d: string)
    requires '-' !in y && '-' !in m && '-' !in d
    ensures RemoveAll(y + "-" + m + "-" + d, "-") == y + m + d
  {
    var t := m + "-" + d;
    DashRemovedBetween(m, d);
    RemoveDashAfter(y, t);
    DashedRegrouped(y, m, d);
  }

  lemma DashedRegrouped(y: string, m: string, d: string)
    ensures y + "-" + m + "-" + d == y + "-" + (m + "-" + d)
  {
  }

  lemma DashRemovedBetween(m: string, d: string)
    requires '-' !in m && '-' !in d
    ensures RemoveAll(m + "-" + d, "-") == m + d
  {
    MissingCharNotContained(d, "-", '-');
    RemoveAllAbsent(d, "-");
    RemoveDashAfter(m, d);
  }

  /** The merged file is dated with today's eight digits, YYYYMMDD. */
  lemma MergedFileDate(reportName: string, tz: Option<string>, today: Date)
    requires Valid(today)
    ensures MergedFileName(reportName, tz, today) ==
            reportName + TzSuffix(tz) + "_" + Pad(today.year, 4) + Pad(today.month, 2) + Pad(today.day, 2) + ".csv"
  {
    FormatWithoutDashes(today);
  }
}
