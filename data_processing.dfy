/** `DataProcessor` of security_project/tools/data_processing.py: a frame of
    log rows that is cleaned, categorised by keyword tables, filtered and
    counted. `pd.to_datetime(..., errors='coerce')` on one cell is the
    parameter `parse`. */
module DataProcessing {
  import opened Wrappers
  import opened Text
  import opened Seqs
  import opened Keywords

  /** A `timestamp` cell: missing (`NaN`/`NaT`), text not yet converted, or a
      converted instant. */
  datatype Stamp = Missing | Raw(text: string) | Instant(time: int)

  /** One row of `log_data`; a missing string cell is `None`. `severity` and
      `eventType` mean something only while the frame has that column. */
  datatype Row = Row(
    timestamp: Stamp,
    host: Option<string>,
    process: Option<string>,
    message: Option<string>,
    severity: string,
    eventType: string,
    ips: Option<string>)

  /** `SEVERITY_KEYWORDS`, in its order. */
  const SeverityRules: seq<Rule> := [
    Rule("CRITICAL", ["failed", "unauthorized", "denied"]),
    Rule("WARNING", ["timeout", "disconnected", "invalid"]),
    Rule("INFO", ["accepted", "connected", "successful"])
  ]

  /** `EVENT_TYPES`, in its order. */
  const EventTypeRules: seq<Rule> := [
    Rule("login", ["login", "signin", "authentication"]),
    Rule("logout", ["logout", "signoff"]),
    Rule("access", ["access", "connect", "session"])
  ]

  /** The default of `filter_by_severity`. */
  const Levels: seq<string> := ["CRITICAL", "WARNING", "INFO"]

  /** `determine_severity`: the first level with a keyword in the lowercased
      message, INFO otherwise. */
  function DetermineSeverity(message: string): string {
    FirstHit(SeverityRules, Lower(message), "INFO")
  }

  /** `determine_event_type`: the first type with a keyword in the lowercased
      message, "other" otherwise. */
  function DetermineEventType(message: string): string {
    FirstHit(EventTypeRules, Lower(message), "other")
  }

  /** Severity is decided first-match-wins: CRITICAL exactly when a CRITICAL
      keyword occurs, WARNING exactly when no CRITICAL keyword but a WARNING
      one does, and INFO otherwise, whether or not an INFO keyword occurs. */
  lemma SeverityFirstMatch(message: string)
    ensures var text := Lower(message);
      && (DetermineSeverity(message) == "CRITICAL" <==> AnyIn(["failed", "unauthorized", "denied"], text))
      && (DetermineSeverity(message) == "WARNING"
          <==> !AnyIn(["failed", "unauthorized", "denied"], text) && AnyIn(["timeout", "disconnected", "invalid"], text))
      && (DetermineSeverity(message) == "INFO"
          <==> !AnyIn(["failed", "unauthorized", "denied"], text) && !AnyIn(["timeout", "disconnected", "invalid"], text))
  {
    var text := Lower(message);
    var t1 := SeverityRules[1..];
    var t2 := t1[1..];
    assert t2[1..] == [];
    assert FirstHit(t2, text, "INFO") == "INFO";
    assert FirstHit(t1, text, "INFO") == if AnyIn(t1[0].keywords, text) then "WARNING" else "INFO";
  }

  /** The event type is decided first-match-wins over login, logout, access,
      with "other" when no keyword occurs. */
  lemma EventTypeFirstMatch(message: string)
    ensures var text := Lower(message);
      var login := AnyIn(["login", "signin", "authentication"], text);
      var logout := AnyIn(["logout", "signoff"], text);
      var access := AnyIn(["access", "connect", "session"], text);
      && (DetermineEventType(message) == "login" <==> login)
      && (DetermineEventType(message) == "logout" <==> !login && logout)
      && (DetermineEventType(message) == "access" <==> !login && !logout && access)
      && (DetermineEventType(message) == "other" <==> !login && !logout && !access)
  {
    var text := Lower(message);
    var t1 := EventTypeRules[1..];
    var t2 := t1[1..];
    assert t2[1..] == [];
    assert FirstHit(t2, text, "other") == if AnyIn(t2[0].keywords, text) then "access" else "other";
    assert FirstHit(t1, text, "other") == if AnyIn(t1[0].keywords, text) then "logout" else FirstHit(t2, text, "other");
  }

  /** The severity is always one of the three levels. */
  lemma SeverityLevel(message: string)
    ensures DetermineSeverity(message) in Levels
  {
    SeverityFirstMatch(message);
  }

  /** The event type is always one of login, logout, access and other. */
  lemma EventTypeKnown(message: string)
    ensures DetermineEventType(message) in {"login", "logout", "access", "other"}
  {
    EventTypeFirstMatch(message);
  }

  lemma FailedLower()
    ensures StartsWith(Lower("Failed password for root"), "failed")
  {
    assert Lower("Failed password for root")[..6] == "failed";
  }

  /** A failed login is CRITICAL, whatever else the message says. */
  lemma FailedIsCritical()
    ensures DetermineSeverity("Failed password for root") == "CRITICAL"
  {
    FailedLower();
    SeverityFirstMatch("Failed password for root");
  }

  lemma DeniedAbsent()
    ensures !Contains("disconnected", "denied")
  {
    var s := "disconnected";
    forall i | 0 <= i <= |s| - 6 ensures !OccursAt(s, "denied", i) {
      assert s[i..i + 6][0] == s[i];
      if i == 0 {
        assert s[i..i + 6][1] == s[1];
      }
    }
    NotContains(s, "denied");
  }

  lemma DisconnectedNotCritical()
    ensures !AnyIn(["failed", "unauthorized", "denied"], "disconnected")
  {
    NoneIn(["failed", "unauthorized"], "disconnected", "fu");
    DeniedAbsent();
    assert ["failed", "unauthorized", "denied"][1..][1..] == ["denied"];
  }

  lemma DisconnectedWarns()
    ensures Lower("disconnected") == "disconnected"
    ensures AnyIn(["timeout", "disconnected", "invalid"], "disconnected")
  {
    assert StartsWith("disconnected", "disconnected");
  }

  /** "disconnected" is a WARNING even though it contains the INFO keyword
      "connected": the WARNING row comes first. */
  lemma DisconnectedIsWarning()
    ensures DetermineSeverity("disconnected") == "WARNING"
  {
    DisconnectedNotCritical();
    DisconnectedWarns();
    SeverityFirstMatch("disconnected");
  }

  lemma DisconnectNotLogin()
    ensures !AnyIn(["login", "signin", "authentication"], "disconnect")
  {
    NoneIn(["login", "signin", "authentication"], "disconnect", "lgu");
  }

  lemma DisconnectNotLogout()
    ensures !AnyIn(["logout", "signoff"], "disconnect")
  {
    NoneIn(["logout", "signoff"], "disconnect", "lg");
  }

  lemma DisconnectConnects()
    ensures Lower("disconnect") == "disconnect"
    ensures AnyIn(["access", "connect", "session"], "disconnect")
  {
    assert OccursAt("disconnect", "connect", 3);
    ContainsAt("disconnect", "connect");
  }

  /** "disconnect" contains "connect", so it is an access event. */
  lemma DisconnectIsAccess()
    ensures DetermineEventType("disconnect") == "access"
  {
    DisconnectNotLogin();
    DisconnectNotLogout();
    DisconnectConnects();
    EventTypeFirstMatch("disconnect");
  }

  /** `Series.str` methods map a present cell and keep a missing one. */
  function OnCell(cell: Option<string>, f: string -> string): Option<string> {
    match cell
    case None => None
    case Some(s) => Some(f(s))
  }

  /** `pd.to_datetime(..., errors='coerce')` on one cell; `None` is `NaT`. */
  function Coerce(parse: string -> Option<int>, stamp: Stamp): Option<int> {
    match stamp
    case Missing => None
    case Raw(text) => parse(text)
    case Instant(t) => Some(t)
  }

  function LowerStrip(s: string): string {
    Strip(Lower(s))
  }

  /** What `clean_data` makes of one row: dropped when its message is missing
      or its timestamp is missing or does not parse; otherwise the timestamp
      converted, host and process lowercased and trimmed, the message trimmed
      and every other column as it was. */
  function CleanedRow(parse: string -> Option<int>, r: Row): Option<Row> {
    if r.message.None? then None
    else
      match Coerce(parse, r.timestamp)
      case None => None
      case Some(t) =>
        Some(r.(timestamp := Instant(t), host := OnCell(r.host, LowerStrip),
                process := OnCell(r.process, LowerStrip), message := Some(Strip(r.message.value))))
  }

  function CleanRow(parse: string -> Option<int>): Row -> Option<Row> {
    (r: Row) => CleanedRow(parse, r)
  }

  /** The frame `clean_data` leaves, row by row. */
  function Cleaned(rows: seq<Row>, parse: string -> Option<int>): seq<Row> {
    FilterMap(rows, CleanRow(parse))
  }

  /** A row as `clean_data` leaves it. */
  predicate Normalised(r: Row) {
    && r.timestamp.Instant?
    && r.message.Some? && Strip(r.message.value) == r.message.value
    && OnCell(r.host, LowerStrip) == r.host
    && OnCell(r.process, LowerStrip) == r.process
  }

  lemma LowerStripIdempotent(s: string)
    ensures LowerStrip(LowerStrip(s)) == LowerStrip(s)
  {
    var t := Lower(s);
    calc {
      LowerStrip(LowerStrip(s));
      Strip(Lower(Strip(t)));
      { StripLower(t); }
      Strip(Strip(Lower(t)));
      { LowerIdempotent(s); }
      Strip(Strip(t));
      { StripIdempotent(t); }
      Strip(t);
    }
  }

  /** A row `clean_data` keeps satisfies the timestamp and message checks, and
      its other columns (severity, event type, IP address) are unchanged. */
  lemma CleanedRowSpec(parse: string -> Option<int>, r: Row)
    ensures CleanedRow(parse, r).Some? <==> r.message.Some? && Coerce(parse, r.timestamp).Some?
    ensures CleanedRow(parse, r).Some? ==>
      var c := CleanedRow(parse, r).value;
      && Normalised(c)
      && c.timestamp == Instant(Coerce(parse, r.timestamp).value)
      && c.severity == r.severity && c.eventType == r.eventType && c.ips == r.ips
  {
    if CleanedRow(parse, r).Some? {
      StripIdempotent(r.message.value);
      if r.host.Some? {
        LowerStripIdempotent(r.host.value);
      }
      if r.process.Some? {
        LowerStripIdempotent(r.process.value);
      }
    }
  }

  /** `clean_data` keeps, in order, exactly the rows with a message and a
      parsable timestamp, never adds one, and leaves every row normalised:
      message trimmed, host and process lowercase and trimmed. */
  lemma CleanedSelection(rows: seq<Row>, parse: string -> Option<int>)
    ensures Picks(rows, CleanRow(parse), Cleaned(rows, parse), Positions(rows, CleanRow(parse)))
    ensures |Cleaned(rows, parse)| <= |rows|
    ensures forall c :: c in Cleaned(rows, parse) ==> Normalised(c)
  {
    FilterMapPicks(rows, CleanRow(parse));
    CleanedNormalised(rows, parse);
  }

  lemma CleanedNormalised(rows: seq<Row>, parse: string -> Option<int>)
    ensures forall c :: c in Cleaned(rows, parse) ==> Normalised(c)
  {
    forall c | c in Cleaned(rows, parse) ensures Normalised(c) {
      var r :| r in rows && CleanRow(parse)(r) == Some(c);
      CleanedRowSpec(parse, r);
    }
  }

  /** Normalised text is lowercase and has no whitespace at either end. */
  lemma NormalisedText(r: Row)
    requires Normalised(r)
    ensures Stripped(r.message.value)
    ensures r.host.Some? ==> Stripped(r.host.value) && Lower(r.host.value) == r.host.value
    ensures r.process.Some? ==> Stripped(r.process.value) && Lower(r.process.value) == r.process.value
  {
    if r.host.Some? {
      var h := Lower(r.host.value);
      StripLower(h);
      LowerIdempotent(r.host.value);
    }
    if r.process.Some? {
      var p := Lower(r.process.value);
      StripLower(p);
      LowerIdempotent(r.process.value);
    }
  }

  /** Cleaning twice is cleaning once. */
  lemma CleanedIdempotent(rows: seq<Row>, parse: string -> Option<int>)
    ensures Cleaned(Cleaned(rows, parse), parse) == Cleaned(rows, parse)
  {
    CleanedNormalised(rows, parse);
    FilterMapIdentity(Cleaned(rows, parse), CleanRow(parse));
  }

  /** The steps of `clean_data` as pandas runs them, one column-wide step at
      a time. */
  predicate Present(r: Row) {
    !r.timestamp.Missing? && r.message.Some?
  }

  function CoerceStamp(parse: string -> Option<int>): Row -> Row {
    (r: Row) => r.(timestamp := match Coerce(parse, r.timestamp) case Some(t) => Instant(t) case None => Missing)
  }

  predicate HasStamp(r: Row) {
    !r.timestamp.Missing?
  }

  function LowerNames(r: Row): Row {
    r.(host := OnCell(r.host, Lower), process := OnCell(r.process, Lower))
  }

  /** The string columns `clean_data` trims. */
  datatype Column = Host | Process | Message

  /** The order of the trimming loop. */
  const StripOrder: seq<Column> := [Host, Process, Message]

  function StripColumn(col: Column): Row -> Row {
    (r: Row) => match col
         case Host => r.(host := OnCell(r.host, Strip))
         case Process => r.(process := OnCell(r.process, Strip))
         case Message => r.(message := OnCell(r.message, Strip))
  }

  /** The frame after the first `n` rounds of the trimming loop. */
  function StripColumns(rows: seq<Row>, n: nat): seq<Row>
    requires n <= |StripOrder|
  {
    if n == 0 then rows else Map(StripColumns(rows, n - 1), StripColumn(StripOrder[n - 1]))
  }

  /** The frame before the trimming loop. */
  function Prepared(rows: seq<Row>, parse: string -> Option<int>): seq<Row> {
    Map(Filter(Map(Filter(rows, Present), CoerceStamp(parse)), HasStamp), LowerNames)
  }

  function Pipeline(rows: seq<Row>, parse: string -> Option<int>): seq<Row> {
    StripColumns(Prepared(rows, parse), 3)
  }

  lemma {:induction false} StripColumnsAppend(a: seq<Row>, b: seq<Row>, n: nat)
    requires n <= |StripOrder|
    ensures StripColumns(a + b, n) == StripColumns(a, n) + StripColumns(b, n)
  {
    if n > 0 {
      StripColumnsAppend(a, b, n - 1);
      MapAppend(StripColumns(a, n - 1), StripColumns(b, n - 1), StripColumn(StripOrder[n - 1]));
    }
  }

  lemma PipelineAppend(a: seq<Row>, b: seq<Row>, parse: string -> Option<int>)
    ensures Pipeline(a + b, parse) == Pipeline(a, parse) + Pipeline(b, parse)
  {
    FilterMapAppend(a, b, KeepIf(Present));
    var fa := Filter(a, Present);
    var fb := Filter(b, Present);
    MapAppend(fa, fb, CoerceStamp(parse));
    var ca := Map(fa, CoerceStamp(parse));
    var cb := Map(fb, CoerceStamp(parse));
    FilterMapAppend(ca, cb, KeepIf(HasStamp));
    var ha := Filter(ca, HasStamp);
    var hb := Filter(cb, HasStamp);
    MapAppend(ha, hb, LowerNames);
    assert Prepared(a + b, parse) == Prepared(a, parse) + Prepared(b, parse);
    StripColumnsAppend(Prepared(a, parse), Prepared(b, parse), 3);
  }

  lemma {:induction false} StripColumnsLength(rows: seq<Row>, n: nat)
    requires n <= |StripOrder|
    ensures |StripColumns(rows, n)| == |rows|
  {
    if n > 0 {
      StripColumnsLength(rows, n - 1);
    }
  }

  lemma StripColumnsOne(r: Row)
    ensures StripColumns([r], 3)
            == [r.(host := OnCell(r.host, Strip), process := OnCell(r.process, Strip), message := OnCell(r.message, Strip))]
  {
    MapOne(r, StripColumn(Host));
    var r1 := StripColumn(Host)(r);
    assert StripColumns([r], 1) == [r1];
    MapOne(r1, StripColumn(Process));
    var r2 := StripColumn(Process)(r1);
    assert StripColumns([r], 2) == [r2];
    MapOne(r2, StripColumn(Message));
  }

  lemma PreparedOne(r: Row, parse: string -> Option<int>)
    ensures Prepared([r], parse)
            == if CleanedRow(parse, r).Some? then [LowerNames(CoerceStamp(parse)(r))] else []
  {
    FilterOne(r, Present);
    if Present(r) {
      MapOne(r, CoerceStamp(parse));
      var c := CoerceStamp(parse)(r);
      FilterOne(c, HasStamp);
      if HasStamp(c) {
        MapOne(c, LowerNames);
      }
    }
  }

  lemma PipelineOne(r: Row, parse: string -> Option<int>)
    ensures Pipeline([r], parse) == Cleaned([r], parse)
  {
    FilterMapOne(r, CleanRow(parse));
    PreparedOne(r, parse);
    if CleanedRow(parse, r).Some? {
      StripColumnsOne(LowerNames(CoerceStamp(parse)(r)));
    } else {
      StripColumnsLength([], 3);
    }
  }

  /** Running the column-wide steps of `clean_data` in order gives the
      row-by-row result. */
  lemma {:induction false} PipelineCleaned(rows: seq<Row>, parse: string -> Option<int>)
    ensures Pipeline(rows, parse) == Cleaned(rows, parse)
  {
    if rows == [] {
      StripColumnsLength(Prepared(rows, parse), 3);
    } else {
      assert rows == [rows[0]] + rows[1..];
      PipelineAppend([rows[0]], rows[1..], parse);
      PipelineOne(rows[0], parse);
      PipelineCleaned(rows[1..], parse);
      FilterMapAppend([rows[0]], rows[1..], CleanRow(parse));
    }
  }

  /** Sets the severity column from the message. */
  function WithSeverity(r: Row): Row {
    match r.message
    case Some(m) => r.(severity := DetermineSeverity(m))
    case None => r
  }

  /** Sets the event type column from the message. */
  function WithEventType(r: Row): Row {
    match r.message
    case Some(m) => r.(eventType := DetermineEventType(m))
    case None => r
  }

  /** Categorising writes only its own column, with one of its values. */
  lemma WithColumnsOnly(r: Row)
    requires r.message.Some?
    ensures WithSeverity(r).(severity := r.severity) == r && WithSeverity(r).severity in Levels
    ensures WithEventType(r).(eventType := r.eventType) == r
            && WithEventType(r).eventType in {"login", "logout", "access", "other"}
  {
    SeverityLevel(r.message.value);
    EventTypeKnown(r.message.value);
  }

  function SeverityIn(levels: seq<string>): Row -> bool {
    (r: Row) => r.severity in levels
  }

  /** `start <= timestamp <= end`, each bound applied only when given; a
      missing timestamp (`NaT`) compares false. */
  function InRange(start: Option<int>, end: Option<int>): Row -> bool {
    (r: Row) => && (start.Some? ==> r.timestamp.Instant? && start.value <= r.timestamp.time)
         && (end.Some? ==> r.timestamp.Instant? && r.timestamp.time <= end.value)
  }

  function NotBefore(start: int): Row -> bool {
    (r: Row) => r.timestamp.Instant? && start <= r.timestamp.time
  }

  function NotAfter(end: int): Row -> bool {
    (r: Row) => r.timestamp.Instant? && r.timestamp.time <= end
  }

  /** Every row's severity is one of the three levels. */
  ghost predicate Graded(rows: seq<Row>) {
    forall r :: r in rows ==> r.severity in Levels
  }

  /** With the default levels, a categorised frame is kept whole. */
  lemma DefaultLevelsKeepAll(rows: seq<Row>)
    requires Graded(rows)
    ensures Filter(rows, SeverityIn(Levels)) == rows
  {
    FilterAll(rows, SeverityIn(Levels));
  }

  /** The two filters `filter_by_date_range` applies in turn select the rows
      in the inclusive range. */
  lemma DateFilters(rows: seq<Row>, start: Option<int>, end: Option<int>)
    ensures var afterStart := if start.Some? then Filter(rows, NotBefore(start.value)) else rows;
      (if end.Some? then Filter(afterStart, NotAfter(end.value)) else afterStart)
      == Filter(rows, InRange(start, end))
  {
    var keep := InRange(start, end);
    if start.Some? && end.Some? {
      FilterFilter(rows, NotBefore(start.value), NotAfter(end.value), keep);
    } else if start.Some? {
      FilterFilter(rows, NotBefore(start.value), KeepAll, keep);
      FilterAll(Filter(rows, NotBefore(start.value)), KeepAll);
    } else if end.Some? {
      FilterFilter(rows, KeepAll, NotAfter(end.value), keep);
      FilterAll(rows, KeepAll);
    } else {
      FilterAll(rows, keep);
    }
  }

  function KeepAll(r: Row): bool {
    true
  }

  /** Filters keep the categorisation of the rows they keep. */
  lemma FilterGraded(rows: seq<Row>, keep: Row -> bool)
    requires Graded(rows)
    ensures Graded(Filter(rows, keep))
  {
    FilterKeeps(rows, keep, (r: Row) => r.severity in Levels);
  }

  /** Cleaning keeps the categorisation of the rows it keeps. */
  lemma CleanedGraded(rows: seq<Row>, parse: string -> Option<int>)
    requires Graded(rows)
    ensures Graded(Cleaned(rows, parse))
  {
    forall c | c in Cleaned(rows, parse) ensures c.severity in Levels {
      var r :| r in rows && CleanRow(parse)(r) == Some(c);
      CleanedRowSpec(parse, r);
    }
  }

  /** The dictionary `get_summary_stats` returns. */
  datatype Stats = Stats(
    totalLogs: nat,
    criticalLogs: nat,
    warningLogs: nat,
    infoLogs: nat,
    loginEvents: nat,
    logoutEvents: nat,
    accessEvents: nat)

  function SeverityIs(level: string): Row -> bool {
    (r: Row) => r.severity == level
  }

  function EventTypeIs(eventType: string): Row -> bool {
    (r: Row) => r.eventType == eventType
  }

  /** The counts of a frame that has both columns. */
  function StatsOf(rows: seq<Row>): (s: Stats)
    ensures s.totalLogs == |rows|
    ensures s.criticalLogs <= s.totalLogs && s.warningLogs <= s.totalLogs && s.infoLogs <= s.totalLogs
    ensures s.loginEvents <= s.totalLogs && s.logoutEvents <= s.totalLogs && s.accessEvents <= s.totalLogs
  {
    Stats(|rows|,
          Count(rows, SeverityIs("CRITICAL")), Count(rows, SeverityIs("WARNING")), Count(rows, SeverityIs("INFO")),
          Count(rows, EventTypeIs("login")), Count(rows, EventTypeIs("logout")), Count(rows, EventTypeIs("access")))
  }

  /** Each count is the number of rows the matching selection keeps. */
  lemma StatsCountRows(rows: seq<Row>)
    ensures StatsOf(rows).criticalLogs == |Filter(rows, SeverityIs("CRITICAL"))|
    ensures StatsOf(rows).warningLogs == |Filter(rows, SeverityIs("WARNING"))|
    ensures StatsOf(rows).infoLogs == |Filter(rows, SeverityIs("INFO"))|
    ensures StatsOf(rows).loginEvents == |Filter(rows, EventTypeIs("login"))|
    ensures StatsOf(rows).logoutEvents == |Filter(rows, EventTypeIs("logout"))|
    ensures StatsOf(rows).accessEvents == |Filter(rows, EventTypeIs("access"))|
  {
    FilterCount(rows, SeverityIs("CRITICAL"));
    FilterCount(rows, SeverityIs("WARNING"));
    FilterCount(rows, SeverityIs("INFO"));
    FilterCount(rows, EventTypeIs("login"));
    FilterCount(rows, EventTypeIs("logout"));
    FilterCount(rows, EventTypeIs("access"));
  }

  /** Once every row is categorised, the three severity counts add up to the
      total. */
  lemma SeverityCountsAddUp(rows: seq<Row>)
    requires Graded(rows)
    ensures StatsOf(rows).criticalLogs + StatsOf(rows).warningLogs + StatsOf(rows).infoLogs == StatsOf(rows).totalLogs
  {
    CountPartition(rows, SeverityIs("CRITICAL"), SeverityIs("WARNING"), SeverityIs("INFO"));
  }

  /** The processor: `log_data` with the columns it has so far. */
  class DataProcessor {
    var logData: seq<Row>
    var hasSeverity: bool
    var hasEventType: bool

    /** The severity column exists and holds a level in every row. */
    ghost predicate Categorised()
      reads this
    {
      hasSeverity && Graded(logData)
    }

    /** `DataProcessor(log_data)`: a copy of the frame. */
    constructor(rows: seq<Row>, withSeverity: bool, withEventType: bool)
      ensures logData == rows && hasSeverity == withSeverity && hasEventType == withEventType
    {
      logData := rows;
      hasSeverity := withSeverity;
      hasEventType := withEventType;
    }

    /** `clean_data`. */
    method CleanData(parse: string -> Option<int>)
      modifies this
      ensures logData == Cleaned(old(logData), parse)
      ensures hasSeverity == old(hasSeverity) && hasEventType == old(hasEventType)
      ensures old(Categorised()) ==> Categorised()
    {
      ghost var rows := logData;
      logData := Filter(logData, Present);
      logData := Map(logData, CoerceStamp(parse));
      logData := Filter(logData, HasStamp);
      logData := Map(logData, LowerNames);
      ghost var lowered := logData;
      for i := 0 to |StripOrder|
        invariant logData == StripColumns(lowered, i)
        invariant hasSeverity == old(hasSeverity) && hasEventType == old(hasEventType)
      {
        logData := Map(logData, StripColumn(StripOrder[i]));
      }
      PipelineCleaned(rows, parse);
      if old(Categorised()) {
        CleanedGraded(rows, parse);
      }
    }

    /** `categorize_severity`; `false`, with nothing changed, where a missing
        message makes `message.lower()` raise. */
    method CategorizeSeverity() returns (ok: bool)
      modifies this
      ensures ok <==> forall r :: r in old(logData) ==> r.message.Some?
      ensures ok ==> logData == Map(old(logData), WithSeverity) && hasSeverity && Categorised()
      ensures !ok ==> logData == old(logData) && hasSeverity == old(hasSeverity)
      ensures hasEventType == old(hasEventType)
    {
      if exists r :: r in logData && r.message.None? {
        return false;
      }
      logData := Map(logData, WithSeverity);
      hasSeverity := true;
      forall r | r in logData ensures r.severity in Levels {
        var i :| 0 <= i < |logData| && logData[i] == r;
        WithColumnsOnly(old(logData)[i]);
      }
      return true;
    }

    /** `categorize_event_type`; `false`, with nothing changed, where a
        missing message makes `message.lower()` raise. */
    method CategorizeEventType() returns (ok: bool)
      modifies this
      ensures ok <==> forall r :: r in old(logData) ==> r.message.Some?
      ensures ok ==> logData == Map(old(logData), WithEventType) && hasEventType
      ensures !ok ==> logData == old(logData) && hasEventType == old(hasEventType)
      ensures hasSeverity == old(hasSeverity)
      ensures old(Categorised()) ==> Categorised()
    {
      if exists r :: r in logData && r.message.None? {
        return false;
      }
      logData := Map(logData, WithEventType);
      hasEventType := true;
      if old(Categorised()) {
        forall r | r in logData ensures r.severity in Levels {
          var i :| 0 <= i < |logData| && logData[i] == r;
          assert old(logData)[i] in old(logData);
        }
      }
      return true;
    }

    /** `filter_by_severity`; `None` stands for the default levels, and
        `false` (nothing changed) for the `KeyError` of a frame without a
        severity column. */
    method FilterBySeverity(levels: Option<seq<string>>) returns (ok: bool)
      modifies this
      ensures ok == old(hasSeverity)
      ensures ok ==> logData == Filter(old(logData), SeverityIn(if levels.None? then Levels else levels.value))
      ensures !ok ==> logData == old(logData)
      ensures hasSeverity == old(hasSeverity) && hasEventType == old(hasEventType)
      ensures old(Categorised()) ==> Categorised()
    {
      if !hasSeverity {
        return false;
      }
      var chosen := if levels.None? then Levels else levels.value;
      ghost var rows := logData;
      logData := Filter(logData, SeverityIn(chosen));
      if Graded(rows) {
        FilterGraded(rows, SeverityIn(chosen));
      }
      return true;
    }

    /** `filter_by_date_range`; a bound is applied only when given, and
        `false` (nothing changed) stands for the `TypeError` of comparing a
        timestamp still held as text with a bound. */
    method FilterByDateRange(start: Option<int>, end: Option<int>) returns (ok: bool)
      modifies this
      ensures ok <==> (start.None? && end.None?) || forall r :: r in old(logData) ==> !r.timestamp.Raw?
      ensures ok ==> logData == Filter(old(logData), InRange(start, end))
      ensures !ok ==> logData == old(logData)
      ensures hasSeverity == old(hasSeverity) && hasEventType == old(hasEventType)
      ensures old(Categorised()) ==> Categorised()
    {
      if (start.Some? || end.Some?) && exists r :: r in logData && r.timestamp.Raw? {
        return false;
      }
      ghost var rows := logData;
      if start.Some? {
        logData := Filter(logData, NotBefore(start.value));
      }
      if end.Some? {
        logData := Filter(logData, NotAfter(end.value));
      }
      DateFilters(rows, start, end);
      if Graded(rows) {
        FilterGraded(rows, InRange(start, end));
      }
      return true;
    }

    /** `get_summary_stats`; the `KeyError` of a missing column names it. */
    function GetSummaryStats(): (r: Result<Stats, string>)
      reads this
      ensures r.Failure? <==> !hasSeverity || !hasEventType
      ensures r.Success? ==> r.value.totalLogs == |logData|
      ensures r.Success? && Categorised() ==>
        r.value.criticalLogs + r.value.warningLogs + r.value.infoLogs == r.value.totalLogs
    {
      if !hasSeverity then Failure("severity")
      else if !hasEventType then Failure("event_type")
      else
        assert Graded(logData) ==> StatsOf(logData).criticalLogs + StatsOf(logData).warningLogs
                                   + StatsOf(logData).infoLogs == |logData| by {
          if Graded(logData) {
            SeverityCountsAddUp(logData);
          }
        }
        Success(StatsOf(logData))
    }
  }
}
