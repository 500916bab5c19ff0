/** `LogIngestor` of security_project/tools/log_ingestor.py: one syslog line
    becomes a record, and a file of lines becomes the list of the lines that
    parse. The file is given as its sequence of lines and `datetime.now().year`
    as a parameter. */
module LogIngestor {
  import opened Wrappers
  import opened Text
  import opened Tokens
  import opened Seqs
  import opened SyslogDate
  import opened IpPattern
  import opened Keywords

  /** A `datetime`: the parsed stamp with the year it was given. */
  datatype DateTime = DateTime(year: int, clock: Clock)

  /** The dictionary `parse_log_line` returns. */
  datatype LogEntry = LogEntry(
    timestamp: DateTime,
    host: string,
    process: string,
    eventType: string,
    message: string,
    ips: Option<string>)

  /** The event label: an `if`/`elif` chain of case-sensitive substring tests. */
  function EventLabel(message: string): string {
    if Contains(message, "FAILED") then "Authentication Failure"
    else if Contains(message, "authentication failure") then "Auth Failure (PAM)"
    else if Contains(message, "session opened") then "Session Opened"
    else if Contains(message, "session closed") then "Session Closed"
    else "Other"
  }

  /** The same chain as an ordered table with one keyword per row. */
  const EventRules: seq<Rule> := [
    Rule("Authentication Failure", ["FAILED"]),
    Rule("Auth Failure (PAM)", ["authentication failure"]),
    Rule("Session Opened", ["session opened"]),
    Rule("Session Closed", ["session closed"])
  ]

  /** The label is that of the first test in the chain that hits, and "Other"
      when none does. */
  lemma EventLabelFirstHit(message: string)
    ensures EventLabel(message) == FirstHit(EventRules, message, "Other")
  {
    var t1 := EventRules[1..];
    var t2 := t1[1..];
    var t3 := t2[1..];
    var t4 := t3[1..];
    assert t4 == [];
    AnyInOne("FAILED", message);
    AnyInOne("authentication failure", message);
    AnyInOne("session opened", message);
    AnyInOne("session closed", message);
    assert FirstHit(t3, message, "Other") == if Contains(message, "session closed") then "Session Closed" else "Other";
    assert FirstHit(t2, message, "Other") == if Contains(message, "session opened") then "Session Opened" else FirstHit(t3, message, "Other");
    assert FirstHit(t1, message, "Other") == if Contains(message, "authentication failure") then "Auth Failure (PAM)" else FirstHit(t2, message, "Other");
  }

  /** The tests are case-sensitive: "Failed" is not an authentication
      failure. */
  lemma EventLabelCaseSensitive()
    ensures EventLabel("Failed") == "Other"
  {
    var m := "Failed";
    assert !Contains(m, "FAILED") by { MissingChar(m, "FAILED", 'A'); }
    assert !Contains(m, "authentication failure") by { MissingChar(m, "authentication failure", 'h'); }
    assert !Contains(m, "session opened") by { MissingChar(m, "session opened", 'n'); }
    assert !Contains(m, "session closed") by { MissingChar(m, "session closed", 'n'); }
  }

  /** The record built from the six space-separated fields of a line, once
      its date text has parsed to `clock`. */
  function Entry(fields: seq<string>, clock: Clock, currentYear: int): (e: LogEntry)
    requires |fields| == 6
    ensures e.host == fields[3] && e.message == fields[5]
    ensures StartsWith(fields[4], e.process) && ':' !in e.process
  {
    var message := fields[5];
    LogEntry(DateTime(currentYear, clock), fields[3], BeforeColon(fields[4]),
             EventLabel(message), message, FirstIp(message))
  }

  /** The text `strptime` reads: the first three fields joined by spaces. */
  function DateText(fields: seq<string>): string
    requires |fields| >= 3
  {
    fields[0] + " " + fields[1] + " " + fields[2]
  }

  /** `parse_log_line`: `None` where Python raises `IndexError` (fewer than six
      parts) or `ValueError` (the date does not parse). */
  function ParseLogLine(line: string, currentYear: int): (r: Option<LogEntry>)
    ensures r.Some? ==> r.value.timestamp.year == currentYear && ValidClock(r.value.timestamp.clock)
  {
    var parts := SplitSpace(Strip(line), 5);
    if |parts| < 6 then None
    else
      var clock :- ParseClock(DateText(parts));
      Some(Entry(parts, clock, currentYear))
  }

  /** `text` is six fields joined by single spaces; only the last, the
      message, may contain spaces. */
  predicate SixFields(text: string, fields: seq<string>) {
    && |fields| == 6
    && (forall k :: 0 <= k < 5 ==> ' ' !in fields[k])
    && text == JoinSpaced(fields)
  }

  /** A stripped line with fewer than five spaces has fewer than six parts,
      and is refused. */
  lemma TooFewSpaces(line: string, currentYear: int)
    requires Spaces(Strip(line)) < 5
    ensures ParseLogLine(line, currentYear) == None
  {
    SplitSpaceCount(Strip(line), 5);
  }

  /** A parsed line is six fields joined by single spaces: the date text, the
      host, the process token and the message, which is everything after the
      fifth space; the record holds the parsed date in the current year, the
      host, the process token up to its first colon, the label and the first
      IP address of the message. */
  lemma ParseLogLineSound(line: string, currentYear: int)
    requires ParseLogLine(line, currentYear).Some?
    ensures exists fields :: SixFields(Strip(line), fields)
              && ParseClock(DateText(fields)).Some?
              && ParseLogLine(line, currentYear) == Some(Entry(fields, ParseClock(DateText(fields)).value, currentYear))
  {
    var parts := SplitSpace(Strip(line), 5);
    SplitSpaceJoin(Strip(line), 5);
    SplitSpaceParts(Strip(line), 5);
    assert SixFields(Strip(line), parts);
  }

  /** Conversely, every line made of six such fields gives the record of its
      fields exactly when its date text parses. */
  lemma ParseLogLineComplete(line: string, currentYear: int, fields: seq<string>)
    requires SixFields(Strip(line), fields)
    ensures ParseLogLine(line, currentYear)
            == if ParseClock(DateText(fields)).Some?
               then Some(Entry(fields, ParseClock(DateText(fields)).value, currentYear))
               else None
  {
    SplitJoinSpaced(fields);
  }

  lemma JoinStep(f: seq<string>)
    requires |f| >= 2
    ensures JoinSpaced(f) == f[0] + " " + JoinSpaced(f[1..])
  {
  }

  /** `JoinSpaced` of six fields, written out. */
  lemma JoinSix(f: seq<string>)
    requires |f| == 6
    ensures JoinSpaced(f) == f[0] + " " + f[1] + " " + f[2] + " " + f[3] + " " + f[4] + " " + f[5]
  {
    var f5 := f[5..];
    var f4 := f[4..];
    var f3 := f[3..];
    var f2 := f[2..];
    var f1 := f[1..];
    assert f5 == [f[5]];
    assert f4[1..] == f5 && f3[1..] == f4 && f2[1..] == f3 && f1[1..] == f2;
    JoinStep(f4);
    JoinStep(f3);
    JoinStep(f2);
    JoinStep(f1);
    JoinStep(f);
  }

  /** The line a syslog daemon writes for a valid stamp is read back: the date
      and time are the ones written, in the current year, and the process is
      the tag up to its colon, e.g. `sshd[1234]` for `sshd[1234]:`. */
  lemma ParseSyslogLine(line: string, currentYear: int, c: Clock, host: string, tag: string, message: string)
    requires ValidClock(c) && ' ' !in host && ' ' !in tag
    requires Strip(line) == FormatClock(c) + " " + host + " " + tag + " " + message
    ensures ParseLogLine(line, currentYear)
            == Some(LogEntry(DateTime(currentYear, c), host, BeforeColon(tag), EventLabel(message), message, FirstIp(message)))
  {
    var fields := [MonthAbbrevs[c.month - 1], Decimal(c.day), TimeText(c), host, tag, message];
    SyslogFields(c, host, tag, message);
    ParseFormatClock(c);
    ParseLogLineComplete(line, currentYear, fields);
  }

  /** The six fields of a line a syslog daemon writes. */
  lemma SyslogFields(c: Clock, host: string, tag: string, message: string)
    requires ValidClock(c) && ' ' !in host && ' ' !in tag
    ensures var fields := [MonthAbbrevs[c.month - 1], Decimal(c.day), TimeText(c), host, tag, message];
      && SixFields(FormatClock(c) + " " + host + " " + tag + " " + message, fields)
      && DateText(fields) == FormatClock(c)
  {
    var fields := [MonthAbbrevs[c.month - 1], Decimal(c.day), TimeText(c), host, tag, message];
    StampTokens(c);
    JoinSix(fields);
  }

  /** Syslog pads a day below 10 with a space: `Nov  2 10:09:56 host ...`
      is the join, with single spaces, of the month, an EMPTY part, the day,
      the time, the host and the rest. The date text then lacks its time, and
      the line is refused. */
  lemma PaddedDayRefused(line: string, currentYear: int, c: Clock, host: string, rest: string)
    requires ValidClock(c) && ' ' !in host
    requires Strip(line) == JoinSpaced([MonthAbbrevs[c.month - 1], "", Decimal(c.day), TimeText(c), host, rest])
    ensures ParseLogLine(line, currentYear) == None
  {
    var fields := [MonthAbbrevs[c.month - 1], "", Decimal(c.day), TimeText(c), host, rest];
    StampTokens(c);
    assert SixFields(Strip(line), fields);
    assert DateText(fields) == MonthAbbrevs[c.month - 1] + "  " + Decimal(c.day);
    PaddedDayNoTime(c);
    ParseLogLineComplete(line, currentYear, fields);
  }

  /** The process keeps a `[pid]` suffix and drops what follows the colon. */
  lemma ProcessKeepsPid()
    ensures BeforeColon("sshd[1234]:") == "sshd[1234]"
  {
    assert "sshd[1234]:" == "sshd[1234]" + [':'] + "";
    BeforeColonJoin("sshd[1234]", "");
  }

  /** The parser of one line as a partial function, with the year fixed. */
  function ParseWith(currentYear: int): string -> Option<LogEntry> {
    line => ParseLogLine(line, currentYear)
  }

  /** The parser of a line paired with the year the clock shows while that
      line is parsed. */
  function ParseStamped(entry: (string, int)): Option<LogEntry> {
    ParseLogLine(entry.0, entry.1)
  }

  /** A file read while the clock stays within one year is parsed as if
      that year were fixed. */
  lemma {:induction false} IngestWithinYear(lines: seq<string>, years: seq<int>, year: int)
    requires |years| == |lines|
    requires forall i :: 0 <= i < |years| ==> years[i] == year
    ensures FilterMap(Zip(lines, years), ParseStamped) == FilterMap(lines, ParseWith(year))
  {
    if lines != [] {
      var z := Zip(lines, years);
      assert z[1..] == Zip(lines[1..], years[1..]);
      IngestWithinYear(lines[1..], years[1..], year);
      assert ParseStamped(z[0]) == ParseWith(year)(lines[0]);
    }
  }

  /** `ingest_logs` fails on `log_df['timestamp']` when no line parsed, since
      a frame built from an empty list has no columns. */
  datatype IngestError = MissingTimestampColumn

  /** `ingest_logs`: the records of the lines that parse, in file order;
      `KeyError` when there are none. `years[i]` is the year
      `datetime.now()` shows while line `i` is parsed. */
  method IngestLogs(lines: seq<string>, years: seq<int>) returns (r: Result<seq<LogEntry>, IngestError>)
    requires |years| == |lines|
    ensures FilterMap(Zip(lines, years), ParseStamped) == [] ==> r == Failure(MissingTimestampColumn)
    ensures FilterMap(Zip(lines, years), ParseStamped) != [] ==> r == Success(FilterMap(Zip(lines, years), ParseStamped))
  {
    var logs := Collect(Zip(lines, years), ParseStamped);
    if logs == [] {
      return Failure(MissingTimestampColumn);
    }
    return Success(logs);
  }
}
