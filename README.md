# Verified model of the security_project log pipeline

This project models, in Dafny, the part of `security_project` that turns log
text into records and records into categorised, filtered and counted frames:

- `LogIngestor.parse_log_line` reads one syslog line. It strips the line,
  splits it on single spaces with at most five cuts, and reads the date with
  `strptime("%b %d %H:%M:%S")` in the current year. It then takes the host,
  the process token up to its first colon, and the message. It finds the
  first IPv4-looking literal and gives the event label.
  `LogIngestor.ingest_logs` is the loop that keeps the lines that parse
  (`log_ingestor.dfy`).
- `DataProcessor` holds a frame of rows:
  - `clean_data` drops incomplete rows, then lowercases and trims the names;
  - `categorize_severity` and `categorize_event_type` search the ordered
    keyword tables, first match wins;
  - `filter_by_severity` and `filter_by_date_range` filter the rows;
  - `get_summary_stats` counts them.

  See `data_processing.dfy`. The keyword-table search is in `keywords.dfy`.
- `parse_log` in `log_parser.py` matches each line against
  `(\w{3}\s+\d{1,2}\s+\d{2}:\d{2}:\d{2})\s+(\S+)\s+(.*)` with `re.match`.
  `clean_data` there drops the rows whose timestamp does not convert
  (`log_parser.dfy`).

Support modules:

| file | what it holds |
|---|---|
| `wrappers.dfy` | `Option` and `Result` |
| `seqs.dfy` | order-preserving selection (`FilterMap`, `Filter`, `Map`, `Count`), characterised by the predicate `Picks` |
| `text.dfy` | Python's `str.isspace`, `str.lower`, `str.strip` and `in` |
| `tokens.dfy` | `str.split(" ", n)` and `" ".join` |
| `syslog_date.dfy` | CPython's `strptime` for the syslog stamp |
| `ip_pattern.dfy` | the pattern `\b(?:\d{1,3}\.){3}\d{1,3}\b` |

Stateful parts are imperative:
- `DataProcessor` is a class whose methods reassign its `logData` field.
- `ingest_logs` and `parse_log` are loops that append.
- The `clean_data` of `log_parser.py` changes the `LogFrame` it is given.

Each stateful part is proved against a specification function. The
properties are proved about those functions.

Parameters stand for the environment:
- A file is given as its sequence of lines.
- `datetime.now().year` is read once for each line that parses. The model
  takes the year for each line as a parameter (`years[i]` for line `i`).
- `pd.to_datetime(..., errors='coerce')` is the parameter
  `parse: string -> Option<int>`. It stands for the converter of the frame
  at hand, not for a fixed per-cell function, because pandas picks one
  format for a whole column. An instant is an integer, and `None` is `NaT`.

Some of the errors pandas and Python raise are modelled, as an error value
with the state unchanged:
- the `KeyError` of `ingest_logs` when no line parses;
- the `KeyError` of a missing `severity` or `event_type` column in
  `filter_by_severity` and `get_summary_stats`;
- the `AttributeError` of `.lower()` on a missing message in the two
  categorising methods;
- the `TypeError` of a date bound compared with a timestamp still held as
  text.

Other errors are not modelled; "## Left out" lists them.

Behaviours of the code a reader may not expect:
- The line is split on single spaces, not on runs of whitespace. A day that
  syslog pads with a second space (`Nov  2`) therefore gives an empty part,
  and the line is refused (`LogIngestor.PaddedDayRefused`).
- The process keeps a `[pid]` suffix: `sshd[1234]:` gives `sshd[1234]`, not
  `sshd` (`LogIngestor.ProcessKeepsPid`).
- `ingest_logs` raises `KeyError` when no line parses, because the empty
  frame has no `timestamp` column (`LogIngestor.IngestLogs`).
- `strptime` checks the day against its default year 1900, so 29 February
  never parses (`SyslogDate.NoLeapDay`).

## Model

| member | source | states |
|---|---|---|
| Seqs.FilterMapPicks | security_project/tools/log_ingestor.py:20-24 | the result lists, in input order, the images of exactly the elements the partial function accepts, each at an increasing position |
| Seqs.Collect | security_project/tools/log_ingestor.py:17-24 | the loop that appends the image of each accepted element returns that ordered selection |
| Seqs.FilterPicks | security_project/tools/data_processing.py:67 | a boolean mask keeps, in order, exactly the rows satisfying it |
| Seqs.FilterFilter | security_project/tools/data_processing.py:72-75 | filtering by one condition and then another is filtering once by both |
| Seqs.FilterAll | security_project/tools/data_processing.py:65-67 | a mask that holds on every row keeps the frame unchanged |
| Seqs.FilterCount | security_project/tools/data_processing.py:82-87 | the length of a selection is the number of rows meeting its condition |
| Seqs.CountPartition | security_project/tools/data_processing.py:81-84 | counts by three conditions that partition the rows add up to the number of rows |
| Text.Lower | security_project/tools/data_processing.py:45 | `str.lower()` keeps the length and lowercases each ASCII letter in place |
| Text.LowerIdempotent | security_project/tools/data_processing.py:32-33 | lowercasing twice is lowercasing once |
| Text.Strip | security_project/tools/log_ingestor.py:44 | the result of `strip()` has no whitespace at either end |
| Text.StripInfix | security_project/tools/log_ingestor.py:44 | `strip()` removes only whitespace, at the two ends, and keeps the middle as it is |
| Text.StripIdempotent | security_project/tools/data_processing.py:36-37 | stripping twice is stripping once |
| Text.StripLower | security_project/tools/data_processing.py:32-37 | lowercasing and stripping commute |
| Text.ContainsAt | security_project/tools/log_ingestor.py:63 | `p in s` holds exactly when `p` occurs in `s` at some offset |
| Text.IndexOf | security_project/tools/log_ingestor.py:55 | the index found is the first occurrence of the character; there is none exactly when the character is absent |
| Tokens.SplitSpace | security_project/tools/log_ingestor.py:44 | `split(" ", n)` gives between one and `n + 1` parts |
| Tokens.SplitSpaceJoin | security_project/tools/log_ingestor.py:44 | joining the parts with single spaces gives back the string |
| Tokens.SplitJoinSpaced | security_project/tools/log_ingestor.py:44 | conversely, splitting the join of space-free parts (the last may hold spaces) gives back the parts |
| Tokens.SplitSpaceParts | security_project/tools/log_ingestor.py:44 | every part but the last is free of spaces, and so is the last when fewer than `n` cuts were made |
| Tokens.SplitSpaceCount | security_project/tools/log_ingestor.py:44 | the number of parts is one more than the smaller of the number of spaces and `n` |
| Tokens.BeforeColonJoin | security_project/tools/log_ingestor.py:55 | a colon-free head followed by a colon is what `split(":")[0]` returns |
| Tokens.BeforeColon | security_project/tools/log_ingestor.py:55 | `split(":")[0]` is a colon-free prefix of the token, followed by a colon when it is shorter, and the whole token when there is no colon |
| Keywords.AnyIn | security_project/tools/data_processing.py:45 | `any(k in text for k in keywords)` holds exactly when some keyword occurs in the text |
| Keywords.NoneIn | security_project/tools/data_processing.py:45 | no keyword occurs when each lacks a character the text lacks |
| Keywords.FirstHit | security_project/tools/data_processing.py:44-47 | the result is the default or the name of a row of the table |
| Keywords.FirstHitSpec | security_project/tools/data_processing.py:44-47 | the default when no row's keywords occur, and otherwise the name of the first row whose keywords occur |
| Keywords.FirstRowUnique | security_project/tools/data_processing.py:44-46 | the first row hit is unique |
| Keywords.FirstHitAt | security_project/tools/data_processing.py:44-46 | the early return gives the name of the first row hit |
| Keywords.FirstHitNone | security_project/tools/data_processing.py:47 | with no row hit, the default is returned |
| SyslogDate.DaysInMonth | security_project/tools/log_ingestor.py:48 | every month of 1900 has between 28 and 31 days |
| SyslogDate.IndexIn | security_project/tools/log_ingestor.py:48 | a month name is found at its first place in the table, and not found exactly when absent |
| SyslogDate.ReadMonth | security_project/tools/log_ingestor.py:48 | `%b` reads three characters whose lowercase form is a month name, giving its number 1..12 |
| SyslogDate.ReadMonthOf | security_project/tools/log_ingestor.py:48 | every month abbreviation is read back as its own number |
| SyslogDate.MonthIndex | security_project/tools/log_ingestor.py:48 | the month names are distinct, so each is found at its own place |
| SyslogDate.ReadField | security_project/tools/log_ingestor.py:48 | a numeric field is one or two digits whose value lies in the field's range |
| SyslogDate.ReadMonthDayOf | security_project/tools/log_ingestor.py:48 | a month, a single space and a day in 1..31 are read as that month and day |
| SyslogDate.ReadTime | security_project/tools/log_ingestor.py:48 | `%H:%M:%S` yields an hour up to 23, a minute up to 59 and a second up to 61 |
| SyslogDate.ReadTimeOf | security_project/tools/log_ingestor.py:48 | two-digit fields in range are read as their values |
| SyslogDate.MatchClock | security_project/tools/log_ingestor.py:48 | what the pattern captures lies in the ranges of its fields |
| SyslogDate.MatchClockDate | security_project/tools/log_ingestor.py:48 | a captured stamp has the month and day its date part reads |
| SyslogDate.ParseClock | security_project/tools/log_ingestor.py:48 | every date `strptime` accepts is valid: the day exists in that month of 1900 and the second is at most 59 |
| SyslogDate.Pad2 | security_project/tools/log_ingestor.py:48 | the zero-padded numeral has two digits and reads back as its number |
| SyslogDate.Decimal | security_project/tools/log_ingestor.py:48 | the numeral has one or two digits and reads back as its number |
| SyslogDate.MatchFormatClock | security_project/tools/log_ingestor.py:48 | the pattern captures exactly the fields of a stamp written in the syslog form |
| SyslogDate.ParseFormatClock | security_project/tools/log_ingestor.py:48 | a written stamp parses, to itself, exactly when its fields make a valid date |
| SyslogDate.NoLeapDay | security_project/tools/log_ingestor.py:48 | 29 February never parses |
| SyslogDate.PaddedDayNoTime | security_project/tools/log_ingestor.py:47-48 | the date text of a space-padded day has no time, and does not parse |
| SyslogDate.StampTokens | security_project/tools/log_ingestor.py:44 | no token of a written stamp holds a space |
| IpPattern.ReadOctet | security_project/tools/log_ingestor.py:8 | `\d{1,3}` reads one to three digits, not followed by another digit |
| IpPattern.ReadQuadSound | security_project/tools/log_ingestor.py:8 | what is read splits at three dots into four octets |
| IpPattern.ReadQuadOf | security_project/tools/log_ingestor.py:8 | four octets joined by dots are read to their end |
| IpPattern.MatchAtCorrect | security_project/tools/log_ingestor.py:8 | the matcher finds a match at a position exactly when the pattern, word boundaries included, matches there |
| IpPattern.FirstMatchFrom | security_project/tools/log_ingestor.py:58 | the scan returns a position at or after its start where the pattern matches, with its end |
| IpPattern.FirstMatchFromEarliest | security_project/tools/log_ingestor.py:58 | no position scanned before the one found matches, and none matches when nothing is found |
| IpPattern.FirstIpNone | security_project/tools/log_ingestor.py:58-81 | `ips` is `None` exactly when the pattern matches nowhere in the message |
| IpPattern.FirstIpLeftmost | security_project/tools/log_ingestor.py:58-81 | otherwise it is the text of the leftmost match |
| IpPattern.WideOctets | security_project/tools/log_ingestor.py:8 | octets are not range-checked: `999.999.999.999` is an address |
| IpPattern.GluedToWord | security_project/tools/log_ingestor.py:8 | a literal glued to a word character (`v1.2.3.4`) is not a match |
| LogIngestor.EventLabelFirstHit | security_project/tools/log_ingestor.py:63-72 | the label is that of the first case-sensitive test that hits, in the order FAILED, authentication failure, session opened, session closed, and "Other" otherwise |
| LogIngestor.EventLabelCaseSensitive | security_project/tools/log_ingestor.py:63-72 | "Failed" is labelled "Other" |
| LogIngestor.Entry | security_project/tools/log_ingestor.py:54-82 | the record's host is the fourth part, its message the sixth, and its process a colon-free prefix of the fifth |
| LogIngestor.ParseLogLine | security_project/tools/log_ingestor.py:35-84 | a parsed record carries the year given and a valid month, day and time |
| LogIngestor.TooFewSpaces | security_project/tools/log_ingestor.py:44-56 | a stripped line with fewer than five spaces gives `None` |
| LogIngestor.ParseLogLineSound | security_project/tools/log_ingestor.py:44-82 | a parsed line is six fields joined by single spaces, the first five space-free, whose date text parses and whose record is built from those fields |
| LogIngestor.ParseLogLineComplete | security_project/tools/log_ingestor.py:44-84 | conversely, a line of six such fields gives their record exactly when its date text parses, and `None` otherwise |
| LogIngestor.SyslogFields | security_project/tools/log_ingestor.py:44-47 | a line a syslog daemon writes splits into its month, day, time, host, tag and message |
| LogIngestor.ParseSyslogLine | security_project/tools/log_ingestor.py:44-82 | the line a syslog daemon writes for a valid stamp is read back with its date and time, the current year, the host, the tag up to its colon, the label, the message and its first IP address |
| LogIngestor.PaddedDayRefused | security_project/tools/log_ingestor.py:44-48 | a line whose day is padded with a second space is refused |
| LogIngestor.ProcessKeepsPid | security_project/tools/log_ingestor.py:55 | `sshd[1234]:` gives the process `sshd[1234]` |
| LogIngestor.IngestLogs | security_project/tools/log_ingestor.py:10-33 | the records of the lines that parse, each with the year of its own clock reading, in file order, or the missing-column error when there are none |
| LogIngestor.IngestWithinYear | security_project/tools/log_ingestor.py:51 | a file read while the clock stays within one year gives the records of the lines that parse in that year |
| DataProcessing.SeverityFirstMatch | security_project/tools/data_processing.py:43-47 | CRITICAL exactly when a CRITICAL keyword occurs in the lowercased message, WARNING exactly when none does but a WARNING keyword does, INFO otherwise |
| DataProcessing.EventTypeFirstMatch | security_project/tools/data_processing.py:54-58 | login, logout and access in that order, first match wins, "other" otherwise |
| DataProcessing.SeverityLevel | security_project/tools/data_processing.py:43-47 | the severity is always one of the three levels |
| DataProcessing.EventTypeKnown | security_project/tools/data_processing.py:54-58 | the event type is always login, logout, access or other |
| DataProcessing.FailedIsCritical | security_project/tools/data_processing.py:4-8 | "Failed password for root" is CRITICAL: its lowercased form contains "failed" |
| DataProcessing.DisconnectedIsWarning | security_project/tools/data_processing.py:4-8 | "disconnected" is a WARNING although it contains the INFO keyword "connected" |
| DataProcessing.DisconnectIsAccess | security_project/tools/data_processing.py:10-14 | "disconnect" is an access event |
| DataProcessing.LowerStripIdempotent | security_project/tools/data_processing.py:32-37 | lowercasing and trimming twice is doing it once |
| DataProcessing.CleanedRowSpec | security_project/tools/data_processing.py:22-39 | a row survives exactly when it has a message and its timestamp converts; then its timestamp is the instant, its text is normalised, and its other columns are unchanged |
| DataProcessing.CleanedSelection | security_project/tools/data_processing.py:25-29 | cleaning keeps, in order, exactly the rows with a message and a convertible timestamp, never adds one, and leaves each normalised |
| DataProcessing.NormalisedText | security_project/tools/data_processing.py:32-37 | a cleaned message has no whitespace at either end; host and process are lowercase with none either |
| DataProcessing.CleanedIdempotent | security_project/tools/data_processing.py:22-39 | cleaning a cleaned frame changes nothing |
| DataProcessing.PipelineCleaned | security_project/tools/data_processing.py:25-37 | the column-wide pandas steps, run in the source's order, give the row-by-row cleaning |
| DataProcessing.WithColumnsOnly | security_project/tools/data_processing.py:49-60 | categorising writes only its own column, and severity with a level |
| DataProcessing.DefaultLevelsKeepAll | security_project/tools/data_processing.py:65-67 | with the default levels, a categorised frame is kept whole |
| DataProcessing.DateFilters | security_project/tools/data_processing.py:72-75 | the bounds applied in turn, each only when given, select the rows in the inclusive range |
| DataProcessing.FilterGraded | security_project/tools/data_processing.py:67 | filtering keeps every remaining row categorised |
| DataProcessing.CleanedGraded | security_project/tools/data_processing.py:22-39 | cleaning keeps every remaining row categorised |
| DataProcessing.StatsOf | security_project/tools/data_processing.py:78-89 | the total is the number of rows and every count is at most the total |
| DataProcessing.StatsCountRows | security_project/tools/data_processing.py:80-88 | each count is the length of the matching row selection |
| DataProcessing.SeverityCountsAddUp | security_project/tools/data_processing.py:81-84 | once every row is categorised, the critical, warning and info counts add up to the total |
| DataProcessing.DataProcessor.constructor | security_project/tools/data_processing.py:19-20 | the processor holds a copy of the frame it is given |
| DataProcessing.DataProcessor.CleanData | security_project/tools/data_processing.py:22-39 | the frame becomes its cleaned form; a categorised frame stays categorised |
| DataProcessing.DataProcessor.CategorizeSeverity | security_project/tools/data_processing.py:41-50 | succeeds exactly when every row has a message, and then sets the severity of every row and nothing else; otherwise nothing changes |
| DataProcessing.DataProcessor.CategorizeEventType | security_project/tools/data_processing.py:52-61 | the same for the event type column |
| DataProcessing.DataProcessor.FilterBySeverity | security_project/tools/data_processing.py:63-68 | keeps, in order, the rows whose severity is among the levels (the three levels when none are given); fails, changing nothing, without a severity column |
| DataProcessing.DataProcessor.FilterByDateRange | security_project/tools/data_processing.py:70-76 | keeps, in order, the rows within the bounds that are given; fails, changing nothing, when a bound meets a timestamp still held as text |
| DataProcessing.DataProcessor.GetSummaryStats | security_project/tools/data_processing.py:78-89 | fails exactly when a column is missing; otherwise the total is the number of rows, and the severity counts add up to it once categorised |
| LogParser.ReadBlank | security_project/tools/log_parser.py:9 | `\s+` is read to the end of the run of whitespace, and fails only where there is none |
| LogParser.ReadDay | security_project/tools/log_parser.py:9 | `\d{1,2}` reads one or two digits not followed by another |
| LogParser.LineEnd | security_project/tools/log_parser.py:9 | `.*` runs to the first newline or the end of the line |
| LogParser.ReadStamp | security_project/tools/log_parser.py:9 | what is read is a timestamp group of the pattern |
| LogParser.ReadStampOf | security_project/tools/log_parser.py:9 | the positions of a timestamp group are the ones read |
| LogParser.ReadTail | security_project/tools/log_parser.py:9 | source and message are read with the last `\s+` and the `.*` taking as much as they can |
| LogParser.ReadTailOf | security_project/tools/log_parser.py:9 | the greedy source and message of a match are the ones read |
| LogParser.ScanSound | security_project/tools/log_parser.py:9 | what the matcher finds is a greedy match of the pattern |
| LogParser.ScanComplete | security_project/tools/log_parser.py:9 | every greedy match is the one the matcher finds |
| LogParser.Greediest | security_project/tools/log_parser.py:9 | any match of the pattern gives a greedy one |
| LogParser.MatchLineCorrect | security_project/tools/log_parser.py:9-11 | `match.groups()` is exactly the groups of the greedy match |
| LogParser.MatchLineNone | security_project/tools/log_parser.py:9-10 | a line is skipped exactly when the pattern matches no prefix of it |
| LogParser.MatchLineGroups | security_project/tools/log_parser.py:9 | the timestamp is a prefix of the line at least 14 characters long (three word characters, two blanks, a digit and the eight-character time); the source is one non-empty run of non-whitespace; the message holds no newline and does not start with whitespace |
| LogParser.StampShape | security_project/tools/log_parser.py:9 | three word characters, a blank, two digits, a blank and a two-digit time form a timestamp group |
| LogParser.NewlineAfterSource | security_project/tools/log_parser.py:9 | a line ending right after its source matches only with its newline, and then with an empty message |
| LogParser.NoTail | security_project/tools/log_parser.py:9 | without the newline that line does not match |
| LogParser.NoRangeCheck | security_project/tools/log_parser.py:9 | no field of the timestamp is range-checked: `Abc 99 99:99:99 x y` matches |
| LogParser.LogFrame.constructor | security_project/tools/log_parser.py:12 | the frame holds the rows it is built from |
| LogParser.ParseLog | security_project/tools/log_parser.py:4-12 | a new frame holding the rows of the matching lines, in file order |
| LogParser.ParseLogRows | security_project/tools/log_parser.py:8-11 | those rows are, in order, exactly the lines that match, each with its three groups |
| LogParser.ConvertThenDrop | security_project/tools/log_parser.py:15-16 | converting the column and then dropping missing values is one row-by-row selection |
| LogParser.CleanData | security_project/tools/log_parser.py:14-17 | the frame given is changed in place to that selection, and returned |
| LogParser.CleanedFrame | security_project/tools/log_parser.py:15-16 | the rows kept, in order, are exactly those whose timestamp converts; each has an instant and keeps its source and message |
| LogParser.CleanIdempotent | security_project/tools/log_parser.py:14-17 | cleaning a cleaned frame changes nothing |

## Left out

- File reading in `ingest_logs` and `parse_log` is not modelled: a file is its sequence of lines.
- The clock call `datetime.now()` is not modelled. The year it gives for each line is a parameter.
- `pd.to_datetime(..., errors='coerce')` is not modelled: it is the parameter `parse`, with instants as integers. Its format inference over a whole column is not modelled either; `parse` is taken to be the converter pandas settles on for the frame at hand.
  - `clean_data` of `data_processing.py` is also applied to cells that are already instants. There, conversion keeps them.
- `ingest_logs` converts its `timestamp` column (log_ingestor.py:31). That step is not modelled, since each parsed record already holds a `datetime`.
- `LogIngestor.IngestLogs` returns the list of records rather than a `DataFrame`. Column layout, dtypes and the index are left out.
- The timestamp of a record is its month, day and time plus the year. The `datetime` arithmetic behind `replace(year=...)` is left out. So is the `ValueError` it raises for 29 February in a non-leap year, which cannot occur because `strptime` never accepts that day.
- Character classes are limited to ASCII:
  - `\d`, `\w`, `str.lower()` and the case-insensitive month match of `strptime` cover ASCII letters and digits only. Python's Unicode digits and letters are not modelled.
  - `\s` and `str.strip()` use the whitespace set of `str.isspace`.
- `DataProcessing.DataProcessor.FilterByDateRange`: the bounds are instants. Comparing text bounds with a column of text (a lexicographic string comparison in pandas) is not modelled; a timestamp held as text with a bound is reported as the comparison error.
- `DataProcessing.DataProcessor`: a frame always holds the `timestamp`, `host`, `process` and `message` columns. The `KeyError` raised without one of them is not modelled:
  - in `clean_data` (data_processing.py:25-37), where it comes after the in-place `dropna` has already changed the frame;
  - in `categorize_severity` and `categorize_event_type` (data_processing.py:49, 60).
- `DataProcessing.DataProcessor`: the methods return a success flag instead of `self`, so call chaining is not modelled. `get_processed_data` only returns the field and has no model of its own.
- `DataProcessing.DataProcessor.GetSummaryStats` states the severity sum only for a categorised frame. A frame can carry a severity column from outside with other values, and then the three counts need not add up.
- The rest of the repository is not part of this model:
  - the dashboard;
  - the file watchers and threads of `main.py` and `real_time_monitor.py`;
  - the machine-learning and anomaly-detection wrappers;
  - the plotting code.
