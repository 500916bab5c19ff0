/** `datetime.strptime(text, "%b %d %H:%M:%S")` as CPython implements it: the
    format becomes the regular expression
    `(jan|feb|...|dec)\s+(3[01]|[12]\d|0[1-9]|[1-9]| [1-9])\s+(2[0-3]|[0-1]\d|\d):([0-5]\d|\d):(6[0-1]|[0-5]\d|\d)`,
    matched case-insensitively against the whole text, and the fields must
    then form a real `datetime` in the default year 1900. */
module SyslogDate {
  import opened Wrappers
  import opened Text

  /** Month, day and time of day; the syslog stamp carries no year. */
  datatype Clock = Clock(month: nat, day: nat, hour: nat, minute: nat, second: nat)

  /** A field read off the front of a text, and what follows it. */
  datatype Token = Token(value: nat, rest: string)

  const MonthNames: seq<string> := ["jan", "feb", "mar", "apr", "may", "jun", "jul", "aug", "sep", "oct", "nov", "dec"]

  const MonthAbbrevs: seq<string> := ["Jan", "Feb", "Mar", "Apr", "May", "Jun", "Jul", "Aug", "Sep", "Oct", "Nov", "Dec"]

  /** Days of each month in 1900, the year strptime checks the day against
      when the format has no year; 1900 is not a leap year. */
  function DaysInMonth(month: nat): (n: nat)
    requires 1 <= month <= 12
    ensures 28 <= n <= 31
  {
    if month == 2 then 28
    else if month == 4 || month == 6 || month == 9 || month == 11 then 30
    else 31
  }

  /** The fields name a moment that `datetime` accepts. */
  predicate ValidClock(c: Clock) {
    && 1 <= c.month <= 12
    && 1 <= c.day <= DaysInMonth(c.month)
    && c.hour <= 23 && c.minute <= 59 && c.second <= 59
  }

  function IndexIn(names: seq<string>, name: string): (r: Option<nat>)
    ensures r.Some? ==> r.value < |names| && names[r.value] == name && name !in names[..r.value]
    ensures r.None? ==> name !in names
  {
    if names == [] then None
    else if names[0] == name then Some(0)
    else
      match IndexIn(names[1..], name)
      case None => None
      case Some(i) =>
        assert names[..i + 1] == [names[0]] + names[1..][..i];
        Some(i + 1)
  }

  /** `%b`: a three-letter month name, in any letter case. */
  function ReadMonth(s: string): (r: Option<Token>)
    ensures r.Some? ==> 1 <= r.value.value <= 12 && |s| >= 3 && r.value.rest == s[3..]
    ensures r.Some? ==> Lower(s[..3]) == MonthNames[r.value.value - 1]
  {
    if |s| < 3 then None
    else
      var i :- IndexIn(MonthNames, Lower(s[..3]));
      Some(Token(i + 1, s[3..]))
  }

  /** `\s+`: at least one whitespace character, as many as there are. */
  function ReadSpaces(s: string): (r: Option<string>)
    ensures r.Some? ==> exists n :: 1 <= n <= |s| && r.value == s[n..] && AllSpace(s[..n])
  {
    var n := SkipSpaces(s, 0);
    if n == 0 then None else Some(s[n..])
  }

  function DigitValue(c: char): nat
    requires IsDigit(c)
  {
    c as int - '0' as int
  }

  /** Value of a one- or two-digit decimal numeral. */
  function NumeralValue(d: string): (v: nat)
    requires 1 <= |d| <= 2 && AllDigits(d)
    ensures v < 100
  {
    if |d| == 1 then DigitValue(d[0]) else 10 * DigitValue(d[0]) + DigitValue(d[1])
  }

  /** A one- or two-digit field whose value lies in `lo..hi`: each numeric
      alternative of the pattern above is exactly such a field. */
  function ReadField(s: string, lo: nat, hi: nat): (r: Option<Token>)
    ensures r.Some? ==> lo <= r.value.value <= hi
    ensures r.Some? ==> exists n :: 1 <= n <= 2 && n <= |s| && AllDigits(s[..n])
                                    && NumeralValue(s[..n]) == r.value.value && r.value.rest == s[n..]
  {
    var n := SkipDigits(s, 0);
    if n == 0 || n > 2 then None
    else
      var v := NumeralValue(s[..n]);
      if lo <= v <= hi then Some(Token(v, s[n..])) else None
  }

  /** One literal character. */
  function ReadChar(s: string, c: char): (r: Option<string>)
    ensures r.Some? ==> s == [c] + r.value
  {
    if s != [] && s[0] == c then Some(s[1..]) else None
  }

  /** `%b\s+%d\s+`: month, day and the text after them. */
  datatype MonthDay = MonthDay(month: nat, day: nat, rest: string)

  function ReadMonthDay(s: string): (r: Option<MonthDay>)
    ensures r.Some? ==> 1 <= r.value.month <= 12 && 1 <= r.value.day <= 31
  {
    var month :- ReadMonth(s);
    var afterMonth :- ReadSpaces(month.rest);
    var day :- ReadField(afterMonth, 1, 31);
    var afterDay :- ReadSpaces(day.rest);
    Some(MonthDay(month.value, day.value, afterDay))
  }

  /** `%H:%M:%S` filling the whole of `s`. */
  datatype TimeOfDay = TimeOfDay(hour: nat, minute: nat, second: nat)

  function ReadTime(s: string): (r: Option<TimeOfDay>)
    ensures r.Some? ==> r.value.hour <= 23 && r.value.minute <= 59 && r.value.second <= 61
  {
    var hour :- ReadField(s, 0, 23);
    var afterHour :- ReadChar(hour.rest, ':');
    var minute :- ReadField(afterHour, 0, 59);
    var afterMinute :- ReadChar(minute.rest, ':');
    var second :- ReadField(afterMinute, 0, 61);
    if second.rest != [] then None else Some(TimeOfDay(hour.value, minute.value, second.value))
  }

  /** What the strptime pattern captures from the whole text, before `datetime`
      checks the fields (the pattern still lets through day 31 of any month,
      29 February and seconds 60 and 61). */
  function MatchClock(s: string): (r: Option<Clock>)
    ensures r.Some? ==> 1 <= r.value.month <= 12 && 1 <= r.value.day <= 31
    ensures r.Some? ==> r.value.hour <= 23 && r.value.minute <= 59 && r.value.second <= 61
  {
    var date :- ReadMonthDay(s);
    var time :- ReadTime(date.rest);
    Some(Clock(date.month, date.day, time.hour, time.minute, time.second))
  }

  /** `datetime.strptime(s, "%b %d %H:%M:%S")` without its year: `None` where
      Python raises `ValueError`. */
  function ParseClock(s: string): (r: Option<Clock>)
    ensures r.Some? ==> ValidClock(r.value)
  {
    var c :- MatchClock(s);
    if c.day <= DaysInMonth(c.month) && c.second <= 59 then Some(c) else None
  }

  function Digit(n: nat): (c: char)
    requires n < 10
    ensures IsDigit(c) && DigitValue(c) == n
  {
    ('0' as int + n) as char
  }

  /** Two-digit zero-padded numeral, as syslog writes the time of day. */
  function Pad2(n: nat): (d: string)
    requires n < 100
    ensures |d| == 2 && AllDigits(d) && NumeralValue(d) == n
  {
    [Digit(n / 10), Digit(n % 10)]
  }

  /** Shortest decimal numeral of a number below 100. */
  function Decimal(n: nat): (d: string)
    requires n < 100
    ensures 1 <= |d| <= 2 && AllDigits(d) && NumeralValue(d) == n
  {
    if n < 10 then [Digit(n)] else Pad2(n)
  }

  /** The fields fit the ranges of the strptime pattern (which lets through
      day 31 of any month and seconds 60 and 61). */
  predicate InPattern(c: Clock) {
    && 1 <= c.month <= 12
    && 1 <= c.day <= 31
    && c.hour <= 23 && c.minute <= 59 && c.second <= 61
  }

  /** The time of day as a syslog daemon writes it, e.g. `10:09:56`. */
  function TimeText(c: Clock): string
    requires InPattern(c)
  {
    Pad2(c.hour) + ":" + Pad2(c.minute) + ":" + Pad2(c.second)
  }

  /** The stamp a syslog daemon writes, e.g. `Nov 12 10:09:56`. */
  function FormatClock(c: Clock): string
    requires InPattern(c)
  {
    MonthAbbrevs[c.month - 1] + " " + Decimal(c.day) + " " + TimeText(c)
  }

  lemma ReadSpacesOne(rest: string)
    requires rest == [] || !IsSpace(rest[0])
    ensures ReadSpaces(" " + rest) == Some(rest)
  {
    var s := " " + rest;
    assert SkipSpaces(s, 1) == 1;
    assert SkipSpaces(s, 0) == 1;
  }

  lemma ReadFieldOf(d: string, rest: string, lo: nat, hi: nat)
    requires 1 <= |d| <= 2 && AllDigits(d) && lo <= NumeralValue(d) <= hi
    requires rest == [] || !IsDigit(rest[0])
    ensures ReadField(d + rest, lo, hi) == Some(Token(NumeralValue(d), rest))
  {
    var s := d + rest;
    assert forall k :: 0 <= k < |d| ==> s[k] == d[k];
    SkipDigitsTo(s, 0, |d|);
    assert s[..|d|] == d && s[|d|..] == rest;
  }

  lemma AbbrevsLower(i: nat)
    requires i < 12
    ensures Lower(MonthAbbrevs[i]) == MonthNames[i]
  {
    assert Lower("Jan") == "jan" && Lower("Feb") == "feb" && Lower("Mar") == "mar";
    assert Lower("Apr") == "apr" && Lower("May") == "may" && Lower("Jun") == "jun";
    assert Lower("Jul") == "jul" && Lower("Aug") == "aug" && Lower("Sep") == "sep";
    assert Lower("Oct") == "oct" && Lower("Nov") == "nov" && Lower("Dec") == "dec";
  }

  lemma ReadMonthOf(m: nat, rest: string)
    requires 1 <= m <= 12
    ensures ReadMonth(MonthAbbrevs[m - 1] + rest) == Some(Token(m, rest))
  {
    var abbr := MonthAbbrevs[m - 1];
    AbbrevLength(m - 1);
    var s := abbr + rest;
    assert s[..3] == abbr && s[3..] == rest;
    AbbrevsLower(m - 1);
    MonthIndex(m);
    ReadMonthAt(s, m);
  }

  lemma AbbrevLength(i: nat)
    requires i < 12
    ensures |MonthAbbrevs[i]| == 3
  {
  }

  /** A text whose first three letters name month `m` reads as that month. */
  lemma ReadMonthAt(s: string, m: nat)
    requires |s| >= 3 && IndexIn(MonthNames, Lower(s[..3])) == Some(m - 1)
    ensures ReadMonth(s) == Some(Token(m, s[3..]))
  {
  }

  /** A name that does not occur earlier in the list is found at its place. */
  lemma {:induction false} IndexInAt(names: seq<string>, i: nat)
    requires i < |names| && names[i] !in names[..i]
    ensures IndexIn(names, names[i]) == Some(i)
  {
    if i > 0 {
      assert names[1..][..i - 1] == names[..i][1..];
      assert names[1..][i - 1] == names[i];
      IndexInAt(names[1..], i - 1);
    }
  }

  /** The month names are distinct, so each is found at its own place. */
  lemma MonthIndex(m: nat)
    requires 1 <= m <= 12
    ensures IndexIn(MonthNames, MonthNames[m - 1]) == Some(m - 1)
  {
    assert forall j, k :: 0 <= j < k < 12 ==> MonthNames[j] != MonthNames[k];
    IndexInAt(MonthNames, m - 1);
  }

  lemma ReadMonthDayOf(month: nat, day: string, rest: string)
    requires 1 <= month <= 12
    requires 1 <= |day| <= 2 && AllDigits(day) && 1 <= NumeralValue(day) <= 31
    requires rest == [] || !IsSpace(rest[0])
    ensures ReadMonthDay(MonthAbbrevs[month - 1] + " " + day + " " + rest) == Some(MonthDay(month, NumeralValue(day), rest))
  {
    var t1 := day + (" " + rest);
    var t0 := " " + t1;
    assert MonthAbbrevs[month - 1] + " " + day + " " + rest == MonthAbbrevs[month - 1] + t0;
    ReadMonthOf(month, t0);
    ReadSpacesOne(t1);
    ReadFieldOf(day, " " + rest, 1, 31);
    ReadSpacesOne(rest);
  }

  lemma ReadTimeOf(h: string, m: string, s: string)
    requires |h| == 2 && |m| == 2 && |s| == 2 && AllDigits(h) && AllDigits(m) && AllDigits(s)
    requires NumeralValue(h) <= 23 && NumeralValue(m) <= 59 && NumeralValue(s) <= 61
    ensures ReadTime(h + ":" + m + ":" + s) == Some(TimeOfDay(NumeralValue(h), NumeralValue(m), NumeralValue(s)))
  {
    var t3 := ":" + s;
    var t2 := m + t3;
    var t1 := ":" + t2;
    assert h + ":" + m + ":" + s == h + t1;
    ReadFieldOf(h, t1, 0, 23);
    assert ReadChar(t1, ':') == Some(t2);
    ReadFieldOf(m, t3, 0, 59);
    assert ReadChar(t3, ':') == Some(s);
    ReadFieldOf(s, [], 0, 61);
    assert s + [] == s;
  }

  lemma MatchClockOf(s: string, date: MonthDay, time: TimeOfDay)
    requires ReadMonthDay(s) == Some(date) && ReadTime(date.rest) == Some(time)
    ensures MatchClock(s) == Some(Clock(date.month, date.day, time.hour, time.minute, time.second))
  {
  }

  lemma MatchClockDate(s: string)
    requires MatchClock(s).Some?
    ensures ReadMonthDay(s).Some?
    ensures MatchClock(s).value.month == ReadMonthDay(s).value.month
    ensures MatchClock(s).value.day == ReadMonthDay(s).value.day
  {
  }

  lemma FormatClockDate(c: Clock)
    requires InPattern(c)
    ensures ReadMonthDay(FormatClock(c)) == Some(MonthDay(c.month, c.day, TimeText(c)))
  {
    var hh := Pad2(c.hour);
    assert TimeText(c)[0] == hh[0];
    assert IsDigit(hh[0]);
    ReadMonthDayOf(c.month, Decimal(c.day), TimeText(c));
  }

  lemma TimeTextRead(c: Clock)
    requires InPattern(c)
    ensures ReadTime(TimeText(c)) == Some(TimeOfDay(c.hour, c.minute, c.second))
  {
    ReadTimeOf(Pad2(c.hour), Pad2(c.minute), Pad2(c.second));
  }

  /** The pattern captures exactly the fields of a stamp written in the
      syslog form. */
  lemma MatchFormatClock(c: Clock)
    requires InPattern(c)
    ensures MatchClock(FormatClock(c)) == Some(c)
  {
    FormatClockDate(c);
    TimeTextRead(c);
    MatchClockOf(FormatClock(c), MonthDay(c.month, c.day, TimeText(c)), TimeOfDay(c.hour, c.minute, c.second));
  }

  /** None of the three tokens of a written stamp holds a space. */
  lemma StampTokens(c: Clock)
    requires InPattern(c)
    ensures ' ' !in MonthAbbrevs[c.month - 1] && ' ' !in Decimal(c.day) && ' ' !in TimeText(c)
  {
    assert forall i :: 0 <= i < 12 ==>
      |MonthAbbrevs[i]| == 3 && IsLetter(MonthAbbrevs[i][0]) && IsLetter(MonthAbbrevs[i][1]) && IsLetter(MonthAbbrevs[i][2]);
    var abbr := MonthAbbrevs[c.month - 1];
    assert abbr == [abbr[0], abbr[1], abbr[2]];
    var d := Decimal(c.day);
    assert forall k :: 0 <= k < |d| ==> d[k] != ' ';
    var t := TimeText(c);
    assert forall k :: 0 <= k < |t| ==> IsDigit(t[k]) || t[k] == ':';
  }

  /** Two spaces before a token that starts with a non-space are skipped. */
  lemma ReadSpacesTwo(rest: string)
    requires rest == [] || !IsSpace(rest[0])
    ensures ReadSpaces("  " + rest) == Some(rest)
  {
    var s := "  " + rest;
    assert SkipSpaces(s, 2) == 2;
    assert SkipSpaces(s, 1) == 2;
    assert SkipSpaces(s, 0) == 2;
  }

  /** A stamp whose day is padded with a second space and which stops after
      the day, as the date text of a syslog line with a day below 10 becomes
      once the line is cut at single spaces, lacks its time and never parses. */
  lemma PaddedDayNoTime(c: Clock)
    requires InPattern(c)
    ensures ParseClock(MonthAbbrevs[c.month - 1] + "  " + Decimal(c.day)) == None
  {
    PaddedMonthDay(c);
  }

  lemma PaddedMonthDay(c: Clock)
    requires InPattern(c)
    ensures ReadMonthDay(MonthAbbrevs[c.month - 1] + "  " + Decimal(c.day)) == None
  {
    PaddedMonthDayOf(c.month, Decimal(c.day));
  }

  lemma PaddedMonthDayOf(m: nat, d: string)
    requires 1 <= m <= 12 && 1 <= |d| <= 2 && AllDigits(d) && 1 <= NumeralValue(d) <= 31
    ensures ReadMonthDay(MonthAbbrevs[m - 1] + "  " + d) == None
  {
    var abbr := MonthAbbrevs[m - 1];
    var t := "  " + d;
    assert abbr + "  " + d == abbr + t;
    ReadMonthOf(m, t);
    assert !IsSpace(d[0]) by {
      assert IsDigit(d[0]);
    }
    ReadSpacesTwo(d);
    assert ReadField(d, 1, 31) == Some(Token(NumeralValue(d), [])) by {
      assert d + [] == d;
      ReadFieldOf(d, [], 1, 31);
    }
    ReadMonthDayEnds(abbr + t, Token(m, t), d, NumeralValue(d));
  }

  /** A month and a day that end the text leave no blank before the time. */
  lemma ReadMonthDayEnds(s: string, month: Token, afterMonth: string, day: nat)
    requires ReadMonth(s) == Some(month)
    requires ReadSpaces(month.rest) == Some(afterMonth)
    requires ReadField(afterMonth, 1, 31) == Some(Token(day, []))
    ensures ReadMonthDay(s) == None
  {
    assert ReadSpaces([]) == None;
  }

  /** A stamp written in the syslog form parses exactly when its fields make a
      real date and time in 1900, and then gives back those fields: a day past
      the end of its month (29 February included, whatever the current year) or
      a leap second is refused. */
  lemma ParseFormatClock(c: Clock)
    requires InPattern(c)
    ensures ParseClock(FormatClock(c)) == if ValidClock(c) then Some(c) else None
  {
    MatchFormatClock(c);
  }

  /** For example, 29 February. */
  lemma NoLeapDay(hour: nat, minute: nat, second: nat)
    requires hour <= 23 && minute <= 59 && second <= 59
    ensures ParseClock(FormatClock(Clock(2, 29, hour, minute, second))) == None
  {
    ParseFormatClock(Clock(2, 29, hour, minute, second));
  }
}
