/** security_project/tools/log_parser.py: the alternative line parser built on
    the pattern `(\w{3}\s+\d{1,2}\s+\d{2}:\d{2}:\d{2})\s+(\S+)\s+(.*)` under
    `re.match`, and the cleaning step that drops rows whose timestamp does not
    parse. The file is given as the lines `readlines` returns, each with its
    newline. */
module LogParser {
  import opened Wrappers
  import opened Text
  import opened Seqs
  import opened DataProcessing

  /** The three groups of a match. */
  datatype ParsedLine = ParsedLine(timestamp: string, source: string, message: string)

  /** `\w{3}` at the start of the line. */
  predicate Word3(s: string) {
    |s| >= 3 && IsWordChar(s[0]) && IsWordChar(s[1]) && IsWordChar(s[2])
  }

  /** `s[i..j]` is one or more whitespace characters. */
  predicate Blank(s: string, i: nat, j: nat) {
    i < j <= |s| && forall k :: i <= k < j ==> IsSpace(s[k])
  }

  /** `\d{1,2}` fills `s[i..j]`. */
  predicate Digits12(s: string, i: nat, j: nat) {
    i < j <= i + 2 && j <= |s| && forall k :: i <= k < j ==> IsDigit(s[k])
  }

  /** `\d{2}:\d{2}:\d{2}` at `i`; no field is range-checked. */
  predicate ClockAt(s: string, i: nat) {
    && i + 8 <= |s|
    && IsDigit(s[i]) && IsDigit(s[i + 1]) && s[i + 2] == ':'
    && IsDigit(s[i + 3]) && IsDigit(s[i + 4]) && s[i + 5] == ':'
    && IsDigit(s[i + 6]) && IsDigit(s[i + 7])
  }

  /** `\S+` fills `s[i..j]`. */
  predicate Solid(s: string, i: nat, j: nat) {
    i < j <= |s| && forall k :: i <= k < j ==> !IsSpace(s[k])
  }

  /** `.*` fills `s[i..j]`: any characters but a newline. */
  predicate NoNewline(s: string, i: nat, j: nat) {
    i <= j <= |s| && forall k :: i <= k < j ==> s[k] != '\n'
  }

  /** The timestamp group: day digits `s[b..c]`, time at `d`. */
  predicate StampAt(s: string, b: nat, c: nat, d: nat) {
    Word3(s) && Blank(s, 3, b) && Digits12(s, b, c) && Blank(s, c, d) && ClockAt(s, d)
  }

  /** The rest of a match after the timestamp group ends at `e`: the source
      `s[f..g]` and the message `s[h..m]`. */
  predicate TailAt(s: string, e: nat, f: nat, g: nat, h: nat, m: nat) {
    Blank(s, e, f) && Solid(s, f, g) && Blank(s, g, h) && NoNewline(s, h, m)
  }

  /** The positions of a match. */
  datatype Cut = Cut(b: nat, c: nat, d: nat, f: nat, g: nat, h: nat, m: nat)

  /** One way the pattern matches the prefix `s[..x.m]`. */
  predicate Layout(s: string, x: Cut) {
    StampAt(s, x.b, x.c, x.d) && TailAt(s, x.d + 8, x.f, x.g, x.h, x.m)
  }

  /** The match `re.match` reports among those: the last `\s+` and `.*` take
      as much as they can. */
  predicate Greedy(s: string, x: Cut) {
    (x.h < |s| ==> !IsSpace(s[x.h])) && (x.m < |s| ==> s[x.m] == '\n')
  }

  /** The three groups of a match. */
  function Groups(s: string, x: Cut): ParsedLine
    requires Layout(s, x)
  {
    ParsedLine(s[..x.d + 8], s[x.f..x.g], s[x.h..x.m])
  }

  /** End of `\s+` from `i`. No shorter run ever matches, since the pattern
      goes on with a digit or `\S`, or with `.*`, which the greedy choice
      gives the least. */
  function ReadBlank(s: string, i: nat): (r: Option<nat>)
    requires i <= |s|
    ensures r.Some? ==> Blank(s, i, r.value) && (r.value == |s| || !IsSpace(s[r.value]))
    ensures r.None? ==> i == |s| || !IsSpace(s[i])
  {
    var j := SkipSpaces(s, i);
    if i < j then Some(j) else None
  }

  /** End of `\d{1,2}` from `i`, which must be followed by whitespace: a run of
      three digits or more leaves a digit after any one or two of them. */
  function ReadDay(s: string, i: nat): (r: Option<nat>)
    requires i <= |s|
    ensures r.Some? ==> Digits12(s, i, r.value) && (r.value == |s| || !IsDigit(s[r.value]))
  {
    var j := SkipDigits(s, i);
    if i < j <= i + 2 then Some(j) else None
  }

  /** End of `.*` from `i`: the first newline, or the end of the line. */
  function LineEnd(s: string, i: nat): (m: nat)
    requires i <= |s|
    ensures NoNewline(s, i, m) && (m == |s| || s[m] == '\n')
    decreases |s| - i
  {
    if i < |s| && s[i] != '\n' then LineEnd(s, i + 1) else i
  }

  /** The timestamp group read from the start of the line. */
  function ReadStamp(s: string): (r: Option<(nat, nat, nat)>)
    ensures r.Some? ==> StampAt(s, r.value.0, r.value.1, r.value.2)
  {
    if !Word3(s) then None
    else
      var b :- ReadBlank(s, 3);
      var c :- ReadDay(s, b);
      var d :- ReadBlank(s, c);
      if ClockAt(s, d) then Some((b, c, d)) else None
  }

  /** Source and message read from `e`, taken greedily. */
  function ReadTail(s: string, e: nat): (r: Option<(nat, nat, nat, nat)>)
    requires e <= |s|
    ensures r.Some? ==> TailAt(s, e, r.value.0, r.value.1, r.value.2, r.value.3)
                        && (r.value.2 == |s| || !IsSpace(s[r.value.2]))
                        && (r.value.3 == |s| || s[r.value.3] == '\n')
  {
    var f :- ReadBlank(s, e);
    var g := SkipNonSpaces(s, f);
    var h :- ReadBlank(s, g);
    Some((f, g, h, LineEnd(s, h)))
  }

  /** The positions of the match `re.match` finds, if any. */
  function Scan(s: string): Option<Cut>
  {
    var stamp := ReadStamp(s);
    if stamp.None? then None else ScanFrom(s, stamp.value)
  }

  /** The match once its timestamp group has been read. */
  function ScanFrom(s: string, stamp: (nat, nat, nat)): Option<Cut>
    requires stamp.2 + 8 <= |s|
  {
    var tail := ReadTail(s, stamp.2 + 8);
    if tail.None? then None
    else Some(Cut(stamp.0, stamp.1, stamp.2, tail.value.0, tail.value.1, tail.value.2, tail.value.3))
  }

  /** `re.match(pattern, line).groups()`, or `None` when it does not match. */
  function MatchLine(s: string): (r: Option<ParsedLine>)
  {
    ScanSound(s);
    match Scan(s)
    case None => None
    case Some(x) => Some(Groups(s, x))
  }

  /** What `Scan` finds is a greedy match. */
  lemma ScanSound(s: string)
    ensures Scan(s).Some? ==> Layout(s, Scan(s).value) && Greedy(s, Scan(s).value)
  {
  }

  lemma LineEndTo(s: string, i: nat, m: nat)
    requires NoNewline(s, i, m) && (m == |s| || s[m] == '\n')
    ensures LineEnd(s, i) == m
    decreases m - i
  {
    if i < m {
      LineEndTo(s, i + 1, m);
    }
  }

  /** The positions of the timestamp group are forced. */
  lemma ReadStampOf(s: string, x: Cut)
    requires StampAt(s, x.b, x.c, x.d)
    ensures ReadStamp(s) == Some((x.b, x.c, x.d))
  {
    SkipSpacesTo(s, 3, x.b);
    SkipDigitsTo(s, x.b, x.c);
    SkipSpacesTo(s, x.c, x.d);
  }

  /** Source and message are read as the greedy choice takes them. */
  lemma ReadTailOf(s: string, x: Cut)
    requires Layout(s, x) && Greedy(s, x)
    ensures ReadTail(s, x.d + 8) == Some((x.f, x.g, x.h, x.m))
  {
    TailRead(s, x.d + 8, x.f, x.g, x.h, x.m);
  }

  lemma TailRead(s: string, e: nat, f: nat, g: nat, h: nat, m: nat)
    requires TailAt(s, e, f, g, h, m)
    requires (h < |s| ==> !IsSpace(s[h])) && (m < |s| ==> s[m] == '\n')
    ensures ReadTail(s, e) == Some((f, g, h, m))
  {
    BlankTo(s, e, f);
    SolidTo(s, f, g);
    BlankTo(s, g, h);
    LineEndTo(s, h, m);
    ReadTailSteps(s, e, f, g, h, m);
  }

  lemma BlankTo(s: string, i: nat, j: nat)
    requires Blank(s, i, j) && (j == |s| || !IsSpace(s[j]))
    ensures SkipSpaces(s, i) == j
  {
    SkipSpacesTo(s, i, j);
  }

  lemma SolidTo(s: string, i: nat, j: nat)
    requires Solid(s, i, j) && (j == |s| || IsSpace(s[j]))
    ensures SkipNonSpaces(s, i) == j
  {
    SkipNonSpacesTo(s, i, j);
  }

  lemma ReadTailSteps(s: string, e: nat, f: nat, g: nat, h: nat, m: nat)
    requires e < f <= |s| && SkipSpaces(s, e) == f
    requires f <= |s| && SkipNonSpaces(s, f) == g
    requires g < h <= |s| && SkipSpaces(s, g) == h
    requires LineEnd(s, h) == m
    ensures ReadTail(s, e) == Some((f, g, h, m))
  {
  }

  /** Every position of a match but the last two is forced, and with those
      taken greedily the match is the one `Scan` reports. */
  lemma ScanComplete(s: string, x: Cut)
    requires Layout(s, x) && Greedy(s, x)
    ensures Scan(s) == Some(x)
  {
    ReadStampOf(s, x);
    ReadTailOf(s, x);
    ScanOf(s, x);
  }

  lemma ScanOf(s: string, x: Cut)
    requires ReadStamp(s) == Some((x.b, x.c, x.d))
    requires ReadTail(s, x.d + 8) == Some((x.f, x.g, x.h, x.m))
    ensures Scan(s) == Some(x)
  {
    ScanFromOf(s, x);
  }

  lemma ScanFromOf(s: string, x: Cut)
    requires x.d + 8 <= |s|
    requires ReadTail(s, x.d + 8) == Some((x.f, x.g, x.h, x.m))
    ensures ScanFrom(s, (x.b, x.c, x.d)) == Some(x)
  {
  }

  /** `MatchLine` reports exactly the groups of the greedy match. */
  lemma MatchLineCorrect(s: string, p: ParsedLine)
    ensures MatchLine(s) == Some(p) <==> exists x :: Layout(s, x) && Greedy(s, x) && p == Groups(s, x)
  {
    if exists x :: Layout(s, x) && Greedy(s, x) && p == Groups(s, x) {
      var x :| Layout(s, x) && Greedy(s, x) && p == Groups(s, x);
      ScanComplete(s, x);
    }
  }

  /** A line is skipped exactly when the pattern matches no prefix of it at
      all: whenever some match exists, so does the greedy one. */
  lemma MatchLineNone(s: string)
    ensures MatchLine(s).None? <==> forall x :: !Layout(s, x)
  {
    ScanSound(s);
    if exists x :: Layout(s, x) {
      var x :| Layout(s, x);
      var y := Greediest(s, x);
      ScanComplete(s, y);
    }
  }

  /** Any match gives a greedy one: the same stamp and source, with the last
      blank and the message taken as far as they go. */
  lemma Greediest(s: string, x: Cut) returns (y: Cut)
    requires Layout(s, x)
    ensures Layout(s, y) && Greedy(s, y)
  {
    var h := SkipSpaces(s, x.h);
    y := x.(h := h, m := LineEnd(s, h));
  }

  /** What the groups look like: the timestamp is a prefix of the line and at
      least 14 characters long, the source one run of non-whitespace, and the
      message holds no newline and does not start with whitespace. */
  lemma MatchLineGroups(s: string)
    requires MatchLine(s).Some?
    ensures var p := MatchLine(s).value;
      && StartsWith(s, p.timestamp) && 14 <= |p.timestamp|
      && p.source != [] && NoSpace(p.source)
      && '\n' !in p.message && (p.message == [] || !IsSpace(p.message[0]))
  {
    ScanSound(s);
    GroupsShape(s, Scan(s).value);
  }

  lemma GroupsShape(s: string, x: Cut)
    requires Layout(s, x) && Greedy(s, x)
    ensures var p := Groups(s, x);
      && StartsWith(s, p.timestamp) && 14 <= |p.timestamp|
      && p.source != [] && NoSpace(p.source)
      && '\n' !in p.message && (p.message == [] || !IsSpace(p.message[0]))
  {
    var p := Groups(s, x);
    assert forall k :: 0 <= k < |p.message| ==> p.message[k] == s[x.h + k];
    assert forall k :: 0 <= k < |p.source| ==> p.source[k] == s[x.f + k];
  }

  /** A timestamp of the shape `Www dd hh:mm:ss`, with single blanks. */
  lemma StampShape(s: string)
    requires |s| >= 15
    requires IsWordChar(s[0]) && IsWordChar(s[1]) && IsWordChar(s[2]) && s[3] == ' '
    requires IsDigit(s[4]) && IsDigit(s[5]) && s[6] == ' '
    requires IsDigit(s[7]) && IsDigit(s[8]) && s[9] == ':' && IsDigit(s[10]) && IsDigit(s[11])
    requires s[12] == ':' && IsDigit(s[13]) && IsDigit(s[14])
    ensures StampAt(s, 4, 6, 7)
  {
  }

  lemma SourceLineLayout()
    ensures Layout("Nov 12 10:09:56 host\n", Cut(4, 6, 7, 16, 20, 21, 21))
    ensures Greedy("Nov 12 10:09:56 host\n", Cut(4, 6, 7, 16, 20, 21, 21))
  {
    SourceLineStamp();
    SourceLineTail();
  }

  lemma SourceLineStamp()
    ensures StampAt("Nov 12 10:09:56 host\n", 4, 6, 7)
  {
    StampShape("Nov 12 10:09:56 host\n");
  }

  lemma SourceLineTail()
    ensures TailAt("Nov 12 10:09:56 host\n", 15, 16, 20, 21, 21)
  {
  }

  lemma SourceLineGroups()
    ensures var s := "Nov 12 10:09:56 host\n";
      s[..15] == "Nov 12 10:09:56" && s[16..20] == "host" && s[21..21] == ""
  {
  }

  /** A line that ends right after its source is refused without its
      newline and taken, with an empty message, with it: the `\s+` before the
      message consumes the newline. */
  lemma NewlineAfterSource()
    ensures MatchLine("Nov 12 10:09:56 host") == None
    ensures MatchLine("Nov 12 10:09:56 host\n") == Some(ParsedLine("Nov 12 10:09:56", "host", ""))
  {
    SourceLineLayout();
    ScanComplete("Nov 12 10:09:56 host\n", Cut(4, 6, 7, 16, 20, 21, 21));
    SourceLineGroups();
    NoTail();
  }

  lemma ShortLineStamp()
    ensures ReadStamp("Nov 12 10:09:56 host") == Some((4, 6, 7))
  {
    var s := "Nov 12 10:09:56 host";
    StampShape(s);
    ReadStampOf(s, Cut(4, 6, 7, 0, 0, 0, 0));
  }

  lemma ShortLineTail()
    ensures ReadTail("Nov 12 10:09:56 host", 15) == None
  {
    var s := "Nov 12 10:09:56 host";
    SkipSpacesTo(s, 15, 16);
    SkipNonSpacesTo(s, 16, 20);
  }

  /** Without the newline the source runs to the end of the line and no
      `\s+` follows it. */
  lemma NoTail()
    ensures MatchLine("Nov 12 10:09:56 host") == None
  {
    ShortLineStamp();
    ShortLineTail();
  }

  lemma WideLayout()
    ensures Layout("Abc 99 99:99:99 x y", Cut(4, 6, 7, 16, 17, 18, 19))
    ensures Greedy("Abc 99 99:99:99 x y", Cut(4, 6, 7, 16, 17, 18, 19))
  {
    WideStamp();
    WideTail();
  }

  lemma WideStamp()
    ensures StampAt("Abc 99 99:99:99 x y", 4, 6, 7)
  {
    StampShape("Abc 99 99:99:99 x y");
  }

  lemma WideTail()
    ensures TailAt("Abc 99 99:99:99 x y", 15, 16, 17, 18, 19)
  {
  }

  /** No field of the date or time is range-checked. */
  lemma NoRangeCheck()
    ensures MatchLine("Abc 99 99:99:99 x y") == Some(ParsedLine("Abc 99 99:99:99", "x", "y"))
  {
    WideLayout();
    ScanComplete("Abc 99 99:99:99 x y", Cut(4, 6, 7, 16, 17, 18, 19));
    WideGroups();
  }

  lemma WideGroups()
    ensures var s := "Abc 99 99:99:99 x y";
      s[..15] == "Abc 99 99:99:99" && s[16..17] == "x" && s[18..19] == "y"
  {
  }

  /** A row of the frame `parse_log` builds; `clean_data` turns the
      timestamp text into an instant or a missing value. */
  datatype FrameRow = FrameRow(timestamp: Stamp, source: string, message: string)

  /** The row a line contributes, if it matches. */
  function ParsedRow(line: string): Option<FrameRow> {
    match MatchLine(line)
    case None => None
    case Some(p) => Some(FrameRow(Raw(p.timestamp), p.source, p.message))
  }

  /** A `DataFrame` with the columns Timestamp, Source and Message. */
  class LogFrame {
    var rows: seq<FrameRow>

    constructor(initial: seq<FrameRow>)
      ensures rows == initial
    {
      rows := initial;
    }
  }

  /** `parse_log`: a new frame of the lines that match, in file order. */
  method ParseLog(lines: seq<string>) returns (frame: LogFrame)
    ensures fresh(frame)
    ensures frame.rows == FilterMap(lines, ParsedRow)
  {
    var parsed := Collect(lines, ParsedRow);
    frame := new LogFrame(parsed);
  }

  /** `parse_log` keeps, in order, exactly the lines that match, each with
      its three groups. */
  lemma ParseLogRows(lines: seq<string>)
    ensures Picks(lines, ParsedRow, FilterMap(lines, ParsedRow), Positions(lines, ParsedRow))
    ensures forall k :: 0 <= k < |lines| ==> (ParsedRow(lines[k]).Some? <==> MatchLine(lines[k]).Some?)
  {
    FilterMapPicks(lines, ParsedRow);
  }

  /** `pd.to_datetime(..., errors='coerce')` on the Timestamp cell. */
  function ConvertStamp(parse: string -> Option<int>): FrameRow -> FrameRow {
    (r: FrameRow) => r.(timestamp := match Coerce(parse, r.timestamp) case Some(t) => Instant(t) case None => Missing)
  }

  predicate Timed(r: FrameRow) {
    !r.timestamp.Missing?
  }

  /** What cleaning makes of one row: kept with its converted timestamp, or
      dropped when the timestamp does not parse. */
  function Dated(parse: string -> Option<int>): FrameRow -> Option<FrameRow> {
    (r: FrameRow) =>
      match Coerce(parse, r.timestamp)
      case None => None
      case Some(t) => Some(r.(timestamp := Instant(t)))
  }

  /** Converting the column and then dropping missing values is the
      row-by-row cleaning. */
  lemma {:induction false} ConvertThenDrop(rows: seq<FrameRow>, parse: string -> Option<int>)
    ensures Filter(Map(rows, ConvertStamp(parse)), Timed) == FilterMap(rows, Dated(parse))
  {
    if rows != [] {
      var r := rows[0];
      var rest := rows[1..];
      assert rows == [r] + rest;
      MapAppend([r], rest, ConvertStamp(parse));
      MapOne(r, ConvertStamp(parse));
      FilterMapAppend([ConvertStamp(parse)(r)], Map(rest, ConvertStamp(parse)), KeepIf(Timed));
      FilterOne(ConvertStamp(parse)(r), Timed);
      FilterMapAppend([r], rest, Dated(parse));
      FilterMapOne(r, Dated(parse));
      ConvertThenDrop(rest, parse);
    }
  }

  /** `clean_data`: changes the frame it is given, and returns it. */
  method CleanData(df: LogFrame, parse: string -> Option<int>) returns (r: LogFrame)
    modifies df
    ensures r == df
    ensures df.rows == FilterMap(old(df.rows), Dated(parse))
  {
    ghost var rows := df.rows;
    df.rows := Map(df.rows, ConvertStamp(parse));
    df.rows := Filter(df.rows, Timed);
    ConvertThenDrop(rows, parse);
    return df;
  }

  /** Cleaning keeps, in order, exactly the rows whose timestamp parses, with
      the parsed instant and the other columns as they were. */
  lemma CleanedFrame(rows: seq<FrameRow>, parse: string -> Option<int>)
    ensures Picks(rows, Dated(parse), FilterMap(rows, Dated(parse)), Positions(rows, Dated(parse)))
    ensures forall r :: Dated(parse)(r).Some? <==> Coerce(parse, r.timestamp).Some?
    ensures forall y :: y in FilterMap(rows, Dated(parse)) ==>
              y.timestamp.Instant? && exists x :: x in rows && x.source == y.source && x.message == y.message
  {
    FilterMapPicks(rows, Dated(parse));
    forall y | y in FilterMap(rows, Dated(parse))
      ensures y.timestamp.Instant? && exists x :: x in rows && x.source == y.source && x.message == y.message
    {
      var x :| x in rows && Dated(parse)(x) == Some(y);
    }
  }

  /** Cleaning a cleaned frame changes nothing. */
  lemma CleanIdempotent(rows: seq<FrameRow>, parse: string -> Option<int>)
    ensures FilterMap(FilterMap(rows, Dated(parse)), Dated(parse)) == FilterMap(rows, Dated(parse))
  {
    CleanedFrame(rows, parse);
    FilterMapIdentity(FilterMap(rows, Dated(parse)), Dated(parse));
  }
}
