/**
 * The scraper of course-schedule pages: from the groups of a page to
 * records of each group's id, available places, teachers and weekly
 * periods, with French dates rewritten in ISO form.
 */
module Schedule {
  import opened Wrappers
  import opened Text
  import opened Markup
  import opened Results

  // ---------------------------------------------------------------------
  // Records
  // ---------------------------------------------------------------------

  /** Where a period meets: an optional classroom and the campus. */
  datatype Location = Location(classroom: Option<string>, campus: string)

  /** One weekly meeting of a group; `kind` is the field serialised as "type". */
  datatype Period = Period(
    day: string,
    startDate: string,
    endDate: string,
    startTime: string,
    endTime: string,
    location: Option<Location>,
    kind: string)

  /** Exams are a placeholder that is never filled in. */
  datatype Exam = Exam

  /** One group (section) of a course. */
  datatype Group = Group(
    id: u32,
    availablePlaces: u32,
    teachers: seq<string>,
    periods: seq<Period>,
    exams: Option<seq<Exam>>)

  // ---------------------------------------------------------------------
  // Dates
  // ---------------------------------------------------------------------

  /** The French month names, January first. */
  const MonthNames: seq<string> := [
    "janvier", "février", "mars", "avril", "mai", "juin", "juillet", "août",
    "septembre", "octobre", "novembre", "décembre"]

  /** The name of month `m`. */
  function MonthName(m: nat): string
    requires 1 <= m <= 12
  {
    MonthNames[m - 1]
  }

  /**
   * `MONTHS_MAP.get(name)`: the number of the month called `name`, if the
   * month table has that name.
   */
  function MonthNumber(name: string): (r: Option<nat>)
    ensures r.Some? ==> 1 <= r.value <= 12 && MonthName(r.value) == name
    ensures r.None? ==> forall m :: 1 <= m <= 12 ==> MonthName(m) != name
  {
    LookupMonth(name, 0)
  }

  /** The table searched from position `i` on. */
  function LookupMonth(name: string, i: nat): (r: Option<nat>)
    requires i <= |MonthNames|
    ensures r.Some? ==> i < r.value <= |MonthNames| && MonthNames[r.value - 1] == name
    ensures r.None? ==> forall j :: i <= j < |MonthNames| ==> MonthNames[j] != name
    decreases |MonthNames| - i
  {
    if i == |MonthNames| then None
    else if MonthNames[i] == name then Some(i + 1)
    else LookupMonth(name, i + 1)
  }

  /** No two months share a name: the second letter and the length already tell them apart. */
  lemma MonthNamesDistinct()
    ensures forall a, b :: 0 <= a < b < |MonthNames| ==> MonthNames[a] != MonthNames[b]
  {
    forall a, b | 0 <= a < b < |MonthNames|
      ensures MonthNames[a] != MonthNames[b]
    {
      assert (MonthNames[a][1], |MonthNames[a]|) != (MonthNames[b][1], |MonthNames[b]|);
    }
  }

  /** The table maps the name of month `m` back to `m`. */
  lemma MonthNameNumber(m: nat)
    requires 1 <= m <= 12
    ensures MonthNumber(MonthName(m)) == Some(m)
  {
    MonthNamesDistinct();
  }

  /** Month names are single words. */
  lemma MonthNameWithoutSpace(m: nat)
    requires 1 <= m <= 12
    ensures ' ' !in MonthName(m)
  {
    if m == 1 {} else if m == 2 {} else if m == 3 {} else if m == 4 {}
    else if m == 5 {} else if m == 6 {} else if m == 7 {} else if m == 8 {}
    else if m == 9 {} else if m == 10 {} else if m == 11 {} else {}
  }

  /** A month number written on two digits, as `{:0>2}` writes it. */
  lemma MonthField(m: nat)
    requires 1 <= m <= 12
    ensures var f := PadLeft(NatToDecimal(m), '0', 2);
      |f| == 2 && AllDigits(f) && DecimalValue(f) == m
  {
    var d := NatToDecimal(m);
    assert |d| <= 2 by {
      if m >= 10 {
        assert NatToDecimal(m / 10) == [DigitChar(m / 10)];
      }
    }
    PadLeftDecimal(d, 2);
  }

  /**
   * `format_date`: the French date "day month-name year" in ISO form, read
   * from its space-separated tokens.
   */
  function FormatDate(text: string): Result<string> {
    DateOfTokens(Split(text, " "))
  }

  /**
   * The ISO date of the tokens of a French date: the year is the third
   * token, the month the number of the second in the month table, the day
   * the first token; tokens after the third are not looked at.
   */
  function DateOfTokens(parts: seq<string>): Result<string> {
    if |parts| < 3 then Err(StructureMismatch)
    else match MonthNumber(parts[1])
      case None => Err(UnknownMonthName(parts[1]))
      case Some(m) => Ok(IsoDate(parts[2], m, parts[0]))
  }

  /** `format!("{}-{:0>2}-{:0>2}", year, month, day)`. */
  function IsoDate(year: string, month: nat, day: string): string {
    year + "-" + PadLeft(NatToDecimal(month), '0', 2) + "-" + PadLeft(day, '0', 2)
  }

  /**
   * A date fails on fewer than three space-separated tokens and on a second
   * token that is not in the month table, and on nothing else.
   */
  lemma FormatDateFailures(text: string)
    ensures var parts := Split(text, " ");
      && (FormatDate(text).Ok? <==> |parts| >= 3 && MonthNumber(parts[1]).Some?)
      && (|parts| < 3 ==> FormatDate(text) == Err(StructureMismatch))
      && (|parts| >= 3 && MonthNumber(parts[1]).None? ==> FormatDate(text) == Err(UnknownMonthName(parts[1])))
  {
  }

  /** The positions of the three fields in `y-mm-dd`. */
  lemma IsoFields(y: string, mm: string, dd: string)
    requires |mm| == 2
    ensures var iso := y + "-" + mm + "-" + dd;
      && |iso| == |y| + 4 + |dd| && iso[..|y|] == y && iso[|y|] == '-' && iso[|y| + 3] == '-'
      && iso[|y| + 1..|y| + 3] == mm && iso[|y| + 4..] == dd
  {
    var iso := y + "-" + mm + "-" + dd;
    assert iso == y + ("-" + mm + "-" + dd);
    assert iso[|y|..] == "-" + mm + "-" + dd;
  }

  /**
   * The ISO date of a month of the year is the year token, a dash, two
   * digits denoting the month, a dash, and the day token left-padded with
   * '0' to two characters.
   */
  lemma IsoDateShape(y: string, m: nat, day: string)
    requires 1 <= m <= 12
    ensures var iso := IsoDate(y, m, day);
      && |iso| >= |y| + 6 && iso[..|y|] == y && iso[|y|] == '-' && iso[|y| + 3] == '-'
      && AllDigits(iso[|y| + 1..|y| + 3]) && DecimalValue(iso[|y| + 1..|y| + 3]) == m
      && iso[|y| + 4..] == PadLeft(day, '0', 2)
  {
    var mm := PadLeft(NatToDecimal(m), '0', 2);
    MonthField(m);
    IsoFields(y, mm, PadLeft(day, '0', 2));
  }

  /** An accepted date is the ISO date of its year token, the month its second token names, and its day token. */
  lemma FormatDateIso(text: string)
    requires FormatDate(text).Ok?
    ensures var parts := Split(text, " ");
      && |parts| >= 3 && MonthNumber(parts[1]).Some?
      && FormatDate(text).value == IsoDate(parts[2], MonthNumber(parts[1]).value, parts[0])
  {
  }

  /**
   * A date written out from tokens that hold no space is read from exactly
   * those tokens.
   */
  lemma FormatDateOfTokens(parts: seq<string>)
    requires |parts| >= 1
    requires forall k :: 0 <= k < |parts| ==> ' ' !in parts[k]
    ensures FormatDate(Join(parts, " ")) == DateOfTokens(parts)
  {
    SplitJoin(parts, " ");
  }

  /**
   * Normalising a French date written out as tokens without spaces (a day,
   * the name of month `m`, a year, then possibly more) gives the ISO date
   * of the day, the month and the year; tokens after the year are ignored.
   */
  lemma FormatDateOfFrenchDate(parts: seq<string>, m: nat)
    requires 1 <= m <= 12 && |parts| >= 3 && parts[1] == MonthName(m)
    requires forall k :: 0 <= k < |parts| ==> ' ' !in parts[k]
    ensures FormatDate(Join(parts, " ")) == Ok(IsoDate(parts[2], m, parts[0]))
  {
    MonthNameNumber(m);
    FormatDateOfTokens(parts);
  }

  lemma ExampleDateTokens()
    ensures Split("5 septembre 2022", " ") == ["5", "septembre", "2022"]
  {
    assert Join(["5", "septembre", "2022"], " ") == "5 septembre 2022";
    SplitJoin(["5", "septembre", "2022"], " ");
  }

  lemma ExampleDateOfTokens()
    ensures DateOfTokens(["5", "septembre", "2022"]) == Ok("2022-09-05")
  {
    MonthNameNumber(9);
    assert MonthName(9) == "septembre";
    assert NatToDecimal(9) == "9";
    assert PadLeft("9", '0', 2) == "09" && PadLeft("5", '0', 2) == "05";
    assert IsoDate("2022", 9, "5") == "2022" + "-" + "09" + "-" + "05" == "2022-09-05";
  }

  /** "5 septembre 2022" becomes "2022-09-05". */
  lemma FormatDateExample()
    ensures FormatDate("5 septembre 2022") == Ok("2022-09-05")
  {
    ExampleDateTokens();
    ExampleDateOfTokens();
  }

  // ---------------------------------------------------------------------
  // Date ranges
  // ---------------------------------------------------------------------

  /** A `<br>`-separated segment of a date cell, trimmed, with every "Du " and "au " removed. */
  function StripRangeWords(segment: string): string {
    Replace(Replace(Trim(segment), "Du ", ""), "au ", "")
  }

  /** One segment of a date cell in ISO form. */
  function NormaliseDateSegment(segment: string): Result<string> {
    FormatDate(StripRangeWords(segment))
  }

  /**
   * `parse_dates`: every `<br>`-separated segment is normalised, in order,
   * and the first two are the start and end dates.
   */
  function ParseDates(text: string): Result<(string, string)> {
    match Traverse(Split(text, "<br>"), NormaliseDateSegment)
    case Err(e) => Err(e)
    case Ok(dates) => if |dates| < 2 then Err(StructureMismatch) else Ok((dates[0], dates[1]))
  }

  /**
   * The dates are accepted exactly when there are at least two segments and
   * every segment, the extra ones included, is a valid date; they are then
   * the first two segments normalised. The first segment that fails decides
   * the error, and a single valid segment is a structure mismatch.
   */
  lemma ParseDatesSpec(text: string)
    ensures var segments := Split(text, "<br>");
      && (ParseDates(text).Ok? <==>
            |segments| >= 2 && forall i :: 0 <= i < |segments| ==> NormaliseDateSegment(segments[i]).Ok?)
      && (ParseDates(text).Ok? ==>
            ParseDates(text).value == (NormaliseDateSegment(segments[0]).value, NormaliseDateSegment(segments[1]).value))
      && (forall k :: 0 <= k < |segments| && NormaliseDateSegment(segments[k]).Err?
            && (forall j :: 0 <= j < k ==> NormaliseDateSegment(segments[j]).Ok?)
            ==> ParseDates(text) == Err(NormaliseDateSegment(segments[k]).error))
      && (|segments| < 2 && NormaliseDateSegment(segments[0]).Ok? ==> ParseDates(text) == Err(StructureMismatch))
  {
    var segments := Split(text, "<br>");
    forall k | 0 <= k < |segments| && NormaliseDateSegment(segments[k]).Err?
              && (forall j :: 0 <= j < k ==> NormaliseDateSegment(segments[j]).Ok?)
      ensures ParseDates(text) == Err(NormaliseDateSegment(segments[k]).error)
    {
      TraverseFirstError(segments, NormaliseDateSegment, k);
    }
  }

  /** A date that holds no range word and no surrounding whitespace. */
  ghost predicate PlainDate(d: string) {
    d != [] && IsTrimmed(d) && 'D' !in d && '<' !in d && !Contains(d, "au ")
  }

  /** Range word `w` followed by a plain date is already trimmed. */
  lemma TrimRangeWord(w: string, d: string)
    requires w != [] && !IsWhitespace(w[0]) && PlainDate(d)
    ensures Trim(w + d) == w + d
  {
    assert (w + d)[|w + d| - 1] == d[|d| - 1];
    TrimTrimmed(w + d);
  }

  /** "Du " in front of a plain date is stripped away. */
  lemma StripDu(d: string)
    requires PlainDate(d)
    ensures StripRangeWords("Du " + d) == d
  {
    var s := "Du " + d;
    assert StripRangeWords(s) == Replace(Replace(s, "Du ", ""), "au ", "") by {
      TrimRangeWord("Du ", d);
    }
    assert Replace(Replace(s, "Du ", ""), "au ", "") == d by {
      NoMatchWithoutFirstChar(d, "Du ");
      RemoveLeading("Du ", d);
    }
  }

  /** "au " in front of a plain date is stripped away. */
  lemma StripAu(d: string)
    requires PlainDate(d)
    ensures StripRangeWords("au " + d) == d
  {
    var s := "au " + d;
    assert StripRangeWords(s) == Replace(Replace(s, "Du ", ""), "au ", "") by {
      TrimRangeWord("au ", d);
    }
    assert Replace(Replace(s, "Du ", ""), "au ", "") == d by {
      NoMatchWithoutFirstChar(s, "Du ");
      RemoveLeading("au ", d);
    }
  }

  /**
   * A date cell "Du <start><br>au <end>" gives the two dates normalised,
   * the start date's error first.
   */
  lemma ParseDatesOfRange(start: string, end: string)
    requires PlainDate(start) && PlainDate(end)
    ensures ParseDates("Du " + start + "<br>" + "au " + end) ==
      match FormatDate(start)
      case Err(e) => Err(e)
      case Ok(s) => (match FormatDate(end) case Err(e) => Err(e) case Ok(t) => Ok((s, t)))
  {
    var first, second := "Du " + start, "au " + end;
    assert Split("Du " + start + "<br>" + "au " + end, "<br>") == [first, second] by {
      assert "Du " + start + "<br>" + "au " + end == first + "<br>" + second;
      SplitPair(first, "<br>", second);
    }
    assert NormaliseDateSegment(first) == FormatDate(start) by { StripDu(start); }
    assert NormaliseDateSegment(second) == FormatDate(end) by { StripAu(end); }
    TraversePair(first, second, NormaliseDateSegment);
  }

  // ---------------------------------------------------------------------
  // Locations
  // ---------------------------------------------------------------------

  /**
   * `parse_location`: empty text is no location; otherwise the trimmed
   * `|`-separated segment 0 is the classroom, absent when empty, and
   * segment 1 the campus. Text with no `|` has no segment 1.
   */
  function ParseLocation(text: string): Result<Option<Location>> {
    var parts := Split(text, "|");
    if text == [] then Ok(None)
    else if |parts| < 2 then Err(StructureMismatch)
    else
      var classroom := Trim(parts[0]);
      Ok(Some(Location(if classroom != [] then Some(classroom) else None, Trim(parts[1]))))
  }

  /**
   * Empty text is no location, non-empty text without a `|` is an error,
   * and any other text is a location whose campus is the trimmed second
   * segment and whose classroom is the trimmed first one, absent exactly
   * when that is empty.
   */
  lemma ParseLocationCases(text: string)
    ensures text == [] ==> ParseLocation(text) == Ok(None)
    ensures text != [] && '|' !in text ==> ParseLocation(text) == Err(StructureMismatch)
    ensures ParseLocation(text).Ok? <==> text == [] || '|' in text
    ensures text != [] && '|' in text ==>
      var parts := Split(text, "|");
      && ParseLocation(text).value.Some?
      && ParseLocation(text).value.value.campus == Trim(parts[1])
      && (ParseLocation(text).value.value.classroom.None? <==> Trim(parts[0]) == [])
      && (ParseLocation(text).value.value.classroom.Some? ==> ParseLocation(text).value.value.classroom.value == Trim(parts[0]))
  {
    SplitPieces(text, "|");
    if '|' in text {
      CharContained(text, '|');
    } else {
      NoMatchWithoutFirstChar(text, "|");
    }
  }

  /**
   * The location cell "classroom | campus" reads back its classroom (none
   * when empty) and its campus.
   */
  lemma ParseLocationOf(classroom: string, campus: string)
    requires '|' !in classroom && '|' !in campus && IsTrimmed(classroom) && IsTrimmed(campus)
    ensures ParseLocation(classroom + " | " + campus)
         == Ok(Some(Location(if classroom == [] then None else Some(classroom), campus)))
  {
    SplitLocationCell(classroom, campus);
    TrimSpaceAfter(classroom);
    TrimSpaceBefore(campus);
  }

  lemma SplitLocationCell(classroom: string, campus: string)
    requires '|' !in classroom && '|' !in campus
    ensures Split(classroom + " | " + campus, "|") == [classroom + " ", " " + campus]
  {
    var left, right := classroom + " ", " " + campus;
    assert classroom + " | " + campus == left + "|" + right;
    SplitPair(left, "|", right);
  }

  /** Segments after the second are ignored. */
  lemma ParseLocationExtraSegments(first: string, second: string, rest: string)
    requires '|' !in first && '|' !in second
    ensures ParseLocation(first + "|" + second + "|" + rest) == ParseLocation(first + "|" + second)
  {
    SplitTwoHeads(first, "|", second, rest);
    SplitPair(first, "|", second);
  }

  // ---------------------------------------------------------------------
  // Times
  // ---------------------------------------------------------------------

  /** The start and end times of a time cell: its `&nbsp;`-separated tokens 1 and 3, trimmed. */
  function TimeRange(text: string): Result<(string, string)> {
    var times := TrimEach(Split(text, "&nbsp;"));
    if |times| < 4 then Err(MalformedTimeField) else Ok((times[1], times[3]))
  }

  /**
   * A time cell made of tokens joined by `&nbsp;` gives tokens 1 and 3,
   * trimmed, and fails when there are fewer than four tokens.
   */
  lemma TimeRangeOfTokens(tokens: seq<string>)
    requires |tokens| >= 1 && forall k :: 0 <= k < |tokens| ==> '&' !in tokens[k]
    ensures TimeRange(Join(tokens, "&nbsp;")) ==
      if |tokens| < 4 then Err(MalformedTimeField) else Ok((Trim(tokens[1]), Trim(tokens[3])))
  {
    SplitJoin(tokens, "&nbsp;");
  }

  // ---------------------------------------------------------------------
  // Periods
  // ---------------------------------------------------------------------

  /**
   * The record built from the cell texts of a period row, failing where
   * `parse_period` panics and in the same order: the date cell (1) is read
   * first, then the time cell (2), then the location cell (3), then the
   * type cell (4).
   */
  function PeriodFromTexts(texts: seq<string>): (r: Result<Period>)
    ensures r.Ok? <==> |texts| >= 5 && ParseDates(texts[1]).Ok? && TimeRange(texts[2]).Ok? && ParseLocation(texts[3]).Ok?
    ensures r.Ok? ==>
      && r.value.day == Trim(texts[0])
      && (r.value.startDate, r.value.endDate) == ParseDates(texts[1]).value
      && (r.value.startTime, r.value.endTime) == TimeRange(texts[2]).value
      && r.value.location == ParseLocation(texts[3]).value
      && r.value.kind == texts[4]
  {
    if |texts| < 2 then Err(StructureMismatch)
    else
      var dates := ParseDates(texts[1]);
      if dates.Err? then Err(dates.error)
      else if |texts| < 3 then Err(StructureMismatch)
      else
        var times := TimeRange(texts[2]);
        if times.Err? then Err(times.error)
        else if |texts| < 4 then Err(StructureMismatch)
        else
          var location := ParseLocation(texts[3]);
          if location.Err? then Err(location.error)
          else if |texts| < 5 then Err(StructureMismatch)
          else Ok(Period(Trim(texts[0]), dates.value.0, dates.value.1, times.value.0, times.value.1,
                         location.value, texts[4]))
  }

  /** `parse_period` on a table row. */
  function PeriodOf(row: Row): Result<Period> {
    PeriodFromTexts(CellTexts(row))
  }

  /** `parse_period`: collects the text of every cell, then builds the record. */
  method ParsePeriod(row: Row) returns (r: Result<Period>)
    ensures r == PeriodOf(row)
  {
    var texts: seq<string> := [];
    for i := 0 to |row|
      invariant |texts| == i
      invariant forall j :: 0 <= j < i ==> texts[j] == CellText(row[j])
    {
      var links := row[i].links;
      var text := if |links| == 0 then row[i].text else links[0];
      texts := texts + [text];
    }
    assert texts == CellTexts(row);
    r := PeriodFromTexts(texts);
  }

  /**
   * A row gives a period exactly when it has at least five cells and its
   * date, time and location cells are valid. The day is the trimmed text of
   * cell 0, the dates come from cell 1, the times from cell 2, the location
   * from cell 3, and the type is the text of cell 4 as it stands, where a
   * cell's text is its first link's text if it has a link. Fewer than five
   * cells with valid date, time and location cells is a structure mismatch.
   */
  lemma PeriodOfFields(row: Row)
    ensures PeriodOf(row).Ok? <==>
      |row| >= 5 && ParseDates(CellText(row[1])).Ok? && TimeRange(CellText(row[2])).Ok?
      && ParseLocation(CellText(row[3])).Ok?
    ensures PeriodOf(row).Ok? ==>
      var p := PeriodOf(row).value;
      && p.day == Trim(CellText(row[0]))
      && (p.startDate, p.endDate) == ParseDates(CellText(row[1])).value
      && (p.startTime, p.endTime) == TimeRange(CellText(row[2])).value
      && p.location == ParseLocation(CellText(row[3])).value
      && p.kind == (if |row[4].links| == 0 then row[4].text else row[4].links[0])
    ensures (|row| >= 4 && ParseDates(CellText(row[1])).Ok? && TimeRange(CellText(row[2])).Ok?
             && ParseLocation(CellText(row[3])).Ok? && |row| < 5) ==> PeriodOf(row) == Err(StructureMismatch)
  {
  }

  /** Cells after the fifth are ignored. */
  lemma PeriodIgnoresExtraCells(row: Row, extra: Row)
    requires |row| >= 5
    ensures PeriodOf(row + extra) == PeriodOf(row)
  {
    var texts, longer := CellTexts(row), CellTexts(row + extra);
    assert longer[0] == texts[0] && longer[1] == texts[1] && longer[2] == texts[2];
    assert longer[3] == texts[3] && longer[4] == texts[4];
  }

  // ---------------------------------------------------------------------
  // Groups
  // ---------------------------------------------------------------------

  /** `parse_group_id`: the second space-separated token of the first `h3`, trimmed. */
  function ParseGroupId(line: Line): Result<u32> {
    if |line.headings| == 0 then Err(StructureMismatch)
    else
      var tokens := Split(Trim(line.headings[0]), " ");
      if |tokens| < 2 then Err(StructureMismatch)
      else match ParseU32(tokens[1])
      case None => Err(MalformedNumericField)
      case Some(n) => Ok(n)
  }

  /** `parse_group_places`: the first space-separated token of the first `span`, trimmed. */
  function ParseGroupPlaces(line: Line): Result<u32> {
    if |line.spans| == 0 then Err(StructureMismatch)
    else match ParseU32(Split(Trim(line.spans[0]), " ")[0])
      case None => Err(MalformedNumericField)
      case Some(n) => Ok(n)
  }

  /** Text that may follow a number in a heading or a span: nothing, or a space and more words. */
  predicate WordsAfterNumber(tail: string) {
    tail == [] || (tail[0] == ' ' && !IsWhitespace(tail[|tail| - 1]))
  }

  /** A trimmed string followed by more words is still trimmed. */
  lemma TrimmedBeforeWords(x: string, tail: string)
    requires x != [] && IsTrimmed(x) && WordsAfterNumber(tail)
    ensures IsTrimmed(x + tail)
  {
    var y := x + tail;
    assert y[0] == x[0];
    assert y[|y| - 1] == if tail == [] then x[|x| - 1] else tail[|tail| - 1];
  }

  /** The space-separated tokens of "word n…": token 1 is the number. */
  lemma HeadingTokens(word: string, digits: string, tail: string)
    requires ' ' !in word && ' ' !in digits && WordsAfterNumber(tail)
    ensures var tokens := Split(word + " " + digits + tail, " ");
      |tokens| >= 2 && tokens[1] == digits
  {
    if tail == [] {
      assert word + " " + digits + tail == word + " " + digits;
      SplitPair(word, " ", digits);
    } else {
      assert word + " " + digits + tail == word + " " + digits + " " + tail[1..];
      SplitTwoHeads(word, " ", digits, tail[1..]);
    }
  }

  /** The space-separated tokens of "n…": token 0 is the number. */
  lemma SpanTokens(digits: string, tail: string)
    requires ' ' !in digits && WordsAfterNumber(tail)
    ensures Split(digits + tail, " ")[0] == digits
  {
    if tail == [] {
      assert digits + tail == digits;
      NoMatchWithoutFirstChar(digits, " ");
      SplitNoMatch(digits, " ");
    } else {
      assert digits + tail == digits + " " + tail[1..];
      SplitHead(digits, " ", tail[1..]);
    }
  }

  /**
   * A heading "word n", possibly followed by more words ("Groupe 10
   * (suite)"), with whitespace around it allowed, gives the group number
   * `n` back.
   */
  lemma ParseGroupIdOfHeading(line: Line, before: string, word: string, n: u32, tail: string, after: string)
    requires AllWhitespace(before) && AllWhitespace(after)
    requires word != [] && IsTrimmed(word) && ' ' !in word && WordsAfterNumber(tail)
    requires |line.headings| > 0 && line.headings[0] == before + word + " " + NatToDecimal(n) + tail + after
    ensures ParseGroupId(line) == Ok(n)
  {
    var digits := NatToDecimal(n);
    NonDigitAbsent(digits, ' ');
    TrimHeading(before, word, digits, tail, after);
    HeadingTokens(word, digits, tail);
    ParseGroupIdOfTokens(line, n);
  }

  /** Trimming a heading "word n…" with whitespace around it leaves the heading. */
  lemma TrimHeading(before: string, word: string, digits: string, tail: string, after: string)
    requires AllWhitespace(before) && AllWhitespace(after)
    requires word != [] && IsTrimmed(word) && digits != [] && AllDigits(digits) && WordsAfterNumber(tail)
    ensures Trim(before + word + " " + digits + tail + after) == word + " " + digits + tail
  {
    var head := word + " " + digits;
    assert IsTrimmed(head) by {
      assert head[0] == word[0] && head[|head| - 1] == digits[|digits| - 1];
      assert IsDigit(digits[|digits| - 1]);
    }
    TrimmedBeforeWords(head, tail);
    assert before + word + " " + digits + tail + after == before + (head + tail) + after;
    TrimAround(before, head + tail, after);
  }

  /** A first heading whose trimmed token 1 is the decimal form of `n` gives `n`. */
  lemma ParseGroupIdOfTokens(line: Line, n: u32)
    requires |line.headings| > 0
    requires var tokens := Split(Trim(line.headings[0]), " "); |tokens| >= 2 && tokens[1] == NatToDecimal(n)
    ensures ParseGroupId(line) == Ok(n)
  {
    ParseU32OfDecimal(n);
  }

  /**
   * A span "n", possibly followed by more words ("35 places
   * disponibles"), with whitespace around it allowed, gives the number of
   * places `n` back.
   */
  lemma ParseGroupPlacesOfSpan(line: Line, before: string, n: u32, tail: string, after: string)
    requires AllWhitespace(before) && AllWhitespace(after) && WordsAfterNumber(tail)
    requires |line.spans| > 0 && line.spans[0] == before + NatToDecimal(n) + tail + after
    ensures ParseGroupPlaces(line) == Ok(n)
  {
    var digits := NatToDecimal(n);
    var x := digits + tail;
    assert Trim(line.spans[0]) == x by {
      assert IsTrimmed(digits) by { assert IsDigit(digits[0]) && IsDigit(digits[|digits| - 1]); }
      TrimmedBeforeWords(digits, tail);
      assert line.spans[0] == before + x + after;
      TrimAround(before, x, after);
    }
    NonDigitAbsent(digits, ' ');
    SpanTokens(digits, tail);
    ParseU32OfDecimal(n);
  }

  /**
   * `parse_group_periods` with `periodOf` for `parse_period`: the first row
   * (the table header) is dropped and every other row gives a period, in
   * order; a table without rows is an error.
   */
  function PeriodsWith(line: Line, periodOf: Row -> Result<Period>): Result<seq<Period>> {
    if |line.rows| == 0 then Err(StructureMismatch) else Traverse(line.rows[1..], periodOf)
  }

  /**
   * `parse_group` with `periodOf` for `parse_period`: line 0 is not read;
   * the id comes from line 1, the places from line 2, the teachers from
   * line 3 and the periods from line 4, in that order.
   */
  function GroupWith(lines: GroupFragment, periodOf: Row -> Result<Period>): Result<Group> {
    if |lines| < 2 then Err(StructureMismatch)
    else match ParseGroupId(lines[1])
    case Err(e) => Err(e)
    case Ok(id) =>
      if |lines| < 3 then Err(StructureMismatch)
      else match ParseGroupPlaces(lines[2])
      case Err(e) => Err(e)
      case Ok(places) =>
        if |lines| < 5 then Err(StructureMismatch)
        else match PeriodsWith(lines[4], periodOf)
        case Err(e) => Err(e)
        case Ok(periods) => Ok(Group(id, places, lines[3].listItems, periods, None))
  }

  /** `parse_group`. */
  function GroupOf(lines: GroupFragment): Result<Group> {
    GroupWith(lines, PeriodOf)
  }

  /** `parse_groups`: every group of the page, in document order. */
  function GroupsOf(page: Page): Result<seq<Group>> {
    Traverse(page, GroupOf)
  }

  /**
   * The periods of a table are accepted exactly when it has a header row
   * and every other row gives a period; there is then one period per row
   * after the header, in order.
   */
  lemma PeriodsWithRows(line: Line, periodOf: Row -> Result<Period>)
    ensures PeriodsWith(line, periodOf).Ok? <==>
      |line.rows| >= 1 && forall i :: 1 <= i < |line.rows| ==> periodOf(line.rows[i]).Ok?
    ensures PeriodsWith(line, periodOf).Ok? ==>
      var periods := PeriodsWith(line, periodOf).value;
      |periods| == |line.rows| - 1
      && forall i :: 1 <= i < |line.rows| ==> periodOf(line.rows[i]) == Ok(periods[i - 1])
  {
    if |line.rows| >= 1 {
      var body := line.rows[1..];
      assert forall i :: 1 <= i < |line.rows| ==> body[i - 1] == line.rows[i];
    }
  }

  /**
   * A group is accepted exactly when it has at least five lines whose id,
   * places and periods are valid. Its id and places are those of lines 1
   * and 2, its teachers are the list items of line 3 in order with
   * duplicates kept, its periods are those of line 4, and it has no exams.
   */
  lemma GroupWithFields(lines: GroupFragment, periodOf: Row -> Result<Period>)
    ensures GroupWith(lines, periodOf).Ok? <==>
      |lines| >= 5 && ParseGroupId(lines[1]).Ok? && ParseGroupPlaces(lines[2]).Ok?
      && PeriodsWith(lines[4], periodOf).Ok?
    ensures GroupWith(lines, periodOf).Ok? ==>
      var g := GroupWith(lines, periodOf).value;
      && g.id == ParseGroupId(lines[1]).value
      && g.availablePlaces == ParseGroupPlaces(lines[2]).value
      && g.teachers == lines[3].listItems
      && g.periods == PeriodsWith(lines[4], periodOf).value
      && g.exams == None
  {
  }

  /** Line 0 of a group is never read. */
  lemma GroupIgnoresFirstLine(lines: GroupFragment, other: Line, periodOf: Row -> Result<Period>)
    requires |lines| >= 1
    ensures GroupWith([other] + lines[1..], periodOf) == GroupWith(lines, periodOf)
  {
    var changed := [other] + lines[1..];
    assert forall i :: 1 <= i < |lines| ==> changed[i] == lines[i];
  }

  /**
   * The groups of a page are accepted exactly when every group is; there is
   * then one group per `div.groupe`, in document order, and none for a page
   * without groups. Otherwise the first bad group decides the error.
   */
  lemma GroupsInDocumentOrder(page: Page)
    ensures page == [] ==> GroupsOf(page) == Ok([])
    ensures GroupsOf(page).Ok? <==> forall i :: 0 <= i < |page| ==> GroupOf(page[i]).Ok?
    ensures GroupsOf(page).Ok? ==>
      |GroupsOf(page).value| == |page|
      && forall i :: 0 <= i < |page| ==> GroupOf(page[i]) == Ok(GroupsOf(page).value[i])
    ensures forall k :: (0 <= k < |page| && GroupOf(page[k]).Err? && (forall j :: 0 <= j < k ==> GroupOf(page[j]).Ok?))
                         ==> GroupsOf(page) == Err(GroupOf(page[k]).error)
  {
    forall k | 0 <= k < |page| && GroupOf(page[k]).Err? && (forall j :: 0 <= j < k ==> GroupOf(page[j]).Ok?)
      ensures GroupsOf(page) == Err(GroupOf(page[k]).error)
    {
      TraverseFirstError(page, GroupOf, k);
    }
  }

  /** `parse_group_periods`: removes the header row, then parses the other rows one by one. */
  method ParseGroupPeriods(line: Line) returns (r: Result<seq<Period>>)
    ensures r == PeriodsWith(line, PeriodOf)
  {
    if |line.rows| == 0 {
      return Err(StructureMismatch);
    }
    var rows := line.rows[1..];
    var periods: seq<Period> := [];
    for i := 0 to |rows|
      invariant Traverse(rows[..i], PeriodOf) == Ok(periods)
    {
      var period := ParsePeriod(rows[i]);
      if period.Err? {
        TraverseStopsAtError(rows, PeriodOf, i);
        return Err(period.error);
      }
      TraverseSnoc(rows, PeriodOf, i);
      periods := periods + [period.value];
    }
    assert rows[..|rows|] == rows;
    r := Ok(periods);
  }

  /** `parse_group`: reads lines 1 to 4 in order. */
  method ParseGroup(lines: GroupFragment) returns (r: Result<Group>)
    ensures r == GroupOf(lines)
  {
    if |lines| < 2 {
      return Err(StructureMismatch);
    }
    var id := ParseGroupId(lines[1]);
    if id.Err? {
      return Err(id.error);
    }
    if |lines| < 3 {
      return Err(StructureMismatch);
    }
    var places := ParseGroupPlaces(lines[2]);
    if places.Err? {
      return Err(places.error);
    }
    if |lines| < 5 {
      return Err(StructureMismatch);
    }
    var teachers := lines[3].listItems;
    var periods := ParseGroupPeriods(lines[4]);
    if periods.Err? {
      return Err(periods.error);
    }
    r := Ok(Group(id.value, places.value, teachers, periods.value, None));
  }

  /** `parse_groups`: parses the groups one by one, in document order. */
  method ParseGroups(page: Page) returns (r: Result<seq<Group>>)
    ensures r == GroupsOf(page)
  {
    var groups: seq<Group> := [];
    for i := 0 to |page|
      invariant Traverse(page[..i], GroupOf) == Ok(groups)
    {
      var group := ParseGroup(page[i]);
      if group.Err? {
        TraverseStopsAtError(page, GroupOf, i);
        return Err(group.error);
      }
      TraverseSnoc(page, GroupOf, i);
      groups := groups + [group.value];
    }
    assert page[..|page|] == page;
    r := Ok(groups);
  }
}
