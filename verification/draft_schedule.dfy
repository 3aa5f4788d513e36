/**
 * The earlier draft of the scraper. It reads pages the same way as the
 * refined one, with three differences: its dates are only stripped of the
 * range words, not rewritten in ISO form; its location cell has its own
 * policy on the number of `|`-separated segments; and its day is not
 * trimmed. Everything it shares with the refined scraper (group ids,
 * places, the time cell, group assembly) is taken from `Schedule`.
 */
module DraftSchedule {
  import opened Wrappers
  import opened Text
  import opened Markup
  import opened Results
  import S = Schedule

  // ---------------------------------------------------------------------
  // Dates
  // ---------------------------------------------------------------------

  /** `parse_dates` of the draft: the first two `<br>`-separated segments, with the range words stripped. */
  function ParseDates(text: string): Result<(string, string)> {
    var segments := Split(text, "<br>");
    if |segments| < 2 then Err(StructureMismatch)
    else Ok((S.StripRangeWords(segments[0]), S.StripRangeWords(segments[1])))
  }

  /**
   * The draft's dates are accepted exactly when the text holds a `<br>`;
   * they are then the first two segments, trimmed and without range words.
   */
  lemma ParseDatesSegments(text: string)
    ensures ParseDates(text).Ok? <==> Contains(text, "<br>")
    ensures ParseDates(text).Err? ==> ParseDates(text) == Err(StructureMismatch)
    ensures ParseDates(text).Ok? ==>
      var segments := Split(text, "<br>");
      ParseDates(text).value == (S.StripRangeWords(segments[0]), S.StripRangeWords(segments[1]))
  {
    SplitPieces(text, "<br>");
  }

  /** The cell "Du <start><br>au <end>" gives the two dates as written, with no month lookup. */
  lemma ParseDatesOfRange(start: string, end: string)
    requires S.PlainDate(start) && S.PlainDate(end)
    ensures ParseDates("Du " + start + "<br>" + "au " + end) == Ok((start, end))
  {
    var first, second := "Du " + start, "au " + end;
    assert Split("Du " + start + "<br>" + "au " + end, "<br>") == [first, second] by {
      assert "Du " + start + "<br>" + "au " + end == first + "<br>" + second;
      SplitPair(first, "<br>", second);
    }
    S.StripDu(start);
    S.StripAu(end);
  }

  /**
   * Wherever the refined scraper accepts a date cell, the draft accepts it
   * too, and the refined dates are the draft's dates in ISO form.
   */
  lemma RefinedDatesNormaliseDraft(text: string)
    requires S.ParseDates(text).Ok?
    ensures ParseDates(text).Ok?
    ensures var draft := ParseDates(text).value;
      && S.FormatDate(draft.0).Ok? && S.FormatDate(draft.1).Ok?
      && S.ParseDates(text).value == (S.FormatDate(draft.0).value, S.FormatDate(draft.1).value)
  {
    S.ParseDatesSpec(text);
  }

  // ---------------------------------------------------------------------
  // Locations
  // ---------------------------------------------------------------------

  /**
   * `parse_location` of the draft: empty text is no location, one segment
   * is a campus alone, two segments are a classroom and a campus, and more
   * segments are no location.
   */
  function ParseLocation(text: string): Option<S.Location> {
    var parts := Split(text, "|");
    if text == [] then None
    else if |parts| == 1 then Some(S.Location(None, Trim(parts[0])))
    else if |parts| == 2 then Some(S.Location(Some(Trim(parts[0])), Trim(parts[1])))
    else None
  }

  /**
   * Empty text and text with three or more segments are no location; text
   * without `|` is a campus alone, the whole text trimmed; two segments are
   * a classroom, kept even when empty, and a campus.
   */
  lemma ParseLocationCases(text: string)
    ensures text == [] ==> ParseLocation(text) == None
    ensures text != [] && '|' !in text ==> ParseLocation(text) == Some(S.Location(None, Trim(text)))
    ensures var parts := Split(text, "|");
      && (text != [] && |parts| == 2 ==> ParseLocation(text) == Some(S.Location(Some(Trim(parts[0])), Trim(parts[1]))))
      && (|parts| > 2 ==> ParseLocation(text) == None)
  {
    if '|' !in text {
      NoMatchWithoutFirstChar(text, "|");
      SplitNoMatch(text, "|");
    }
  }

  /** The cell "classroom | campus" reads back both, the classroom even when it is empty. */
  lemma ParseLocationOf(classroom: string, campus: string)
    requires '|' !in classroom && '|' !in campus && IsTrimmed(classroom) && IsTrimmed(campus)
    ensures ParseLocation(classroom + " | " + campus) == Some(S.Location(Some(classroom), campus))
  {
    S.SplitLocationCell(classroom, campus);
    TrimSpaceAfter(classroom);
    TrimSpaceBefore(campus);
  }

  /** A third segment makes the whole cell no location. */
  lemma ParseLocationExtraSegments(first: string, second: string, rest: string)
    requires '|' !in first && '|' !in second
    ensures ParseLocation(first + "|" + second + "|" + rest) == None
  {
    SplitTwoHeads(first, "|", second, rest);
  }

  /**
   * How the two location policies compare on the same cell: they agree on
   * empty text and on two segments with a non-empty classroom; without a
   * `|` the refined scraper fails where the draft gives a campus alone; on
   * two segments with an empty classroom the refined scraper has no
   * classroom where the draft has an empty one; with three or more
   * segments the refined scraper keeps the first two where the draft gives
   * no location.
   */
  lemma LocationPoliciesCompared(text: string)
    ensures text == [] ==> S.ParseLocation(text) == Ok(ParseLocation(text))
    ensures text != [] && '|' !in text ==>
      S.ParseLocation(text) == Err(StructureMismatch) && ParseLocation(text).Some?
    ensures var parts := Split(text, "|");
      && (text != [] && |parts| == 2 && Trim(parts[0]) != [] ==> S.ParseLocation(text) == Ok(ParseLocation(text)))
      && (text != [] && |parts| == 2 && Trim(parts[0]) == [] ==>
            S.ParseLocation(text) == Ok(Some(S.Location(None, Trim(parts[1]))))
            && ParseLocation(text) == Some(S.Location(Some([]), Trim(parts[1]))))
      && (|parts| > 2 ==> S.ParseLocation(text).Ok? && S.ParseLocation(text).value.Some? && ParseLocation(text) == None)
  {
    S.ParseLocationCases(text);
    ParseLocationCases(text);
    if text == [] {
      assert Split(text, "|") == [[]] by {
        NoMatchWithoutFirstChar(text, "|");
        SplitNoMatch(text, "|");
      }
    }
  }

  // ---------------------------------------------------------------------
  // Periods
  // ---------------------------------------------------------------------

  /**
   * The record built from the cell texts of a period row by the draft,
   * failing where its `parse_period` panics and in the same order. The
   * location cell cannot fail here.
   */
  function PeriodFromTexts(texts: seq<string>): Result<S.Period> {
    if |texts| < 2 then Err(StructureMismatch)
    else match ParseDates(texts[1])
    case Err(e) => Err(e)
    case Ok(dates) =>
      if |texts| < 3 then Err(StructureMismatch)
      else match S.TimeRange(texts[2])
      case Err(e) => Err(e)
      case Ok(times) =>
        if |texts| < 5 then Err(StructureMismatch)
        else Ok(S.Period(texts[0], dates.0, dates.1, times.0, times.1, ParseLocation(texts[3]), texts[4]))
  }

  /** `parse_period` of the draft on a table row. */
  function PeriodOf(row: Row): Result<S.Period> {
    PeriodFromTexts(CellTexts(row))
  }

  /** `parse_period` of the draft: collects the text of every cell, then builds the record. */
  method ParsePeriod(row: Row) returns (r: Result<S.Period>)
    ensures r == PeriodOf(row)
  {
    var texts: seq<string> := [];
    for i := 0 to |row|
      invariant |texts| == i
      invariant forall j :: 0 <= j < i ==> texts[j] == CellText(row[j])
    {
      var links := row[i].links;
      var text := if |links| == 0 then row[i].text else links[0];
      texts := texts + [text];
    }
    assert texts == CellTexts(row);
    r := PeriodFromTexts(texts);
  }

  /**
   * A row gives a period of the draft exactly when it has at least five
   * cells, its date cell holds a `<br>` and its time cell has four tokens.
   * The day is the text of cell 0 as it stands, untrimmed, and the type the
   * text of cell 4, where a cell's text is its first link's text if it has
   * a link.
   */
  lemma PeriodOfFields(row: Row)
    ensures PeriodOf(row).Ok? <==>
      |row| >= 5 && Contains(CellText(row[1]), "<br>") && S.TimeRange(CellText(row[2])).Ok?
    ensures PeriodOf(row).Ok? ==>
      var p := PeriodOf(row).value;
      && p.day == (if |row[0].links| == 0 then row[0].text else row[0].links[0])
      && (p.startDate, p.endDate) == ParseDates(CellText(row[1])).value
      && (p.startTime, p.endTime) == S.TimeRange(CellText(row[2])).value
      && p.location == ParseLocation(CellText(row[3]))
      && p.kind == (if |row[4].links| == 0 then row[4].text else row[4].links[0])
  {
    if |row| >= 2 {
      ParseDatesSegments(CellText(row[1]));
    }
  }

  /**
   * How a period read by the refined scraper relates to the draft's reading
   * of the same row: the day is the draft's day trimmed, the dates are the
   * draft's in ISO form, and the times and the type are the same.
   */
  predicate PeriodRefines(refined: S.Period, draft: S.Period) {
    && refined.day == Trim(draft.day)
    && S.FormatDate(draft.startDate) == Ok(refined.startDate)
    && S.FormatDate(draft.endDate) == Ok(refined.endDate)
    && refined.startTime == draft.startTime && refined.endTime == draft.endTime
    && refined.kind == draft.kind
  }

  /** Wherever the refined scraper reads a period, the draft reads one too, and the two readings agree. */
  lemma RefinedPeriodRefinesDraft(row: Row)
    requires S.PeriodOf(row).Ok?
    ensures PeriodOf(row).Ok? && PeriodRefines(S.PeriodOf(row).value, PeriodOf(row).value)
  {
    var texts := CellTexts(row);
    var dates := S.ParseDates(texts[1]);
    var times := S.TimeRange(texts[2]);
    assert dates.Ok? && times.Ok? && |texts| >= 5;
    RefinedDatesNormaliseDraft(texts[1]);
    var draftDates := ParseDates(texts[1]).value;
    assert PeriodOf(row) == Ok(S.Period(texts[0], draftDates.0, draftDates.1, times.value.0, times.value.1,
                                        ParseLocation(texts[3]), texts[4]));
  }

  // ---------------------------------------------------------------------
  // Groups
  // ---------------------------------------------------------------------

  /** `parse_group` of the draft. */
  function GroupOf(lines: GroupFragment): Result<S.Group> {
    S.GroupWith(lines, PeriodOf)
  }

  /** `parse_groups` of the draft: every group of the page, in document order. */
  function GroupsOf(page: Page): Result<seq<S.Group>> {
    Traverse(page, GroupOf)
  }

  /**
   * Wherever the refined scraper reads a group, the draft reads it too,
   * with the same id, places, teachers and exams, and as many periods:
   * each the draft's reading of the same row, and each refined period
   * agreeing with the draft's period at the same position.
   */
  lemma RefinedGroupRefinesDraft(lines: GroupFragment)
    requires S.GroupOf(lines).Ok?
    ensures GroupOf(lines).Ok?
    ensures var refined, draft := S.GroupOf(lines).value, GroupOf(lines).value;
      && refined.id == draft.id && refined.availablePlaces == draft.availablePlaces
      && refined.teachers == draft.teachers && refined.exams == draft.exams
      && |refined.periods| == |draft.periods|
      && (forall i :: 1 <= i < |lines[4].rows| ==> PeriodOf(lines[4].rows[i]) == Ok(draft.periods[i - 1]))
      && (forall i :: 0 <= i < |refined.periods| ==> PeriodRefines(refined.periods[i], draft.periods[i]))
  {
    S.GroupWithFields(lines, S.PeriodOf);
    S.GroupWithFields(lines, PeriodOf);
    S.PeriodsWithRows(lines[4], S.PeriodOf);
    var rows := lines[4].rows;
    forall i | 1 <= i < |rows|
      ensures PeriodOf(rows[i]).Ok? && PeriodRefines(S.PeriodOf(rows[i]).value, PeriodOf(rows[i]).value)
    {
      RefinedPeriodRefinesDraft(rows[i]);
    }
    S.PeriodsWithRows(lines[4], PeriodOf);
    var refined, draft := S.GroupOf(lines).value, GroupOf(lines).value;
    forall i | 0 <= i < |refined.periods|
      ensures PeriodRefines(refined.periods[i], draft.periods[i])
    {
      assert S.PeriodOf(rows[i + 1]) == Ok(refined.periods[i]);
      assert PeriodOf(rows[i + 1]) == Ok(draft.periods[i]);
    }
  }

  /** `parse_group_periods` of the draft: removes the header row, then parses the other rows one by one. */
  method ParseGroupPeriods(line: Line) returns (r: Result<seq<S.Period>>)
    ensures r == S.PeriodsWith(line, PeriodOf)
  {
    if |line.rows| == 0 {
      return Err(StructureMismatch);
    }
    var rows := line.rows[1..];
    var periods: seq<S.Period> := [];
    for i := 0 to |rows|
      invariant Traverse(rows[..i], PeriodOf) == Ok(periods)
    {
      var period := ParsePeriod(rows[i]);
      if period.Err? {
        TraverseStopsAtError(rows, PeriodOf, i);
        return Err(period.error);
      }
      TraverseSnoc(rows, PeriodOf, i);
      periods := periods + [period.value];
    }
    assert rows[..|rows|] == rows;
    r := Ok(periods);
  }

  /** `parse_group` of the draft: reads lines 1 to 4 in order. */
  method ParseGroup(lines: GroupFragment) returns (r: Result<S.Group>)
    ensures r == GroupOf(lines)
  {
    if |lines| < 2 {
      return Err(StructureMismatch);
    }
    var id := S.ParseGroupId(lines[1]);
    if id.Err? {
      return Err(id.error);
    }
    if |lines| < 3 {
      return Err(StructureMismatch);
    }
    var places := S.ParseGroupPlaces(lines[2]);
    if places.Err? {
      return Err(places.error);
    }
    if |lines| < 5 {
      return Err(StructureMismatch);
    }
    var teachers := lines[3].listItems;
    var periods := ParseGroupPeriods(lines[4]);
    if periods.Err? {
      return Err(periods.error);
    }
    r := Ok(S.Group(id.value, places.value, teachers, periods.value, None));
  }

  /** `parse_groups` of the draft: parses the groups one by one, in document order. */
  method ParseGroups(page: Page) returns (r: Result<seq<S.Group>>)
    ensures r == GroupsOf(page)
  {
    var groups: seq<S.Group> := [];
    for i := 0 to |page|
      invariant Traverse(page[..i], GroupOf) == Ok(groups)
    {
      var group := ParseGroup(page[i]);
      if group.Err? {
        TraverseStopsAtError(page, GroupOf, i);
        return Err(group.error);
      }
      TraverseSnoc(page, GroupOf, i);
      groups := groups + [group.value];
    }
    assert page[..|page|] == page;
    r := Ok(groups);
  }
}
