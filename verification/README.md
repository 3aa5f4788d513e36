# UQAM course-schedule scraper, modelled in Dafny

This project models the text-to-record logic of the UQAM course-schedule
scraper. The scraper takes the schedule page of a course offering and
produces one record per group. Each record holds:

- the group number;
- the number of available places;
- the teachers;
- the weekly periods. Each period has a day, start and end dates
  (rewritten from French, "5 septembre 2022", to ISO, "2022-09-05"), start
  and end times, an optional location (classroom and campus) and a type.

The repository holds two versions of the scraper, and both are modelled:

- the refined one (`uqam_scraper/src/main.rs`, module `Schedule`);
- the earlier draft (`scraper/src/main.rs`, module `DraftSchedule`). The
  draft does not rewrite dates, does not trim the day, and has its own rule
  for location cells. Lemmas relate the two versions cell by cell, period by
  period and group by group.

The address builder of a course offering (`uqam_scraper/src/course.rs`) is
module `Course`. The draft's `get_url` (`scraper/src/main.rs`, lines 12-18)
writes the same address, so `Course.GetUrl` models both.

Files:

- `wrappers.dfy` holds `Option`.
- `text.dfy` holds the parts of Rust's `str` and `u32` the scraper relies
  on: `split`, `trim`, `replace`, `u32::from_str`, `{}` and `{:0>2}`
  formatting.
- `markup.dfy` holds the shape of what the HTML selectors return. A page is
  its `div.groupe` fragments in document order. A group is its `div.ligne`
  lines. A line holds the inner HTML of its `h3`, `span` and `td>ul>li`
  elements and its table rows. A row is its `td` cells, and each cell keeps
  its own text and the texts of its links.
- `results.dfy` holds the errors. Every point where the Rust code panics
  (an `unwrap()` on nothing, an index past the end of a vector) returns an
  error instead. Where several panics are possible, the error returned is
  the one the Rust evaluation order reaches first.
- `course.dfy`, `schedule.dfy` and `draft_schedule.dfy` hold the three
  source files.

The loops that build vectors by pushing (`parse_groups`,
`parse_group_periods`, `parse_period`) are methods with loop invariants.
Each is proved equal to a function, and the lemmas state that function's
properties. The other operations are functions.

Behaviour of the code that the model keeps as written:

- **Location without `|`.** A non-empty location cell without `|` is an
  error in the refined `parse_location`, which indexes segment 1 at
  `uqam_scraper/src/main.rs` line 225. Only the draft gives a location with
  the campus alone.
- **Extra location segments.** The refined `parse_location` keeps the first
  two segments and ignores the rest. The draft gives no location.
- **Extra cells, dates and tokens.** The code reads the cells, date segments
  and date tokens it needs and accepts more. Cells after the fifth and date
  tokens after the third are ignored. In the refined `parse_dates`, every
  date segment after the second is still normalised and can fail.
- **One failing group ends the page.** Errors are not collected per group:
  the first group that fails ends the whole page.

## Model

| member | source | states |
|---|---|---|
| Course.Discriminant | uqam_scraper/src/course.rs:21-25 | A term's number is 1, 2 or 3 (Winter, Summer, Fall). |
| Course.DiscriminantDigit | uqam_scraper/src/course.rs:14 | `semester as u8` is written as one digit, and that digit reads back as the same term. |
| Course.GetUrl | uqam_scraper/src/course.rs:11-16 | The address starts with the fixed prefix, then the symbol verbatim, then "/". |
| Course.ParseUrlOfGetUrl | uqam_scraper/src/course.rs:11-16 | For a symbol without "/", the address determines the class: reading it back gives the symbol, year, term and program code. |
| Course.GetUrlInjective | uqam_scraper/src/course.rs:11-16 | Two classes with slash-free symbols and the same address are the same class. |
| Course.GetUrlExample | uqam_scraper/src/main.rs:58-64 | inf1070, 2022, Fall, 7316 gives ".../cours/inf1070/20223/7316". |
| Text.Trim | uqam_scraper/src/main.rs:108 | `str::trim`; its result is trimmed, and `TrimSlice` and `TrimAround` pin it down. |
| Text.Split | uqam_scraper/src/main.rs:109 | `str::split`; at least one piece, characterised by `SplitJoinsBack`, `SplitPiecesFree` and `SplitPieces`. |
| Text.TrimSlice | uqam_scraper/src/main.rs:108 | `trim` returns a slice of its input with only whitespace on either side of it. |
| Text.TrimAround | uqam_scraper/src/main.rs:108 | Trimming removes exactly the whitespace put around a trimmed string. |
| Text.SplitJoinsBack | uqam_scraper/src/main.rs:109 | Joining the pieces of `split` with the separator gives the input back. |
| Text.SplitPiecesFree | uqam_scraper/src/main.rs:109 | No piece of `split` contains the separator. |
| Text.SplitPieces | uqam_scraper/src/main.rs:214 | `split` gives two or more pieces exactly when the separator occurs. |
| Text.SplitJoin | uqam_scraper/src/main.rs:202 | Pieces whose characters never include the separator's first character split back to the same pieces. |
| Text.Replace | uqam_scraper/src/main.rs:194 | `str::replace`; characterised by `ReplacePieces`. |
| Text.ReplacePieces | uqam_scraper/src/main.rs:194 | `replace` cuts the text into pieces free of the pattern, joined by the pattern, and rejoins them with the replacement. |
| Text.ParseU32 | uqam_scraper/src/main.rs:111 | `u32::from_str`: an optional "+", then one or more digits whose value fits in 32 bits. `ParseU32OfDecimal` shows it reads back every `u32`. |
| Text.ParseU32OfDecimal | uqam_scraper/src/main.rs:111 | `parse::<u32>` reads back the decimal form of any `u32`. |
| Text.NatToDecimal | uqam_scraper/src/course.rs:13-14 | `{}` writes a non-empty digit string with no leading zero, denoting the number. |
| Text.PadLeft | uqam_scraper/src/main.rs:205 | `{:0>2}`; characterised by `PadLeftDecimal`. |
| Text.PadLeftDecimal | uqam_scraper/src/main.rs:205 | Padding a digit string with '0' keeps it a digit string denoting the same number. |
| Results.Traverse | uqam_scraper/src/main.rs:77-82 | A push loop that stops at the first failure: success exactly when every element succeeds, then one result per element in order, otherwise the error of the first element that fails. |
| Results.TraverseFirstError | uqam_scraper/src/main.rs:77-82 | The first failing element decides the error, whatever follows it. |
| Results.TraverseStopsAtError | uqam_scraper/src/main.rs:144-146 | A loop that succeeded on a prefix and fails on the next element returns that element's error. |
| Schedule.MonthNumber | uqam_scraper/src/main.rs:42-55 | A looked-up number is between 1 and 12 and is the month of that name. A name with no number is not the name of any month. |
| Schedule.MonthNamesDistinct | uqam_scraper/src/main.rs:42-55 | The twelve month names are pairwise different. |
| Schedule.MonthNameNumber | uqam_scraper/src/main.rs:42-55 | The table maps the name of month m back to m, for every month. |
| Schedule.MonthNameWithoutSpace | uqam_scraper/src/main.rs:42-55 | No month name holds a space. |
| Schedule.MonthField | uqam_scraper/src/main.rs:205-207 | `{:0>2}` of a month number has two digits and denotes that month. |
| Schedule.FormatDate | uqam_scraper/src/main.rs:201-210 | `format_date`; characterised by `FormatDateFailures`, `FormatDateIso` and `FormatDateOfFrenchDate`. |
| Schedule.DateOfTokens | uqam_scraper/src/main.rs:202-209 | `format_date` after the split into tokens; characterised by `FormatDateFailures` and `FormatDateOfTokens`. |
| Schedule.IsoDate | uqam_scraper/src/main.rs:204-209 | The `format!` of `format_date`; its shape is stated by `IsoDateShape`. |
| Schedule.FormatDateFailures | uqam_scraper/src/main.rs:202-207 | `format_date` fails exactly when there are fewer than three tokens (StructureMismatch) or the second token is not a month name (UnknownMonthName). |
| Schedule.IsoDateShape | uqam_scraper/src/main.rs:204-209 | The result is the year token, "-", two digits denoting the month, "-", and the day token padded with '0' to two characters. |
| Schedule.FormatDateIso | uqam_scraper/src/main.rs:201-210 | An accepted date has at least three tokens and a known month, and is the ISO date of tokens 2, 1 and 0. |
| Schedule.FormatDateOfTokens | uqam_scraper/src/main.rs:202 | A date written out from space-free tokens is read from exactly those tokens. |
| Schedule.FormatDateOfFrenchDate | uqam_scraper/src/main.rs:201-210 | A day, the name of month m and a year, followed by any tokens, become the ISO date of day, m and year. Tokens after the year are ignored. |
| Schedule.FormatDateExample | uqam_scraper/src/main.rs:201-210 | "5 septembre 2022" becomes "2022-09-05". |
| Schedule.StripRangeWords | uqam_scraper/src/main.rs:194 | A date segment trimmed, without "Du " and "au "; characterised by `StripDu` and `StripAu`. |
| Schedule.NormaliseDateSegment | uqam_scraper/src/main.rs:194-195 | One date segment in ISO form, via `StripRangeWords` and `FormatDate`. |
| Schedule.ParseDates | uqam_scraper/src/main.rs:191-199 | `parse_dates`; characterised by `ParseDatesSpec` and `ParseDatesOfRange`. |
| Schedule.ParseDatesSpec | uqam_scraper/src/main.rs:191-199 | The dates are accepted exactly when there are at least two `<br>` segments and every segment, extra ones included, normalises. They are then segments 0 and 1 normalised. The first failing segment decides the error, and one valid segment alone is a StructureMismatch. |
| Schedule.StripDu | uqam_scraper/src/main.rs:194 | "Du " before a plain date is removed. |
| Schedule.StripAu | uqam_scraper/src/main.rs:194 | "au " before a plain date is removed. |
| Schedule.ParseDatesOfRange | uqam_scraper/src/main.rs:191-199 | "Du start<br>au end" gives the two dates normalised, with the start date's error first. |
| Schedule.ParseLocation | uqam_scraper/src/main.rs:212-229 | `parse_location`; characterised by `ParseLocationCases`, `ParseLocationOf` and `ParseLocationExtraSegments`. |
| Schedule.ParseLocationCases | uqam_scraper/src/main.rs:212-229 | Empty text gives no location. Non-empty text without `\|` fails. Any other text gives a location whose campus is trimmed segment 1 and whose classroom is trimmed segment 0, absent exactly when that is empty. |
| Schedule.ParseLocationOf | uqam_scraper/src/main.rs:212-229 | "classroom \| campus" reads back its classroom (none when empty) and its campus. |
| Schedule.ParseLocationExtraSegments | uqam_scraper/src/main.rs:213-225 | Segments after the second do not change the location. |
| Schedule.TimeRange | uqam_scraper/src/main.rs:173-185 | The time cell split on `&nbsp;`, tokens 1 and 3 trimmed; characterised by `TimeRangeOfTokens`. |
| Schedule.TimeRangeOfTokens | uqam_scraper/src/main.rs:173-185 | A time cell of `&nbsp;`-joined tokens gives tokens 1 and 3, trimmed. Fewer than four tokens is a MalformedTimeField. |
| Schedule.PeriodFromTexts | uqam_scraper/src/main.rs:172-188 | The record exists exactly when there are at least five texts whose dates, times and location are valid. Its fields are then the trimmed day, the parsed dates, times and location, and text 4 verbatim. |
| Markup.CellText | uqam_scraper/src/main.rs:159-167 | A cell's text is its first link's inner HTML, or its own when it has no link; stated cell by cell in `PeriodOfFields`. |
| Markup.CellTexts | uqam_scraper/src/main.rs:156-170 | The text of every cell, in order; what the loop of `ParsePeriod` collects. |
| Schedule.PeriodOf | uqam_scraper/src/main.rs:151-189 | `parse_period`; computed by `ParsePeriod`, characterised by `PeriodOfFields` and `PeriodIgnoresExtraCells`. |
| Schedule.ParsePeriod | uqam_scraper/src/main.rs:151-170 | The cell-collecting loop (first link text, else own text) followed by the record assembly computes `PeriodOf`. |
| Schedule.PeriodOfFields | uqam_scraper/src/main.rs:151-189 | The same fields stated on the cells of the row, including the cell text rule. Four cells with valid date, time and location cells is a StructureMismatch. |
| Schedule.PeriodIgnoresExtraCells | uqam_scraper/src/main.rs:180-188 | Cells after the fifth do not change the period. |
| Schedule.ParseGroupId | uqam_scraper/src/main.rs:101-113 | `parse_group_id`: token 1 of the trimmed first heading as a `u32`; characterised by `ParseGroupIdOfHeading`. |
| Schedule.ParseGroupPlaces | uqam_scraper/src/main.rs:123-135 | `parse_group_places`: token 0 of the trimmed first span as a `u32`; characterised by `ParseGroupPlacesOfSpan`. |
| Schedule.ParseGroupIdOfHeading | uqam_scraper/src/main.rs:101-113 | A heading "word n", possibly followed by more words ("Groupe 10 (suite)") and with whitespace around it, gives the group number n. |
| Schedule.ParseGroupPlacesOfSpan | uqam_scraper/src/main.rs:123-135 | A span "n", alone or followed by more words, with whitespace around it, gives n places. |
| Schedule.PeriodsWith | uqam_scraper/src/main.rs:137-149 | `parse_group_periods` for a given `parse_period`; computed by `ParseGroupPeriods`, characterised by `PeriodsWithRows`. |
| Schedule.GroupWith | uqam_scraper/src/main.rs:87-99 | `parse_group` for a given `parse_period`; characterised by `GroupWithFields` and `GroupIgnoresFirstLine`. |
| Schedule.GroupOf | uqam_scraper/src/main.rs:92-98 | `parse_group` with the refined `parse_period`; computed by `ParseGroup`. |
| Schedule.GroupsOf | uqam_scraper/src/main.rs:72-85 | `parse_groups`; computed by `ParseGroups`, characterised by `GroupsInDocumentOrder`. |
| Schedule.PeriodsWithRows | uqam_scraper/src/main.rs:137-149 | The periods are accepted exactly when there is a header row and every other row gives a period. There is then one period per row after the header, in order. |
| Schedule.GroupWithFields | uqam_scraper/src/main.rs:87-99 | A group is accepted exactly when it has at least five lines with a valid id, places and periods. The id comes from line 1, the places from line 2, the teachers are line 3's list items in order with duplicates kept, the periods come from line 4, and there are no exams. |
| Schedule.GroupIgnoresFirstLine | uqam_scraper/src/main.rs:92-98 | Line 0 is never read. |
| Schedule.GroupsInDocumentOrder | uqam_scraper/src/main.rs:72-85 | A page with no groups gives none. Otherwise the result is one group per `div.groupe`, in order, exactly when every group parses; else the first bad group's error. |
| Schedule.ParseGroupPeriods | uqam_scraper/src/main.rs:137-149 | Dropping the header row and the push loop compute `PeriodsWith` (`PeriodOf`). |
| Schedule.ParseGroup | uqam_scraper/src/main.rs:87-99 | Reading lines 1 to 4 in order computes `GroupOf`. |
| Schedule.ParseGroups | uqam_scraper/src/main.rs:72-85 | The push loop over the groups computes `GroupsOf`. |
| DraftSchedule.ParseDates | scraper/src/main.rs:197-204 | The draft's `parse_dates`; characterised by `ParseDatesSegments` and `ParseDatesOfRange`. |
| DraftSchedule.ParseDatesSegments | scraper/src/main.rs:197-204 | The draft's dates are accepted exactly when the cell holds a `<br>`. They are then segments 0 and 1 trimmed, with the range words removed and no month lookup. |
| DraftSchedule.ParseDatesOfRange | scraper/src/main.rs:197-204 | "Du start<br>au end" gives (start, end) as written. |
| DraftSchedule.RefinedDatesNormaliseDraft | uqam_scraper/src/main.rs:191-199 | Where the refined dates are accepted, the draft's are too, and the refined dates are the draft's dates in ISO form. |
| DraftSchedule.ParseLocation | scraper/src/main.rs:206-227 | The draft's `parse_location`; characterised by `ParseLocationCases`, `ParseLocationOf` and `ParseLocationExtraSegments`. |
| DraftSchedule.ParseLocationCases | scraper/src/main.rs:206-227 | Empty text gives no location. Text without `\|` gives the campus alone. Two segments give Some(trimmed segment 0) and the campus. Three or more segments give no location. |
| DraftSchedule.ParseLocationOf | scraper/src/main.rs:219-223 | "classroom \| campus" reads back both, keeping the classroom even when it is empty. |
| DraftSchedule.ParseLocationExtraSegments | scraper/src/main.rs:224-226 | A third segment makes the whole cell no location. |
| DraftSchedule.LocationPoliciesCompared | scraper/src/main.rs:206-227 | The two location rules agree on empty text and on two segments with a non-empty classroom. They differ without `\|` (error vs campus alone), on an empty classroom (none vs Some("")) and on three or more segments (first two kept vs no location). |
| DraftSchedule.PeriodFromTexts | scraper/src/main.rs:180-194 | The draft's record assembly from the cell texts, failing in the order of its indexing; characterised by `PeriodOfFields`. |
| DraftSchedule.PeriodOf | scraper/src/main.rs:159-195 | The draft's `parse_period`; computed by `ParsePeriod`, characterised by `PeriodOfFields`. |
| DraftSchedule.ParsePeriod | scraper/src/main.rs:159-178 | The draft's cell-collecting loop followed by its record assembly computes its `PeriodOf`. |
| DraftSchedule.PeriodOfFields | scraper/src/main.rs:159-195 | A draft period exists exactly when there are at least five cells, the date cell holds a `<br>` and the time cell has four tokens. The day is cell 0 untrimmed, the type is cell 4 verbatim, and the location never fails. |
| DraftSchedule.RefinedPeriodRefinesDraft | scraper/src/main.rs:186-194 | Where the refined scraper reads a period, the draft reads one too, and the two agree (`PeriodRefines`). The refined day is the draft's day trimmed, the refined dates are the draft's in ISO form, and the times and type are equal. |
| DraftSchedule.GroupOf | scraper/src/main.rs:95-107 | The draft's `parse_group`; computed by `DraftSchedule.ParseGroup`, related to the refined one by `RefinedGroupRefinesDraft`. |
| DraftSchedule.GroupsOf | scraper/src/main.rs:80-93 | The draft's `parse_groups`; computed by `DraftSchedule.ParseGroups`. |
| DraftSchedule.RefinedGroupRefinesDraft | scraper/src/main.rs:95-107 | Where the refined scraper reads a group, the draft reads it too. The id, places, teachers and exams are the same, and the draft reads as many periods. Each is the draft's reading of the same row, and each refined period agrees with the draft's period at the same position as `RefinedPeriodRefinesDraft` states. |
| DraftSchedule.ParseGroupPeriods | scraper/src/main.rs:145-157 | Dropping the header row and the push loop compute `PeriodsWith` of the draft's `PeriodOf`. |
| DraftSchedule.ParseGroup | scraper/src/main.rs:95-107 | Reading lines 1 to 4 in order computes the draft's `GroupOf`. |
| DraftSchedule.ParseGroups | scraper/src/main.rs:80-93 | The push loop over the groups computes the draft's `GroupsOf`. |

## Left out

- HTML parsing and CSS selection (`Html::parse_document`, `Selector`, `select`, `inner_html`) belong to the `scraper` crate. Their output is taken as given: the nested sequences of `markup.dfy`, with `<br>` and `&nbsp;` as they appear in inner HTML. `parse_group_teachers` is a single selection, so it is the `listItems` of line 3.
- The network fetch (`reqwest`) and both `main` functions are I/O and printing. The `api` crate is an async handler returning a fixed body, with no logic of its own.
- Serialisation (serde, including the rename of `type_` to "type") is library behaviour. The field is called `kind` here.
- The perfect hashing of the month table is an implementation detail. The table is modelled as a lookup of the twelve names in order.
- Schedule.ParseGroupIdOfHeading and Schedule.ParseGroupPlacesOfSpan: the number is taken in the form `{}` writes. Other accepted spellings (a leading '+', leading zeros) are not restated in these lemmas. `ParseU32` itself accepts them as `u32::from_str` does.
- `get_url` takes `&self`. Here it is a function on a value, so the class cannot change.
- Splitting followed by `map` is lazy in Rust, but each such chain ends in `collect` (`uqam_scraper/src/main.rs` lines 176, 196 and 216), so every segment is mapped. Here every segment is mapped too, in order.
- Errors are not collected per group, because the code does not do so: the first group that fails ends the page, here as an `Err`.
