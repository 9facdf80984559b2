# GEDCOM reader and validator, modelled in Dafny

This project models a small Python 2 GEDCOM tool. The tool reads a GEDCOM genealogy file line by
line, builds individual (`INDI`) and family (`FAM`) records, and checks them against a list of
user stories. Each story reports an ERROR or an ANOMALY.

The model covers the following parts of the tool:

- **Line decoding** (`GedLines`, on top of `Text`). This is the `Gedline` constructor of
  models.py and its copy in ged_parser.py.
  - A text line is split at single spaces.
  - Python's `int` reads the level.
  - The tag, the cross-reference id and the arguments are picked out according to the level
    and to whether the second piece is a known tag.
  - `check_if_valid` tests whether a tag is one of the 17 known tags.
- **The prototype classifier** of gardner_p02.py (`Prototype`). It prints the tag it recognises
  on a stripped line.
- **Records** (`Entities`). These are the `Individual` and `Family` constructors. The numeric id
  is the first run of digits in the xref.
- **Dates** (`Dates`). These are the proleptic Gregorian dates of Python's `datetime`.
  - `Ordinal` stands for `toordinal`.
  - `MonthNumber` is the `'%b'` month match of `strptime`.
- **Record building** (`Builder`, `Parser`). This is `parse_ged`, `parse_single_individual` and
  `parse_single_family` of src/parser.py.
  - Every line is decoded.
  - Every `INDI`/`FAM` header starts a record.
  - The body of a record runs up to the next level-0 line.
  - `BIRT`/`DEAT`/`MARR`/`DIV` set the context for the next `DATE` line.
  - Python errors become a `Failure` that names the line.
- **The legacy builder** of ged_parser.py (`Legacy`). It keeps one `famc`, `fams` and `child`
  id instead of a list. It is proved to agree with src/parser.py, with each list seen as its
  last element.
- **The validation rules** of src/user_stories.py (`DateRules`, `FamilyRules`, `Kinship`, with
  lookups in `Lookup`). These are US01–US12, US17 and US18.
  - Each rule returns its `return_flag` together with the reports it made, as an `Outcome`.
  - Each report is a `Finding`: its severity, its story and its location ids.
- **The validation run** (`Validation`). This is the call order of `validation`, in which
  `marriage_age` runs twice. `Findings` models the `error_locations`/`anomaly_locations`
  lists that `report_error` and `report_anomaly` fill.
- **The three fail-fast rules** of ged_parser.py (`LegacyRules`). They return `False` at the
  first problem.

## Modelling choices

- **Calls that raise.** A call that would make Python raise is handled in one of two ways:
  - In the parser, it becomes a `Failure` result, because it depends on the text being parsed.
  - In a rule, it becomes a precondition, named after what the rule needs. For example,
    `MarriedSpousesResolve` is needed because `None.birthdate` raises `AttributeError`, and
    `ChildBirthsComparable` because comparing a `datetime` with `None` raises `TypeError`.
- **Duplicate ids.** Lookups reproduce which duplicate the source finds:
  - a loop that overwrites a variable finds the last match (`Resolve`, `ResolveIsLast`);
  - `next(...)` finds the first match (`First`, `FirstIsFirst`), and so do the family lookups
    (`ParentFamilyIsFirst`, `FamilyAsHusbandIsFirst`, `ReturnChildrenWifeFallback`);
  - the loop of `marriage_age` stops once both spouses are found (`SpouseScan`,
    `MarriageAgeSpousesStop`).
- **Rule names.** Each story's rule has its own function, named after the Python function in
  CamelCase (`dates_before_current` is `DatesBeforeCurrent`). The story string (`"US01"`)
  becomes the enumeration `Story`.

## Model

| member | source | states |
|---|---|---|
| Text.Split | models.py:17 | `split(' ')` yields at least one piece and no piece holds a space |
| Text.JoinSplit | models.py:17 | joining the pieces with single spaces gives back the line, so splitting loses nothing |
| Text.SplitJoin | models.py:17 | splitting a space-joined list of space-free pieces gives back exactly those pieces, empty ones included |
| Text.Strip | gardner_p02.py:29 | the stripped line neither starts nor ends with whitespace |
| Text.StripKeepsMiddle | gardner_p02.py:29 | the stripped line is a contiguous part of the line, with only whitespace cut off on either side |
| Text.PyInt | models.py:18 | `int(...)` succeeds exactly when the text, stripped of whitespace, is an optional sign, any whitespace after the sign, and a run of decimal digits |
| Text.PyIntAfterSignAndSpace | models.py:18 | a sign, any whitespace and a run of digits read as the signed number, because Python 2's `int` skips whitespace after the sign (`int('-\t5') == -5`) |
| Text.PyIntOfIntToString | models.py:18 | reading the decimal spelling of any integer gives that integer back |
| Text.LeadingZeroIgnored | models.py:18 | a leading zero does not change the value of a digit run |
| Text.FirstNumber | models.py:55 | `re.search(r'\d+', uid)` finds nothing exactly when the id has no digit |
| Text.FirstNumberOfDecoratedNumber | models.py:55 | for an id like `@I12@`, the numeric id is the number between the digit-free prefix and the suffix |
| GedLines.Decode | models.py:17-18 | the level is the value `int` gives the first space-separated piece, and decoding fails on the level exactly when `int` rejects that piece |
| GedLines.DecodeTokens | models.py:20-37 | an xref is read only from a level-0 line of at least three pieces whose second piece is not a known tag, and then the tag is the third piece and there are no arguments; a missing piece fails only a line of fewer than three pieces |
| GedLines.DecodeShape | models.py:17-37 | decoding fails on the level exactly when `int` rejects the first piece; a positive level has a tag and arguments and no xref; a level-0 line is either a known tag (arguments dropped when empty) or an xref that is not a known tag followed by a tag |
| GedLines.DecodeEncode | models.py:17-37 | every line shape the decoder can produce is decoded back from its text form |
| GedLines.DecodedIsEncodable | models.py:17-37 | every successful decoding has an encodable shape, so with `DecodeEncode` the encodable shapes are exactly what the decoder produces |
| GedLines.LevelSpellingIgnored | models.py:18-27 | two spellings of the level that `int` reads as the same number (`0`, `00`, `+0`) decode the same |
| GedLines.UnknownTagAfterXrefIsInvalid | models.py:35-47 | `0 <xref> <tag>` with an unknown tag still decodes, and `check_if_valid` rejects it |
| Entities.NewIndividual | models.py:53-61 | an individual exists exactly when its id holds a digit; it starts with the first number of the id, no name, sex or dates, and empty link lists |
| Entities.NewFamily | models.py:67-74 | a family exists exactly when its id holds a digit; it starts with no dates or spouses and no children |
| Entities.NumericIdOfXref | models.py:55 | an xref of the form prefix, number, `@` gives that number as numeric id, for individuals and families |
| Dates.Ordinal | src/user_stories.py:136 | every date `datetime` can hold has a day number from 1 (0001-01-01) to 3652059 (9999-12-31) |
| Dates.OrdinalOrder | src/user_stories.py:136 | comparing day numbers orders dates exactly as comparing `datetime` values does, and equal day numbers mean equal dates |
| Dates.OrdinalOfNextDay | src/user_stories.py:224 | the next calendar day has the next day number, so adding `timedelta(days=n)` adds n |
| Dates.MonthNumber | src/parser.py:64 | a month name is matched case-insensitively against `JAN`..`DEC`, and fails exactly when it matches none |
| Dates.MonthNumberOfAbbreviation | src/parser.py:64 | each abbreviation, in upper or lower case, gives its own month number |
| Builder.DecodeAll | src/parser.py:19-21 | success gives one decoded line per text line; failure names the first line that does not decode, with that line's error |
| Builder.ParseDate | src/parser.py:62-65 | a `DATE` line's arguments give a date exactly when the year and day read as integers, the month name matches and the date exists; the date has that year, month and day |
| Builder.ParseFormatDate | src/parser.py:62-65 | reading a date back from its `D MON YYYY` spelling gives the same date |
| Builder.KindOfTag | src/parser.py:45-59 | each branch of the loop bodies is taken exactly for its own tag, and a line with any other tag, or none, is of a kind no branch handles |
| Builder.Body | src/parser.py:42-44 | the lines a record reads are exactly those after its header, up to but not including the next level-0 line |
| Builder.IndividualStep | src/parser.py:45-73 | a body line that is handled without error leaves the individual's id and numeric id as they were (when it raises is stated by `Builder.IndividualStepAccepts`) |
| Builder.BuildIndividual | src/parser.py:42-75 | the loop over an individual's body fails, if at all, at one of the lines it has read |
| Builder.IndividualStepAccepts | src/parser.py:45-75 | one line of an individual's body is handled without error exactly when a `SEX`/`FAMC`/`FAMS` line has an argument and a `DATE` line under a pending event spells a date |
| Builder.IndividualStepPending | src/parser.py:49-73 | `BIRT`/`DEAT` set the pending event, a `DATE` line clears it, and every other line leaves it |
| Builder.IndividualStepLinks | src/parser.py:53-56 | a `FAMC` or `FAMS` line appends its first argument to that list; the id does not change |
| Builder.IndividualStepFields | src/parser.py:45-73 | `NAME` sets the name to all arguments, `SEX` to the first, and a `DATE` line sets the birth or death that is pending |
| Builder.IndividualAcceptedAll | src/parser.py:42-75 | the body loop succeeds exactly when every line is accepted in the context the lines before it leave; a failure names the first line that is not |
| Builder.IndividualPending | src/parser.py:49-73 | after any number of lines, the pending event is the one the last event line opened, unless a `DATE` line came after it |
| Builder.IndividualLinks | src/parser.py:53-56 | `famc` and `fams` list the first arguments of all `FAMC` and `FAMS` lines, in order |
| Builder.IndividualNameSex | src/parser.py:45-48 | name and sex come from the last `NAME` and `SEX` lines |
| Builder.IndividualDates | src/parser.py:59-75 | birth and death come from the last `DATE` line read under `BIRT` and under `DEAT` |
| Builder.FamilyStep | src/parser.py:90-118 | a body line that is handled without error leaves the family's id and numeric id as they were (when it raises is stated by `Builder.FamilyStepAccepts`) |
| Builder.BuildFamily | src/parser.py:87-120 | the loop over a family's body fails, if at all, at one of the lines it has read |
| Builder.FamilyStepAccepts | src/parser.py:90-120 | one line of a family's body is handled without error exactly when a `HUSB`/`WIFE`/`CHIL` line has an argument and a pending `DATE` line spells a date |
| Builder.FamilyStepPending | src/parser.py:90-118 | `MARR`/`DIV` set the pending event, a `DATE` line clears it, and every other line leaves it |
| Builder.FamilyStepFields | src/parser.py:95-118 | `HUSB`/`WIFE` set a spouse, `CHIL` appends a child, and a `DATE` line sets the pending marriage or divorce |
| Builder.FamilyAcceptedAll | src/parser.py:87-120 | the body loop succeeds exactly when every line is accepted in its context; a failure names the first line that is not |
| Builder.FamilyPending | src/parser.py:90-118 | the pending event is the one the last event line opened, unless a `DATE` line came after it |
| Builder.FamilyChildren | src/parser.py:99-100 | `children` lists the first arguments of all `CHIL` lines, in order |
| Builder.FamilyHusband | src/parser.py:95-96 | the husband is the first argument of the last `HUSB` line |
| Builder.FamilyWife | src/parser.py:97-98 | the wife is the first argument of the last `WIFE` line |
| Builder.FamilyDates | src/parser.py:103-120 | marriage and divorce come from the last `DATE` line read under `MARR` and under `DIV` |
| Parser.ParseIndividual | src/parser.py:34-76 | a built individual carries the header's xref as id; a failure lies at the header or in its body |
| Parser.ParseFamily | src/parser.py:79-122 | a built family carries the header's xref as id; a failure lies at the header or in its body |
| Parser.ParseIndividualOutcome | src/parser.py:34-44 | an `INDI` record builds exactly when the header has an id with a digit and every body line is accepted; otherwise it fails at the header (missing id, id without digits) or at the first rejected body line |
| Parser.ParseFamilyOutcome | src/parser.py:79-89 | the same for a `FAM` record |
| Parser.ParseIndividualFields | src/parser.py:45-56 | a built individual's numeric id, links, name and sex are those its body lines give |
| Parser.ParseIndividualDates | src/parser.py:59-75 | a built individual's birth and death come from the last dated `BIRT` and `DEAT` context of its body |
| Parser.ParseFamilyFields | src/parser.py:95-100 | a built family's numeric id, children and spouses are those its body lines give |
| Parser.ParseFamilyDates | src/parser.py:103-120 | a built family's marriage and divorce come from the last dated `MARR` and `DIV` context of its body |
| Parser.EmptyBodyDefaults | src/parser.py:39-44 | a header followed directly by a level-0 line (or the end) gives a fresh record |
| Parser.EventContextOverwritten | src/parser.py:49-73 | in `BIRT`, `DEAT`, `DATE`, `DATE` the first date becomes the death, the second is ignored, and the birth stays unset |
| Parser.DateLineSetsDeath | src/parser.py:67-73 | a `DATE` line under `DEAT` sets the death and clears the context |
| Parser.DateLineUnpending | src/parser.py:57-73 | a `DATE` line read while no `BIRT` or `DEAT` is pending only reports `ERROR` and leaves the individual and its context as they were |
| Parser.ParseGed | src/parser.py:9-31 | a line that does not decode makes the whole parse fail at that line; any failure names a line of the file |
| Parser.ParseFrom | src/parser.py:24-29 | the header loop from a line on fails, if at all, at that line or a later one of the file |
| Parser.ParseFromSucceeds | src/parser.py:24-29 | parsing succeeds exactly when every `INDI` and `FAM` header builds; a failure is that of the first header that does not |
| Parser.ParseFromIndividuals | src/parser.py:24-27 | the individuals are those built at each `INDI` header, one per header, in file order |
| Parser.ParseFromFamilies | src/parser.py:28-29 | the families are those built at each `FAM` header, one per header, in file order |
| Prototype.Classify | gardner_p02.py:29-45 | a stripped line of fewer than two pieces is skipped; a reported tag is a known tag among the line's pieces after the first |
| Prototype.ClassifyTokens | gardner_p02.py:31-45 | a line of fewer than two pieces is skipped; a reported tag is a known tag after the first piece, and it is the second piece unless the first is exactly `0` |
| Prototype.ClassifyAgreesWithDecoder | gardner_p02.py:29-45 | on a stripped line that decodes, with a positive level or a level spelled `0`, the prototype prints the tag exactly when `check_if_valid` accepts the decoded line |
| Prototype.PaddedLevelZeroDisagrees | gardner_p02.py:35-41 | for `00 <xref> INDI`, with any xref that is not a known tag (such as `@I1@`), the decoder reads a valid `INDI` header but the prototype prints `Invalid tag` |
| Findings.Scan | src/user_stories.py:65-94 | a rule's flag stays `True` exactly when no record reported anything; the reports are those of all records |
| Findings.ScanSize | src/user_stories.py:65-94 | a rule makes exactly as many reports as its records called for together, so none is merged or dropped |
| Findings.ScanAppend | src/user_stories.py:221-238 | two loops in a row pass exactly when both pass, and report what either reports |
| Findings.Locations | src/user_stories.py:41-57 | every id on a location list was named by a report of that severity |
| Findings.LocationsAppend | src/user_stories.py:41-57 | the location list grows by each report's ids in report order |
| Findings.LocationsPartition | src/user_stories.py:41-57 | every id of every report lands in exactly one of the error and anomaly lists |
| Findings.LocationsMember | src/user_stories.py:46-56 | an id is in a location list exactly when some report of that severity names it |
| Findings.CollectLocations | src/user_stories.py:46-47 | the appending loop builds exactly the location list |
| Lookup.LastWithUid | src/user_stories.py:108-112 | the overwriting loop ends with the last record with the id, or with none when no record has it |
| Lookup.Resolve | src/user_stories.py:106-112 | the record found has the id and is one of the individuals; none is found exactly when no individual has the id |
| Lookup.ResolveIsLast | src/user_stories.py:106-112 | when several individuals share the id, the loop leaves behind the one at the last position that carries it |
| Lookup.First | src/user_stories.py:388 | `next(...)` finds a record with the id, and `None` exactly when no individual has it |
| Lookup.FirstIsFirst | src/user_stories.py:388 | when several individuals share the id, `next(...)` yields the one at the first position that carries it |
| Lookup.FirstLastAgree | src/user_stories.py:386-388 | the first and the last record with an id are the same exactly when the id is not shared |
| Lookup.SpouseScan | src/user_stories.py:343-353 | the scan of `marriage_age` only holds records with the husband's and the wife's ids |
| Lookup.SpouseScanStops | src/user_stories.py:346-353 | the scan stops at the first record by which both ids have been seen, holding the last match of each up to there |
| Lookup.SpouseScanUnique | src/user_stories.py:346-353 | with unshared ids the early exit finds the same spouses as a full loop |
| Lookup.FamilyWithHusband | src/user_stories.py:488 | the search finds the first family with that husband, or none exactly when there is none |
| Lookup.FamilyWithWife | src/user_stories.py:490 | the search finds the first family with that wife, or none exactly when there is none |
| Lookup.ReturnChildren | src/user_stories.py:485-495 | the result is `None` exactly when the id is nobody's spouse; otherwise it is the children of a family where the id is husband or wife |
| Lookup.ReturnChildrenWifeFallback | src/user_stories.py:488-490 | someone who is husband in no family gets the children of the first family that has them as wife |
| Lookup.ReturnChildrenPrefersHusband | src/user_stories.py:488-490 | when the id is a husband somewhere, the children of the first such family are returned, whatever families name it as wife |
| DateRules.US01Family | src/user_stories.py:68-79 | a family is reported when its marriage lies after today and again when its divorce does, naming the family and both spouses; the number of reports is the number of such dates |
| DateRules.US01Individual | src/user_stories.py:81-92 | an individual is reported when the birth lies after today and again when the death does; the number of reports is the number of such dates |
| DateRules.DatesBeforeCurrent | src/user_stories.py:62-94 | US01 passes exactly when no date lies after today, and reports exactly the families and individuals with a future date |
| DateRules.US02Family | src/user_stories.py:103-125 | a married family gets one report for each spouse born after the marriage, naming that spouse, and no other reports: the number of reports is the number of such spouses |
| DateRules.BirthBeforeMarriage | src/user_stories.py:97-127 | US02 passes exactly when no spouse was born after the marriage, and reports exactly those spouses |
| DateRules.US03Individual | src/user_stories.py:134-140 | an individual is reported exactly when the death comes before the birth |
| DateRules.BirthBeforeDeath | src/user_stories.py:129-141 | US03 passes exactly when nobody died before being born, and reports exactly those individuals |
| DateRules.US04Family | src/user_stories.py:149-156 | a family is reported exactly when the divorce comes before the marriage |
| DateRules.MarriageBeforeDivorce | src/user_stories.py:143-157 | US04 passes exactly when no family divorced before marrying, and reports exactly those families with both spouses |
| DateRules.US05Family | src/user_stories.py:165-184 | a married family gets one report for each spouse who died before the marriage, naming the family and that spouse, and no other reports: the number of reports is the number of such spouses |
| DateRules.MarriageBeforeDeath | src/user_stories.py:159-185 | US05 passes exactly when no spouse died before the marriage, and reports exactly those family/spouse pairs |
| DateRules.US06Family | src/user_stories.py:192-213 | a divorced family gets one report for each spouse who died before the divorce, naming the family and that spouse, and no other reports: the number of reports is the number of such spouses |
| DateRules.DivorceBeforeDeath | src/user_stories.py:187-214 | US06 passes exactly when no spouse died before the divorce, and reports exactly those family/spouse pairs |
| DateRules.US07Deceased | src/user_stories.py:222-228 | a dead individual is reported exactly when the death comes more than 54750 days after the birth, and then with the one error naming them |
| DateRules.US07Living | src/user_stories.py:231-237 | a living individual is reported exactly when 54750 days after the birth is today or earlier, and then with the one error naming them |
| DateRules.AgeLess150 | src/user_stories.py:217-238 | US07 passes exactly when nobody died or lives over 150 years old, and reports exactly those individuals |
| DateRules.Exactly150Years | src/user_stories.py:224-233 | dying on the 54750th day after birth is not reported, but being alive on that day is |
| FamilyRules.US08Pair | src/user_stories.py:258-272 | a child of a family (by its first `FAMC` id) is reported when born before the marriage, and again when born after a divorce; the number of reports is the number of these tests that hold |
| FamilyRules.US08Individual | src/user_stories.py:257-272 | an individual is reported for exactly the families that flag them |
| FamilyRules.BirthBeforeMarriageOfParents | src/user_stories.py:242-274 | US08 passes exactly when no child/family pair is flagged, and reports exactly the flagged pairs |
| FamilyRules.US08ReportsTwice | src/user_stories.py:260-272 | a child born both before the marriage and after the divorce is reported twice, which requires a divorce before the marriage |
| FamilyRules.ParentFamily | src/user_stories.py:297-302 | the parents' family is a family whose id is the child's first `FAMC` id, and none exactly when no family has that id |
| FamilyRules.ParentFamilyIsFirst | src/user_stories.py:297-302 | when several families carry that id, the loop breaks at the first of them |
| FamilyRules.Father | src/user_stories.py:297-310 | the father found is an individual with the husband id of the child's parent family; for an existing parent family, none is found only when no individual has that id, and the father is what the last-match loop finds for that id (by `Lookup.ResolveIsLast`, the last individual carrying it) |
| FamilyRules.Mother | src/user_stories.py:297-310 | the mother found is an individual with the wife id of the child's parent family; for an existing parent family, none is found only when no individual has that id, and the mother is what the last-match loop finds for that id (by `Lookup.ResolveIsLast`, the last individual carrying it) |
| FamilyRules.US09Individual | src/user_stories.py:289-328 | a child is reported when the father died more than 266 days before the birth, and again when the mother died before it; the number of reports is the number of these tests that hold |
| FamilyRules.BirthBeforeDeathOfParents | src/user_stories.py:277-329 | US09 passes exactly when no child is flagged, and reports exactly the flagged children with their family |
| FamilyRules.PosthumousChildNotReported | src/user_stories.py:312-320 | a child born within 266 days of the father's death, with a living mother, is not reported |
| FamilyRules.MarriageAgeSpouses | src/user_stories.py:343-353 | the spouses the early-exit loop holds are individuals with the husband's and wife's ids; a spouse is missing exactly when no individual has that id |
| FamilyRules.MarriageAgeSpousesStop | src/user_stories.py:343-353 | with both ids present, each spouse is the last individual with the id among those up to the position where the later of the two first appears; later duplicates are never read |
| FamilyRules.MinBirth | src/user_stories.py:339-341 | `datetime(year - 14, month, day)` exists exactly when the year 14 years back is at least 1 and the day is not 29 February of a non-leap year |
| FamilyRules.US10Family | src/user_stories.py:355-365 | a family gets one report for each spouse born after the same day 14 years ago, naming the family and that spouse, and no other reports: the number of reports is the number of such spouses |
| FamilyRules.MarriageAge | src/user_stories.py:331-366 | US10 passes exactly when no spouse is younger than 14 years today, and reports exactly those family/spouse pairs |
| FamilyRules.MarriageAgeSpousesUnique | src/user_stories.py:343-353 | with unshared spouse ids the early-exit loop finds the same spouses as every other rule |
| FamilyRules.US11Pair | src/user_stories.py:386-409 | a pair of families is reported on the husband's side and on the wife's side exactly when that side's remarriage test holds; the number of reports is the number of sides whose test holds |
| FamilyRules.US11Family | src/user_stories.py:381-409 | a family is reported against exactly the other families that flag it |
| FamilyRules.NoBigamy | src/user_stories.py:368-410 | US11 passes exactly when no ordered pair of distinct families is flagged, and reports exactly the flagged pairs |
| FamilyRules.RemarriageAfterDivorceReported | src/user_stories.py:386-392 | a husband who remarried after his divorce is reported |
| FamilyRules.MarriageBeforeDivorceNotReported | src/user_stories.py:386-392 | a husband who remarried before the divorce, with the first wife alive, is not reported |
| FamilyRules.US12Child | src/user_stories.py:435-452 | a child is reported when the mother is more than 21900 days older, and again when the father is more than 29200 days older; the number of reports is the number of these tests that hold |
| FamilyRules.US12Family | src/user_stories.py:428-452 | a family reports exactly what its children report |
| FamilyRules.ParentsNotTooOld | src/user_stories.py:413-454 | US12 passes exactly when no child has a parent too old, and reports exactly those parent/child pairs |
| Kinship.Expand | src/user_stories.py:463-469 | the growing descendant list only gets longer, its start unchanged |
| Kinship.Grow | src/user_stories.py:466-469 | one pass of the loop body keeps the list as its start and adds exactly the children `return_children` gives for the current entry |
| Kinship.Descendants | src/user_stories.py:463-469 | when the loop ends, the descendant list starts with the family's own children, in order |
| Kinship.ExpandFuel | src/user_stories.py:466-469 | once the descendant loop finishes, a larger bound gives the same list |
| Kinship.DescendantsLeast | src/user_stories.py:463-469 | the descendant list holds the family's children, is closed under `return_children`, and lies inside every such closed set |
| Kinship.US17Family | src/user_stories.py:471-481 | a family is reported exactly when its wife is among its descendants, and then twice with the same ids |
| Kinship.NoMarriageToDescendants | src/user_stories.py:457-483 | US17 passes exactly when no wife is among her family's descendants, and reports exactly those families |
| Kinship.NoMarriageToDescendantsFuel | src/user_stories.py:466-469 | the result of US17 does not depend on the loop bound, once it is large enough |
| Kinship.HusbandNotChecked | src/user_stories.py:471-481 | a husband among the family's descendants is not reported when the wife is not among them |
| Kinship.FamilyAsHusband | src/user_stories.py:507 | the family found has the sibling as husband, and none exactly when the sibling is nobody's husband |
| Kinship.FamilyAsHusbandIsFirst | src/user_stories.py:507 | when several families have the sibling as husband, `next(...)` yields the first of them |
| Kinship.US18Sibling | src/user_stories.py:506-513 | a child is reported exactly when the first family with them as husband has a wife among the same children, and then with the one anomaly naming the child and that wife |
| Kinship.US18Family | src/user_stories.py:503-513 | a family reports exactly the individuals who married a sibling |
| Kinship.NoSiblingMarriage | src/user_stories.py:497-515 | US18 passes exactly when nobody married a sibling that way, and reports exactly those pairs |
| Kinship.LaterSiblingMarriageMissed | src/user_stories.py:507-509 | a sibling marriage recorded after another marriage of the same husband is not reported |
| Legacy.NewLegacyIndividual | ged_parser.py:78-86 | a legacy individual exists exactly when a list-valued one does, and matches it with each list read as its last element |
| Legacy.NewLegacyFamily | ged_parser.py:92-99 | a legacy family exists exactly when a list-valued one does, and matches it with the child list read as its last element |
| Legacy.LegacyIndividualStep | ged_parser.py:243-273 | a legacy body line that is handled without error leaves the individual's id and numeric id as they were |
| Legacy.BuildLegacyIndividual | ged_parser.py:240-273 | the legacy loop over an individual's body fails, if at all, at one of the lines it has read |
| Legacy.LegacyIndividualStepAgrees | ged_parser.py:243-273 | one legacy body line fails exactly as src/parser.py fails, and otherwise keeps only the latest `FAMC`/`FAMS` id |
| Legacy.LegacyIndividualAgrees | ged_parser.py:240-273 | the whole legacy individual loop agrees with src/parser.py in the same way |
| Legacy.LegacyFamilyStep | ged_parser.py:289-319 | a legacy body line that is handled without error leaves the family's id and numeric id as they were |
| Legacy.BuildLegacyFamily | ged_parser.py:286-319 | the legacy loop over a family's body fails, if at all, at one of the lines it has read |
| Legacy.LegacyFamilyStepAgrees | ged_parser.py:289-319 | one legacy family line fails exactly as src/parser.py fails, and otherwise keeps only the latest `CHIL` id |
| Legacy.LegacyFamilyAgrees | ged_parser.py:286-319 | the whole legacy family loop agrees with src/parser.py in the same way |
| Legacy.ParseLegacyIndividual | ged_parser.py:232-275 | a built legacy individual carries the header's xref as id |
| Legacy.ParseLegacyFamily | ged_parser.py:278-321 | a built legacy family carries the header's xref as id |
| Legacy.ParseLegacyIndividualAgrees | ged_parser.py:232-275 | a legacy `INDI` record builds exactly when src/parser.py builds it, with the same error otherwise |
| Legacy.ParseLegacyFamilyAgrees | ged_parser.py:278-321 | a legacy `FAM` record builds exactly when src/parser.py builds it, with the same error otherwise |
| Legacy.LegacyParseFromAgrees | ged_parser.py:223-228 | the legacy header loop succeeds exactly when that of src/parser.py does, with the records projected |
| Legacy.LegacyParseGed | ged_parser.py:210-230 | a line that does not decode makes the whole legacy parse fail at that line |
| Legacy.LegacyParseGedAgrees | ged_parser.py:210-230 | the legacy `parse_ged` gives exactly the records of src/parser.py, with each link list read as its last element, or the same error |
| LegacyRules.LegacyBirthBeforeDeath | ged_parser.py:150-158 | returns `False` exactly when someone died before being born, the same verdict as US03 |
| LegacyRules.FindSpouses | ged_parser.py:166-172 | the spouse loop finds the last individual with each spouse id, as the other rules do |
| LegacyRules.LegacyMarriageBeforeDeath | ged_parser.py:160-181 | returns `False` exactly when a spouse died before the marriage, the same verdict as US05 wherever that is defined |
| LegacyRules.LegacyDivorceBeforeDeath | ged_parser.py:183-205 | returns `False` exactly when a spouse died before the divorce, the same verdict as US06 wherever that is defined |
| Validation.RunRules | src/user_stories.py:11-38 | each rule reports only under its own story and severity, and returns `False` exactly when it reported something |
| Validation.RulesTagged | src/user_stories.py:11-38 | the same, stated for the rules as `validation` calls them |
| Validation.Validate | src/user_stories.py:11-57 | every report of the run is under one of the fourteen stories, and it is an ERROR exactly when its story is one of US01–US07 and US09 |
| Validation.InCallOrder | src/user_stories.py:11-38 | the run reports, counted with repeats, exactly the findings of each rule once and those of `marriage_age` twice |
| Validation.MarriageAgeReportedTwice | src/user_stories.py:11-38 | every US10 report appears twice in the run, because `marriage_age` is called twice |
| Validation.CleanRun | src/user_stories.py:11-38 | the run reports nothing exactly when every rule returns `True` |
| Validation.RunLocations | src/user_stories.py:41-57 | an id is in the error (anomaly) locations exactly when some ERROR (ANOMALY) story reported it |

## Left out

- File reading, `rstrip`, printing and the description texts of the reports are left out. A
  report keeps its severity, its story and its location ids; the column widths of the printed
  line are not modelled.
- The `print "ERROR"` of a `DATE` line read with no event context is left out. The model's state
  is unchanged, as in the source.
- The `main` function of ged_parser.py is left out. It sorts the records by numeric id and
  prints tables, so the numeric id is used only for display.
- The unit tests, run.py and src/vis.py are left out.
- Clock reads are left out. `datetime.now()` and `datetime.today()` become a `today` date
  parameter, and the time of day is not modelled.
  - US01 compares a stored date, which is at midnight, with the current instant, so a date
    equal to today is not in the future.
  - US07 compares a birth date plus 54750 days with the current instant, so a result equal to
    today counts as past. The one instant of midnight itself is not modelled.
- DateRules.AgeLess150 requires every birth plus 54750 days to be a date that `datetime` can
  hold. Python raises `OverflowError` past year 9999.
- FamilyRules.MarriageAge requires the same day 14 years ago to exist. `datetime(...)` raises
  on 29 February of a non-leap year.
- Kinship.NoMarriageToDescendants takes a loop bound `fuel` and requires every descendant
  search to finish within it. In the source, a cycle of `CHIL` links makes the list grow
  forever. With a cycle, no bound makes the search finish, so the model does not say what the
  rule reports for such a family tree.
- Object identity (`fam_compare is family` in US11) is modelled as index inequality. The parser
  builds a fresh object for each header, so the two agree.
- On incomplete records the rules raise `TypeError` or `AttributeError` (a missing date
  compared, or a missing individual read). US11 also raises `StopIteration` when its `next(...)`
  without a default finds no spouse (src/user_stories.py:388 and 401). `OverflowError` comes
  from date arithmetic leaving the range of `datetime`: `birthdate - timedelta(days=266)` in
  US09 (src/user_stories.py:315) and `birthdate + timedelta(days=54750)` in US07
  (src/user_stories.py:224 and 233). No rule raises `IndexError`, because `famc[0]` is read only
  after the `len(individual.famc) > 0` test. Each crash becomes a named precondition and is not
  modelled as a crash: `FamilyRules.US11Defined` and `FamilyRules.MarriagesComparable` for US11,
  `FamilyRules.US09Defined` for US09, `DateRules.AgeLimitsRepresentable` for US07.
  `Validation.Checkable` gathers them.
- The documented behaviour differs from the code in these places, and the model follows the
  code:
  - A line that does not decode makes the whole parse fail. It is not skipped.
  - A rule that meets a missing date or an id with no individual raises. It does not treat the
    comparison as no violation. For example, US11 raises when the earlier family of a
    remarriage has no divorce date.
  - US09 does not report a father who died within 266 days of the birth; no anomaly is
    reported for that case.
  - A `DATE` line with no event context only prints `ERROR`.
- The three rules of ged_parser.py read only ids, dates and spouse pointers. Those fields are
  the same in both record shapes, so these rules are stated over the records of
  src/parser.py.
