/** The entity builder of src/parser.py: decode every line, then build one
    record per `INDI` or `FAM` line from the lines that follow it up to the
    next level-0 line. Python raises on the first line it cannot handle, and
    then nothing is returned; here that is a `Failure` naming the line. */
module Builder {
  import opened Wrappers
  import opened Text
  import opened Dates
  import opened GedLines
  import opened Entities

  /** Why parsing stops: a line that does not decode, an entity header without
      an xref (`re.search` on `None`) or without a digit in it, a missing
      argument (`IndexError`), a day or year `int()` refuses, a month name
      `strptime` refuses, or a day/month/year `datetime` refuses. */
  datatype ErrorKind =
    | BadLine(cause: DecodeError)
    | MissingId
    | IdWithoutNumber
    | MissingArgument
    | BadNumber
    | BadMonth
    | BadDate

  /** An error and the index of the line that raised it. */
  datatype ParseError = ParseError(line: nat, kind: ErrorKind)

  /** The date context a `BIRT`, `DEAT`, `MARR` or `DIV` line opens. */
  datatype Event = Birth | Death | Marriage | Divorce

  // ---------------------------------------------------------------------------
  // Pass 1: decode every line

  /** Every line decoded on its own. */
  function DecodeEach(lines: seq<string>): (rs: seq<Result<GedLine, DecodeError>>)
    ensures |rs| == |lines|
    ensures forall k :: 0 <= k < |lines| ==> rs[k] == Decode(lines[k])
  {
    seq(|lines|, k requires 0 <= k < |lines| => Decode(lines[k]))
  }

  /** Index of the first failed result at or after `i`, or `|rs|`. */
  function FirstFailure<T, E>(rs: seq<Result<T, E>>, i: nat): (f: nat)
    requires i <= |rs|
    ensures i <= f <= |rs|
    ensures forall k :: i <= k < f ==> rs[k].Success?
    ensures f < |rs| ==> rs[f].Failure?
    decreases |rs| - i
  {
    if i == |rs| || rs[i].Failure? then i else FirstFailure(rs, i + 1)
  }

  /** The values of results that all succeeded. */
  function Values<T, E>(rs: seq<Result<T, E>>): (vs: seq<T>)
    requires forall k :: 0 <= k < |rs| ==> rs[k].Success?
    ensures |vs| == |rs|
    ensures forall k :: 0 <= k < |rs| ==> rs[k] == Success(vs[k])
  {
    seq(|rs|, k requires 0 <= k < |rs| => rs[k].value)
  }

  /** Pass 1 of `parse_ged`: every line decoded, in order, or the error of
      the first line that does not decode. */
  function DecodeAll(lines: seq<string>): (r: Result<seq<GedLine>, ParseError>)
    ensures r.Success? ==> |r.value| == |lines|
    ensures r.Success? ==> forall k :: 0 <= k < |lines| ==> Decode(lines[k]) == Success(r.value[k])
    ensures r.Failure? ==> r.error.line < |lines| && Decode(lines[r.error.line]).Failure?
    ensures r.Failure? ==> r.error.kind == BadLine(Decode(lines[r.error.line]).error)
    ensures r.Failure? ==> forall k :: 0 <= k < r.error.line ==> Decode(lines[k]).Success?
  {
    var rs := DecodeEach(lines);
    var f := FirstFailure(rs, 0);
    if f < |rs| then Failure(ParseError(f, BadLine(rs[f].error)))
    else Success(Values(rs))
  }

  // ---------------------------------------------------------------------------
  // Dates: `DATE day MON year`

  /** The arguments of a line; a line that has none reads as an empty list. */
  function ArgsOf(l: GedLine): seq<string> {
    if l.args.Some? then l.args.value else []
  }

  /** `datetime(int(args[2]), strptime(args[1], '%b').month, int(args[0]))`,
      failing in the order Python evaluates the arguments: the year first, then
      the month, then the day, then the calendar check. */
  function ParseDate(args: seq<string>): (r: Result<Date, ErrorKind>)
    ensures r.Success? <==>
      && |args| >= 3
      && PyInt(args[2]).Some? && MonthNumber(args[1]).Some? && PyInt(args[0]).Some?
      && IsCalendarDate(Ymd(PyInt(args[2]).value, MonthNumber(args[1]).value, PyInt(args[0]).value))
    ensures r.Success? ==> r.value.year == PyInt(args[2]).value
    ensures r.Success? ==> AbbreviatesMonth(args[1], r.value.month)
    ensures r.Success? ==> r.value.day == PyInt(args[0]).value
    ensures r.Failure? && |args| >= 3 && PyInt(args[2]).None? ==> r.error == BadNumber
  {
    if |args| < 3 then Failure(MissingArgument)
    else DateOfFields(PyInt(args[2]), MonthNumber(args[1]), PyInt(args[0]))
  }

  /** The date of already converted year, month and day fields, failing at
      the first field that did not convert. */
  function DateOfFields(year: Option<int>, month: Option<int>, day: Option<int>): (r: Result<Date, ErrorKind>)
    ensures r.Success? <==>
      year.Some? && month.Some? && day.Some? && IsCalendarDate(Ymd(year.value, month.value, day.value))
    ensures r.Success? ==> r == Success(Ymd(year.value, month.value, day.value))
    ensures year.None? ==> r == Failure(BadNumber)
  {
    match year
    case None => Failure(BadNumber)
    case Some(y) =>
      match month
      case None => Failure(BadMonth)
      case Some(m) =>
        match day
        case None => Failure(BadNumber)
        case Some(d) =>
          var date := Ymd(y, m, d);
          if IsCalendarDate(date) then Success(date) else Failure(BadDate)
  }

  /** The arguments of a `DATE` line written the way GEDCOM files spell dates,
      `12 JAN 1990`. */
  function FormatDate(d: Date): seq<string> {
    [NatToString(d.day), MonthAbbreviations[d.month - 1], NatToString(d.year)]
  }

  /** Reading a date back from its GEDCOM spelling gives the same date. */
  lemma ParseFormatDate(d: Date)
    ensures ParseDate(FormatDate(d)) == Success(d)
  {
    var args := FormatDate(d);
    PyIntOfIntToString(d.day);
    PyIntOfIntToString(d.year);
    MonthNumberOfAbbreviation(d.month);
  }

  // ---------------------------------------------------------------------------
  // What a body line asks for

  /** The tags the record builders act on, as a line kind. */
  datatype LineKind =
    | NameLine | SexLine | FamcLine | FamsLine
    | HusbLine | WifeLine | ChilLine
    | EventLine(event: Event) | DateLine | OtherLine

  function EventTag(e: Event): string {
    match e
    case Birth => "BIRT"
    case Death => "DEAT"
    case Marriage => "MARR"
    case Divorce => "DIV"
  }

  /** The kind of a decoded line, read off its tag (see `KindOfTag`). */
  function KindOf(l: GedLine): LineKind
  {
    match l.tag
    case None => OtherLine
    case Some(t) =>
      if t == "NAME" then NameLine
      else if t == "SEX" then SexLine
      else if t == "FAMC" then FamcLine
      else if t == "FAMS" then FamsLine
      else if t == "HUSB" then HusbLine
      else if t == "WIFE" then WifeLine
      else if t == "CHIL" then ChilLine
      else if t == "BIRT" then EventLine(Birth)
      else if t == "DEAT" then EventLine(Death)
      else if t == "MARR" then EventLine(Marriage)
      else if t == "DIV" then EventLine(Divorce)
      else if t == "DATE" then DateLine
      else OtherLine
  }

  /** Each kind is exactly the lines with its tag; a line with any other tag,
      or none, is of no interest to the builders. */
  lemma KindOfTag(l: GedLine)
    ensures KindOf(l) == NameLine <==> l.tag == Some("NAME")
    ensures KindOf(l) == SexLine <==> l.tag == Some("SEX")
    ensures KindOf(l) == FamcLine <==> l.tag == Some("FAMC")
    ensures KindOf(l) == FamsLine <==> l.tag == Some("FAMS")
    ensures KindOf(l) == HusbLine <==> l.tag == Some("HUSB")
    ensures KindOf(l) == WifeLine <==> l.tag == Some("WIFE")
    ensures KindOf(l) == ChilLine <==> l.tag == Some("CHIL")
    ensures KindOf(l) == DateLine <==> l.tag == Some("DATE")
    ensures forall e :: KindOf(l) == EventLine(e) <==> l.tag == Some(EventTag(e))
    ensures KindOf(l) == OtherLine <==>
      l.tag.None? || l.tag.value !in {"NAME", "SEX", "FAMC", "FAMS", "HUSB", "WIFE", "CHIL", "BIRT", "DEAT", "MARR", "DIV", "DATE"}
  {
  }

  /** The first argument of a line, `args[0]`. */
  function FirstArg(l: GedLine): Option<string> {
    if |ArgsOf(l)| > 0 then Some(ArgsOf(l)[0]) else None
  }

  /** The date a `DATE` line spells, when it spells one. */
  function DateOf(l: GedLine): Option<Date> {
    match ParseDate(ArgsOf(l))
    case Success(d) => Some(d)
    case Failure(_) => None
  }

  // ---------------------------------------------------------------------------
  // The date context of a record body

  /** The context events an individual's body knows, and a family's. */
  const IndividualEvents: set<Event> := {Birth, Death}
  const FamilyEvents: set<Event> := {Marriage, Divorce}

  /** The event among `evs` that line `l` opens, if any. */
  function OpenedEvent(l: GedLine, evs: set<Event>): (r: Option<Event>)
    ensures r.Some? ==> r.value in evs && KindOf(l) == EventLine(r.value)
  {
    var k := KindOf(l);
    if k.EventLine? && k.event in evs then Some(k.event) else None
  }

  /** The date context after the first `n` lines, found by looking back for
      the last line that opens an event or is a `DATE`: an event line leaves
      its event pending, a `DATE` line leaves nothing pending. */
  function PendingAfter(lines: seq<GedLine>, n: nat, evs: set<Event>): (r: Option<Event>)
    requires n <= |lines|
    ensures r.Some? ==> r.value in evs
  {
    if n == 0 then None
    else if OpenedEvent(lines[n - 1], evs).Some? then OpenedEvent(lines[n - 1], evs)
    else if KindOf(lines[n - 1]) == DateLine then None
    else PendingAfter(lines, n - 1, evs)
  }

  /** Whether line `k` is a `DATE` line read while event `e` was pending. */
  predicate DateFor(lines: seq<GedLine>, k: nat, e: Event, evs: set<Event>)
    requires k < |lines|
  {
    KindOf(lines[k]) == DateLine && PendingAfter(lines, k, evs) == Some(e)
  }

  /** The position of the last `DATE` line among the first `n` that was read
      while event `e` was pending: the line whose date ends up in the field
      for `e`. */
  function LastDateFor(lines: seq<GedLine>, n: nat, e: Event, evs: set<Event>): (r: Option<nat>)
    requires n <= |lines|
    ensures r.Some? ==> r.value < n && DateFor(lines, r.value, e, evs)
    ensures r.Some? ==> forall k :: r.value < k < n ==> !DateFor(lines, k, e, evs)
    ensures r.None? ==> forall k :: 0 <= k < n ==> !DateFor(lines, k, e, evs)
  {
    if n == 0 then None
    else if DateFor(lines, n - 1, e, evs) then Some(n - 1)
    else LastDateFor(lines, n - 1, e, evs)
  }

  // ---------------------------------------------------------------------------
  // Record bodies

  /** Index of the first level-0 line at or after `i`, or the end: the lines
      `i` up to it are the body of the header before `i`. A negative level
      does not end a body. */
  function BodyEnd(g: seq<GedLine>, i: nat): (j: nat)
    requires i <= |g|
    ensures i <= j <= |g|
    ensures forall k :: i <= k < j ==> g[k].level != 0
    ensures j == |g| || g[j].level == 0
    decreases |g| - i
  {
    if i == |g| || g[i].level == 0 then i else BodyEnd(g, i + 1)
  }

  /** The body of the header at `h`. */
  function Body(g: seq<GedLine>, h: nat): (b: seq<GedLine>)
    requires h < |g|
    ensures h + 1 + |b| <= |g|
    ensures forall k :: 0 <= k < |b| ==> b[k].level != 0 && b[k] == g[h + 1 + k]
    ensures h + 1 + |b| == |g| || g[h + 1 + |b|].level == 0
  {
    g[h + 1..BodyEnd(g, h + 1)]
  }

  /** The kinds of line that read `args[0]`, for each record. */
  const IndividualArgKinds: set<LineKind> := {SexLine, FamcLine, FamsLine}
  const FamilyArgKinds: set<LineKind> := {HusbLine, WifeLine, ChilLine}

  /** Whether a body line is handled without raising, given the date context
      before it: lines that read `args[0]` need an argument, and a `DATE` line
      with a pending event needs a valid date. */
  predicate LineAccepted(l: GedLine, pending: Option<Event>, argKinds: set<LineKind>) {
    && (KindOf(l) in argKinds ==> FirstArg(l).Some?)
    && (KindOf(l) == DateLine && pending.Some? ==> DateOf(l).Some?)
  }

  /** Whether line `k` is accepted in the date context the lines before it leave. */
  predicate AcceptedAt(lines: seq<GedLine>, k: nat, evs: set<Event>, argKinds: set<LineKind>)
    requires k < |lines|
  {
    LineAccepted(lines[k], PendingAfter(lines, k, evs), argKinds)
  }

  /** Whether each of the first `n` lines is accepted. */
  predicate AllAccepted(lines: seq<GedLine>, n: nat, evs: set<Event>, argKinds: set<LineKind>)
    requires n <= |lines|
  {
    n == 0 || (AllAccepted(lines, n - 1, evs, argKinds) && AcceptedAt(lines, n - 1, evs, argKinds))
  }

  /** `AllAccepted` is the line-by-line condition. */
  lemma AllAcceptedEach(lines: seq<GedLine>, n: nat, evs: set<Event>, argKinds: set<LineKind>)
    requires n <= |lines|
    ensures AllAccepted(lines, n, evs, argKinds) <==> forall k :: 0 <= k < n ==> AcceptedAt(lines, k, evs, argKinds)
  {
    if AllAccepted(lines, n, evs, argKinds) {
      AllAcceptedEvery(lines, n, evs, argKinds);
    } else {
      AllAcceptedSome(lines, n, evs, argKinds);
    }
  }

  lemma {:induction false} AllAcceptedEvery(lines: seq<GedLine>, n: nat, evs: set<Event>, argKinds: set<LineKind>)
    requires n <= |lines| && AllAccepted(lines, n, evs, argKinds)
    ensures forall k :: 0 <= k < n ==> AcceptedAt(lines, k, evs, argKinds)
  {
    if n > 0 {
      AllAcceptedEvery(lines, n - 1, evs, argKinds);
    }
  }

  /** A line that is not accepted, when not all of them are. */
  lemma {:induction false} AllAcceptedSome(lines: seq<GedLine>, n: nat, evs: set<Event>, argKinds: set<LineKind>)
    requires n <= |lines| && !AllAccepted(lines, n, evs, argKinds)
    ensures exists k :: 0 <= k < n && !AcceptedAt(lines, k, evs, argKinds)
  {
    if AllAccepted(lines, n - 1, evs, argKinds) {
      assert !AcceptedAt(lines, n - 1, evs, argKinds);
    } else {
      AllAcceptedSome(lines, n - 1, evs, argKinds);
    }
  }

  /** The first argument of `l` when `l` is of kind `k` and has one. */
  function ArgIfKind(l: GedLine, k: LineKind): seq<string> {
    if KindOf(l) == k && FirstArg(l).Some? then [FirstArg(l).value] else []
  }

  /** The first arguments of the lines of kind `k` among the first `n`, in order. */
  function FirstArgs(lines: seq<GedLine>, n: nat, k: LineKind): (r: seq<string>)
    requires n <= |lines|
    ensures |r| <= n
  {
    if n == 0 then [] else FirstArgs(lines, n - 1, k) + ArgIfKind(lines[n - 1], k)
  }

  /** Position of the last line of kind `k` among the first `n`. */
  function LastOfKind(lines: seq<GedLine>, n: nat, k: LineKind): (r: Option<nat>)
    requires n <= |lines|
    ensures r.Some? ==> r.value < n && KindOf(lines[r.value]) == k
    ensures r.Some? ==> forall j :: r.value < j < n ==> KindOf(lines[j]) != k
    ensures r.None? ==> forall j :: 0 <= j < n ==> KindOf(lines[j]) != k
  {
    if n == 0 then None
    else if KindOf(lines[n - 1]) == k then Some(n - 1)
    else LastOfKind(lines, n - 1, k)
  }

  /** A pending context is always one of the record's own events. */
  predicate PendingIn(p: Option<Event>, evs: set<Event>) {
    p.None? || p.value in evs
  }

  // ---------------------------------------------------------------------------
  // parse_single_individual

  datatype IndividualState = IndividualState(ind: Individual, pending: Option<Event>)

  /** One pass of the loop body of `parse_single_individual`. */
  function IndividualStep(s: IndividualState, l: GedLine): (r: Result<IndividualState, ErrorKind>)
    ensures r.Success? ==> r.value.ind.uid == s.ind.uid && r.value.ind.intId == s.ind.intId
  {
    match KindOf(l)
    case NameLine => Success(s.(ind := s.ind.(name := l.args)))
    case SexLine =>
      if FirstArg(l).None? then Failure(MissingArgument)
      else Success(s.(ind := s.ind.(sex := FirstArg(l))))
    case EventLine(Birth) => Success(s.(pending := Some(Birth)))
    case EventLine(Death) => Success(s.(pending := Some(Death)))
    case FamcLine =>
      if FirstArg(l).None? then Failure(MissingArgument)
      else Success(s.(ind := s.ind.(famc := s.ind.famc + [FirstArg(l).value])))
    case FamsLine =>
      if FirstArg(l).None? then Failure(MissingArgument)
      else Success(s.(ind := s.ind.(fams := s.ind.fams + [FirstArg(l).value])))
    case DateLine =>
      if s.pending == Some(Birth) then
        var d :- ParseDate(ArgsOf(l));
        Success(IndividualState(s.ind.(birth := Some(d)), None))
      else if s.pending == Some(Death) then
        var d :- ParseDate(ArgsOf(l));
        Success(IndividualState(s.ind.(death := Some(d)), None))
      else Success(s)
    case _ => Success(s)
  }

  /** The loop of `parse_single_individual` over the first `n` lines of
      `body`, from state `s`; an error carries the position in `body` of the
      line that raised. */
  function BuildIndividual(s: IndividualState, body: seq<GedLine>, n: nat): (r: Result<IndividualState, ParseError>)
    requires n <= |body|
    ensures r.Failure? ==> r.error.line < n
  {
    if n == 0 then Success(s)
    else
      var prev :- BuildIndividual(s, body, n - 1);
      match IndividualStep(prev, body[n - 1])
      case Success(next) => Success(next)
      case Failure(e) => Failure(ParseError(n - 1, e))
  }

  // What one step does, in four small facts.

  /** A step raises exactly on a line that is not accepted in the current
      date context. */
  lemma IndividualStepAccepts(s: IndividualState, l: GedLine)
    requires PendingIn(s.pending, IndividualEvents)
    ensures IndividualStep(s, l).Success? <==> LineAccepted(l, s.pending, IndividualArgKinds)
  {
  }

  /** After a step, an opened event is pending, a `DATE` line clears the
      context, and any other line leaves it. */
  lemma IndividualStepPending(s: IndividualState, l: GedLine)
    requires PendingIn(s.pending, IndividualEvents)
    requires IndividualStep(s, l).Success?
    ensures IndividualStep(s, l).value.pending ==
      if OpenedEvent(l, IndividualEvents).Some? then OpenedEvent(l, IndividualEvents)
      else if KindOf(l) == DateLine then None
      else s.pending
  {
  }

  /** A step keeps the id and appends the family links its line names. */
  lemma IndividualStepLinks(s: IndividualState, l: GedLine)
    requires IndividualStep(s, l).Success?
    ensures var t := IndividualStep(s, l).value.ind;
      && t.uid == s.ind.uid && t.intId == s.ind.intId
      && t.famc == s.ind.famc + ArgIfKind(l, FamcLine)
      && t.fams == s.ind.fams + ArgIfKind(l, FamsLine)
  {
  }

  /** A step overwrites the name, the sex or a date only on its own line. */
  lemma IndividualStepFields(s: IndividualState, l: GedLine)
    requires IndividualStep(s, l).Success?
    ensures var t := IndividualStep(s, l).value.ind;
      && t.name == (if KindOf(l) == NameLine then l.args else s.ind.name)
      && t.sex == (if KindOf(l) == SexLine then FirstArg(l) else s.ind.sex)
      && t.birth == (if KindOf(l) == DateLine && s.pending == Some(Birth) then DateOf(l) else s.ind.birth)
      && t.death == (if KindOf(l) == DateLine && s.pending == Some(Death) then DateOf(l) else s.ind.death)
  {
  }

  // What the loop does: each field in terms of the lines that set it.

  /** The loop raises exactly when some line is not accepted in the date
      context the lines before it leave, and then at the first such line. */
  lemma IndividualAccepted(s: IndividualState, body: seq<GedLine>, n: nat)
    requires n <= |body| && s.pending.None?
    ensures BuildIndividual(s, body, n).Success? <==>
      forall k :: 0 <= k < n ==> AcceptedAt(body, k, IndividualEvents, IndividualArgKinds)
    ensures BuildIndividual(s, body, n).Failure? ==>
      var e := BuildIndividual(s, body, n).error.line;
      && !AcceptedAt(body, e, IndividualEvents, IndividualArgKinds)
      && forall k :: 0 <= k < e ==> AcceptedAt(body, k, IndividualEvents, IndividualArgKinds)
  {
    IndividualAcceptedAll(s, body, n);
    AllAcceptedEach(body, n, IndividualEvents, IndividualArgKinds);
    if BuildIndividual(s, body, n).Failure? {
      AllAcceptedEach(body, BuildIndividual(s, body, n).error.line, IndividualEvents, IndividualArgKinds);
    }
  }

  lemma {:induction false} IndividualAcceptedAll(s: IndividualState, body: seq<GedLine>, n: nat)
    requires n <= |body| && s.pending.None?
    ensures BuildIndividual(s, body, n).Success? <==> AllAccepted(body, n, IndividualEvents, IndividualArgKinds)
    ensures BuildIndividual(s, body, n).Failure? ==>
      var e := BuildIndividual(s, body, n).error.line;
      && !AcceptedAt(body, e, IndividualEvents, IndividualArgKinds)
      && AllAccepted(body, e, IndividualEvents, IndividualArgKinds)
  {
    if n > 0 {
      IndividualAcceptedAll(s, body, n - 1);
      if BuildIndividual(s, body, n - 1).Success? {
        IndividualPending(s, body, n - 1);
        IndividualAcceptedStep(s, body, n);
      }
    }
  }

  /** One more line: the loop goes on exactly when that line is accepted,
      and otherwise raises at it. */
  lemma IndividualAcceptedStep(s: IndividualState, body: seq<GedLine>, n: nat)
    requires 0 < n <= |body|
    requires BuildIndividual(s, body, n - 1).Success?
    requires BuildIndividual(s, body, n - 1).value.pending == PendingAfter(body, n - 1, IndividualEvents)
    ensures BuildIndividual(s, body, n).Success? <==> AcceptedAt(body, n - 1, IndividualEvents, IndividualArgKinds)
    ensures BuildIndividual(s, body, n).Failure? ==> BuildIndividual(s, body, n).error.line == n - 1
  {
    IndividualStepAccepts(BuildIndividual(s, body, n - 1).value, body[n - 1]);
  }

  /** The date context after the loop is the one the lines leave. */
  lemma {:induction false} IndividualPending(s: IndividualState, body: seq<GedLine>, n: nat)
    requires n <= |body| && s.pending.None?
    requires BuildIndividual(s, body, n).Success?
    ensures BuildIndividual(s, body, n).value.pending == PendingAfter(body, n, IndividualEvents)
  {
    if n > 0 {
      IndividualPending(s, body, n - 1);
      IndividualStepPending(BuildIndividual(s, body, n - 1).value, body[n - 1]);
    }
  }

  /** The id never changes, and `famc`/`fams` collect the first argument of
      every `FAMC`/`FAMS` line, in order and with repeats. */
  lemma {:induction false} IndividualLinks(s: IndividualState, body: seq<GedLine>, n: nat)
    requires n <= |body|
    requires BuildIndividual(s, body, n).Success?
    ensures var t := BuildIndividual(s, body, n).value.ind;
      && t.uid == s.ind.uid && t.intId == s.ind.intId
      && t.famc == s.ind.famc + FirstArgs(body, n, FamcLine)
      && t.fams == s.ind.fams + FirstArgs(body, n, FamsLine)
  {
    if n > 0 {
      IndividualLinks(s, body, n - 1);
      IndividualStepLinks(BuildIndividual(s, body, n - 1).value, body[n - 1]);
    }
  }

  /** The name is the arguments of the last `NAME` line and the sex the
      first argument of the last `SEX` line: later lines overwrite. */
  lemma {:induction false} IndividualNameSex(s: IndividualState, body: seq<GedLine>, n: nat)
    requires n <= |body|
    requires BuildIndividual(s, body, n).Success?
    ensures var t := BuildIndividual(s, body, n).value.ind;
      && t.name == (match LastOfKind(body, n, NameLine) case None => s.ind.name case Some(k) => body[k].args)
      && t.sex == (match LastOfKind(body, n, SexLine) case None => s.ind.sex case Some(k) => FirstArg(body[k]))
  {
    if n > 0 {
      IndividualNameSex(s, body, n - 1);
      IndividualStepFields(BuildIndividual(s, body, n - 1).value, body[n - 1]);
    }
  }

  /** Birth and death are the dates of the last `DATE` lines read while
      `BIRT` and `DEAT` were pending; a `DATE` line with nothing pending, or a
      second `DATE` after one event line, sets nothing. */
  lemma {:induction false} IndividualDates(s: IndividualState, body: seq<GedLine>, n: nat)
    requires n <= |body| && s.pending.None?
    requires BuildIndividual(s, body, n).Success?
    ensures var t := BuildIndividual(s, body, n).value.ind;
      && t.birth == (match LastDateFor(body, n, Birth, IndividualEvents) case None => s.ind.birth case Some(k) => DateOf(body[k]))
      && t.death == (match LastDateFor(body, n, Death, IndividualEvents) case None => s.ind.death case Some(k) => DateOf(body[k]))
  {
    if n > 0 {
      IndividualDates(s, body, n - 1);
      IndividualPending(s, body, n - 1);
      IndividualStepFields(BuildIndividual(s, body, n - 1).value, body[n - 1]);
    }
  }

  // ---------------------------------------------------------------------------
  // parse_single_family

  datatype FamilyState = FamilyState(fam: Family, pending: Option<Event>)

  /** One pass of the loop body of `parse_single_family`. */
  function FamilyStep(s: FamilyState, l: GedLine): (r: Result<FamilyState, ErrorKind>)
    ensures r.Success? ==> r.value.fam.uid == s.fam.uid && r.value.fam.intId == s.fam.intId
  {
    match KindOf(l)
    case EventLine(Marriage) => Success(s.(pending := Some(Marriage)))
    case EventLine(Divorce) => Success(s.(pending := Some(Divorce)))
    case HusbLine =>
      if FirstArg(l).None? then Failure(MissingArgument)
      else Success(s.(fam := s.fam.(husband := FirstArg(l))))
    case WifeLine =>
      if FirstArg(l).None? then Failure(MissingArgument)
      else Success(s.(fam := s.fam.(wife := FirstArg(l))))
    case ChilLine =>
      if FirstArg(l).None? then Failure(MissingArgument)
      else Success(s.(fam := s.fam.(children := s.fam.children + [FirstArg(l).value])))
    case DateLine =>
      if s.pending == Some(Marriage) then
        var d :- ParseDate(ArgsOf(l));
        Success(FamilyState(s.fam.(marriage := Some(d)), None))
      else if s.pending == Some(Divorce) then
        var d :- ParseDate(ArgsOf(l));
        Success(FamilyState(s.fam.(divorce := Some(d)), None))
      else Success(s)
    case _ => Success(s)
  }

  /** The loop of `parse_single_family` over the first `n` lines of `body`. */
  function BuildFamily(s: FamilyState, body: seq<GedLine>, n: nat): (r: Result<FamilyState, ParseError>)
    requires n <= |body|
    ensures r.Failure? ==> r.error.line < n
  {
    if n == 0 then Success(s)
    else
      var prev :- BuildFamily(s, body, n - 1);
      match FamilyStep(prev, body[n - 1])
      case Success(next) => Success(next)
      case Failure(e) => Failure(ParseError(n - 1, e))
  }

  /** A step raises exactly on a line that is not accepted in the current
      date context. */
  lemma FamilyStepAccepts(s: FamilyState, l: GedLine)
    requires PendingIn(s.pending, FamilyEvents)
    ensures FamilyStep(s, l).Success? <==> LineAccepted(l, s.pending, FamilyArgKinds)
  {
  }

  /** After a step, an opened event is pending, a `DATE` line clears the
      context, and any other line leaves it. */
  lemma FamilyStepPending(s: FamilyState, l: GedLine)
    requires PendingIn(s.pending, FamilyEvents)
    requires FamilyStep(s, l).Success?
    ensures FamilyStep(s, l).value.pending ==
      if OpenedEvent(l, FamilyEvents).Some? then OpenedEvent(l, FamilyEvents)
      else if KindOf(l) == DateLine then None
      else s.pending
  {
  }

  /** A step keeps the id, appends the child its line names and overwrites a
      spouse or a date only on its own line. */
  lemma FamilyStepFields(s: FamilyState, l: GedLine)
    requires FamilyStep(s, l).Success?
    ensures var t := FamilyStep(s, l).value.fam;
      && t.uid == s.fam.uid && t.intId == s.fam.intId
      && t.children == s.fam.children + ArgIfKind(l, ChilLine)
      && t.husband == (if KindOf(l) == HusbLine then FirstArg(l) else s.fam.husband)
      && t.wife == (if KindOf(l) == WifeLine then FirstArg(l) else s.fam.wife)
      && t.marriage == (if KindOf(l) == DateLine && s.pending == Some(Marriage) then DateOf(l) else s.fam.marriage)
      && t.divorce == (if KindOf(l) == DateLine && s.pending == Some(Divorce) then DateOf(l) else s.fam.divorce)
  {
  }

  /** The loop raises exactly when some line is not accepted in the date
      context the lines before it leave, and then at the first such line. */
  lemma FamilyAccepted(s: FamilyState, body: seq<GedLine>, n: nat)
    requires n <= |body| && s.pending.None?
    ensures BuildFamily(s, body, n).Success? <==>
      forall k :: 0 <= k < n ==> AcceptedAt(body, k, FamilyEvents, FamilyArgKinds)
    ensures BuildFamily(s, body, n).Failure? ==>
      var e := BuildFamily(s, body, n).error.line;
      && !AcceptedAt(body, e, FamilyEvents, FamilyArgKinds)
      && forall k :: 0 <= k < e ==> AcceptedAt(body, k, FamilyEvents, FamilyArgKinds)
  {
    FamilyAcceptedAll(s, body, n);
    AllAcceptedEach(body, n, FamilyEvents, FamilyArgKinds);
    if BuildFamily(s, body, n).Failure? {
      AllAcceptedEach(body, BuildFamily(s, body, n).error.line, FamilyEvents, FamilyArgKinds);
    }
  }

  lemma {:induction false} FamilyAcceptedAll(s: FamilyState, body: seq<GedLine>, n: nat)
    requires n <= |body| && s.pending.None?
    ensures BuildFamily(s, body, n).Success? <==> AllAccepted(body, n, FamilyEvents, FamilyArgKinds)
    ensures BuildFamily(s, body, n).Failure? ==>
      var e := BuildFamily(s, body, n).error.line;
      && !AcceptedAt(body, e, FamilyEvents, FamilyArgKinds)
      && AllAccepted(body, e, FamilyEvents, FamilyArgKinds)
  {
    if n > 0 {
      FamilyAcceptedAll(s, body, n - 1);
      if BuildFamily(s, body, n - 1).Success? {
        FamilyPending(s, body, n - 1);
        FamilyAcceptedStep(s, body, n);
      }
    }
  }

  /** One more line: the loop goes on exactly when that line is accepted,
      and otherwise raises at it. */
  lemma FamilyAcceptedStep(s: FamilyState, body: seq<GedLine>, n: nat)
    requires 0 < n <= |body|
    requires BuildFamily(s, body, n - 1).Success?
    requires BuildFamily(s, body, n - 1).value.pending == PendingAfter(body, n - 1, FamilyEvents)
    ensures BuildFamily(s, body, n).Success? <==> AcceptedAt(body, n - 1, FamilyEvents, FamilyArgKinds)
    ensures BuildFamily(s, body, n).Failure? ==> BuildFamily(s, body, n).error.line == n - 1
  {
  }

  /** The date context after the loop is the one the lines leave. */
  lemma {:induction false} FamilyPending(s: FamilyState, body: seq<GedLine>, n: nat)
    requires n <= |body| && s.pending.None?
    requires BuildFamily(s, body, n).Success?
    ensures BuildFamily(s, body, n).value.pending == PendingAfter(body, n, FamilyEvents)
  {
    if n > 0 {
      FamilyPending(s, body, n - 1);
      FamilyStepPending(BuildFamily(s, body, n - 1).value, body[n - 1]);
    }
  }

  /** The id never changes, and the children are the first arguments of the
      `CHIL` lines, in order and with repeats. */
  lemma {:induction false} FamilyChildren(s: FamilyState, body: seq<GedLine>, n: nat)
    requires n <= |body|
    requires BuildFamily(s, body, n).Success?
    ensures var t := BuildFamily(s, body, n).value.fam;
      && t.uid == s.fam.uid && t.intId == s.fam.intId
      && t.children == s.fam.children + FirstArgs(body, n, ChilLine)
  {
    if n > 0 {
      FamilyChildren(s, body, n - 1);
      FamilyStepFields(BuildFamily(s, body, n - 1).value, body[n - 1]);
    }
  }

  /** Husband and wife are the first arguments of the last `HUSB` and `WIFE`
      lines: later lines overwrite. */
  lemma {:induction false} FamilySpouses(s: FamilyState, body: seq<GedLine>, n: nat)
    requires n <= |body|
    requires BuildFamily(s, body, n).Success?
    ensures var t := BuildFamily(s, body, n).value.fam;
      && t.husband == (match LastOfKind(body, n, HusbLine) case None => s.fam.husband case Some(k) => FirstArg(body[k]))
      && t.wife == (match LastOfKind(body, n, WifeLine) case None => s.fam.wife case Some(k) => FirstArg(body[k]))
  {
    FamilyHusband(s, body, n);
    FamilyWife(s, body, n);
  }

  lemma {:induction false} FamilyHusband(s: FamilyState, body: seq<GedLine>, n: nat)
    requires n <= |body|
    requires BuildFamily(s, body, n).Success?
    ensures BuildFamily(s, body, n).value.fam.husband
      == match LastOfKind(body, n, HusbLine) case None => s.fam.husband case Some(k) => FirstArg(body[k])
  {
    if n > 0 {
      FamilyHusband(s, body, n - 1);
      FamilyStepFields(BuildFamily(s, body, n - 1).value, body[n - 1]);
    }
  }

  lemma {:induction false} FamilyWife(s: FamilyState, body: seq<GedLine>, n: nat)
    requires n <= |body|
    requires BuildFamily(s, body, n).Success?
    ensures BuildFamily(s, body, n).value.fam.wife
      == match LastOfKind(body, n, WifeLine) case None => s.fam.wife case Some(k) => FirstArg(body[k])
  {
    if n > 0 {
      FamilyWife(s, body, n - 1);
      FamilyStepFields(BuildFamily(s, body, n - 1).value, body[n - 1]);
    }
  }

  /** Marriage and divorce are the dates of the last `DATE` lines read while
      `MARR` and `DIV` were pending. */
  lemma {:induction false} FamilyDates(s: FamilyState, body: seq<GedLine>, n: nat)
    requires n <= |body| && s.pending.None?
    requires BuildFamily(s, body, n).Success?
    ensures var t := BuildFamily(s, body, n).value.fam;
      && t.marriage == (match LastDateFor(body, n, Marriage, FamilyEvents) case None => s.fam.marriage case Some(k) => DateOf(body[k]))
      && t.divorce == (match LastDateFor(body, n, Divorce, FamilyEvents) case None => s.fam.divorce case Some(k) => DateOf(body[k]))
  {
    if n > 0 {
      FamilyDates(s, body, n - 1);
      FamilyPending(s, body, n - 1);
      FamilyStepFields(BuildFamily(s, body, n - 1).value, body[n - 1]);
    }
  }
}
