/** One GEDCOM line decoded into level, tag, cross-reference id and arguments
    (`Gedline.__init__` and `check_if_valid` in models.py; ged_parser.py holds an
    identical copy). The decoder reads a restricted form of the `gedcom_line`
    grammar of chapter 1 of GEDCOM 5.5.1: `level [xref] tag [value]`. */
module GedLines {
  import opened Wrappers
  import opened Text

  /** The tag vocabulary the program recognises. */
  const ValidTags: seq<string> :=
    ["INDI", "NAME", "SEX", "BIRT", "DEAT", "FAMC", "FAMS", "FAM", "MARR", "HUSB",
     "WIFE", "CHIL", "DIV", "DATE", "HEAD", "TRLR", "NOTE"]

  predicate IsValidTag(t: string) {
    t in ValidTags
  }

  /** A decoded line. Absent parts are `None`, as the Python attributes stay `None`. */
  datatype GedLine = GedLine(level: int, tag: Option<string>, xref: Option<string>, args: Option<seq<string>>)

  /** Why decoding raised: `int()` refused the level (`ValueError`), or a token the
      chosen shape needs is missing (`IndexError`). */
  datatype DecodeError = LevelNotInteger | MissingToken

  /** `Gedline(line)`: the line cut at single spaces, read by `DecodeTokens`
      (its shapes are stated by `DecodeShape`). */
  function Decode(line: string): (r: Result<GedLine, DecodeError>)
    ensures r.Failure? && r.error == LevelNotInteger <==> PyInt(Split(line)[0]).None?
    ensures r.Success? ==> Some(r.value.level) == PyInt(Split(line)[0])
  {
    DecodeTokens(Split(line))
  }

  /** The first piece is the level. A positive level reads `level tag
      args...`; level 0 reads `0 TAG args...` when the second piece is a known
      tag (no arguments become `None`) and `0 xref tag ...` otherwise; a
      negative level leaves every other field `None`. */
  lemma DecodeShape(line: string)
    ensures var r := Decode(line);
      && (r.Failure? && r.error == LevelNotInteger <==> PyInt(Split(line)[0]).None?)
      && (r.Success? ==> Some(r.value.level) == PyInt(Split(line)[0]))
      && (r.Success? && r.value.level < 0 ==> r.value == GedLine(r.value.level, None, None, None))
      && (r.Success? && r.value.level >= 0 ==> r.value.tag.Some?)
      && (r.Success? && r.value.xref.Some? ==>
            r.value.level == 0 && !IsValidTag(r.value.xref.value) && r.value.args.None?)
      && (r.Success? && r.value.level > 0 ==> r.value.xref.None? && r.value.args.Some?)
      && (r.Success? && r.value.level == 0 && r.value.xref.None? ==>
            IsValidTag(r.value.tag.value) && (r.value.args.None? || |r.value.args.value| > 0))
  {
  }

  /** The decoder's choice of shape, on the pieces of the line. */
  function DecodeTokens(ts: seq<string>): (r: Result<GedLine, DecodeError>)
    requires |ts| >= 1
    ensures r.Success? && r.value.xref.Some? ==>
      && |ts| >= 3 && r.value.level == 0 && r.value.xref == Some(ts[1]) && !IsValidTag(ts[1])
      && r.value.tag == Some(ts[2]) && r.value.args.None?
    ensures r.Failure? && r.error == MissingToken ==> |ts| < 3
  {
    match PyInt(ts[0])
    case None => Failure(LevelNotInteger)
    case Some(level) =>
      if level > 0 then
        if |ts| < 2 then Failure(MissingToken)
        else Success(GedLine(level, Some(ts[1]), None, Some(ts[2..])))
      else if level == 0 then
        if |ts| < 2 then Failure(MissingToken)
        else if IsValidTag(ts[1]) then
          Success(GedLine(0, Some(ts[1]), None, if |ts| == 2 then None else Some(ts[2..])))
        else if |ts| < 3 then Failure(MissingToken)
        else Success(GedLine(0, Some(ts[2]), Some(ts[1]), None))
      else Success(GedLine(level, None, None, None))
  }

  /** `check_if_valid`: the decoded tag is one of the known tags. */
  predicate IsValid(l: GedLine) {
    l.tag.Some? && IsValidTag(l.tag.value)
  }

  // ---------------------------------------------------------------------------
  // Writing a line back

  predicate SpaceFree(ts: seq<string>) {
    forall k :: 0 <= k < |ts| ==> ' ' !in ts[k]
  }

  /** The decoded lines that some text line decodes to, in the shape that text has. */
  predicate Encodable(l: GedLine) {
    if l.level > 0 then
      l.tag.Some? && ' ' !in l.tag.value && l.xref.None? && l.args.Some? && SpaceFree(l.args.value)
    else if l.level == 0 then
      && l.tag.Some? && ' ' !in l.tag.value
      && if l.xref.Some? then ' ' !in l.xref.value && !IsValidTag(l.xref.value) && l.args.None?
         else IsValidTag(l.tag.value) && (l.args.None? || (|l.args.value| > 0 && SpaceFree(l.args.value)))
    else l.tag.None? && l.xref.None? && l.args.None?
  }

  /** The space-separated pieces of the text line for `l`. */
  function Tokens(l: GedLine): seq<string>
    requires Encodable(l)
  {
    [IntToString(l.level)] +
    if l.level > 0 then [l.tag.value] + l.args.value
    else if l.level == 0 then
      (if l.xref.Some? then [l.xref.value, l.tag.value]
       else [l.tag.value] + (if l.args.Some? then l.args.value else []))
    else []
  }

  /** The text line for `l`. */
  function Encode(l: GedLine): string
    requires Encodable(l)
  {
    Join(Tokens(l))
  }

  /** Decoding recovers every field of a line from its text. */
  lemma DecodeEncode(l: GedLine)
    requires Encodable(l)
    ensures Decode(Encode(l)) == Success(l)
  {
    var ts := Tokens(l);
    PyIntOfIntToString(l.level);
    assert SpaceFree(ts);
    SplitJoin(ts);
    assert Split(Encode(l)) == ts;
    if l.level > 0 {
      assert ts[2..] == l.args.value;
    } else if l.level == 0 && l.xref.None? && l.args.Some? {
      assert ts[2..] == l.args.value;
    }
  }

  /** Every successful decode is of an encodable shape, so with `DecodeEncode`,
      `Encodable` is exactly the range of the decoder. */
  lemma DecodedIsEncodable(line: string)
    requires Decode(line).Success?
    ensures Encodable(Decode(line).value)
  {
  }

  /** Only the value of the level matters, not its spelling: `00`, `+0` and `0`
      open the same kind of line. */
  lemma LevelSpellingIgnored(t: string, u: string, rest: seq<string>)
    requires ' ' !in t && ' ' !in u && SpaceFree(rest)
    requires PyInt(t) == PyInt(u)
    ensures Decode(Join([t] + rest)) == Decode(Join([u] + rest))
  {
    var a, b := [t] + rest, [u] + rest;
    assert SpaceFree(a);
    assert SpaceFree(b);
    SplitJoin(a);
    SplitJoin(b);
    DecodeTokensLevel(a, b);
  }

  /** Only the value of the first piece matters, not its spelling. */
  lemma DecodeTokensLevel(a: seq<string>, b: seq<string>)
    requires |a| == |b| >= 1 && a[1..] == b[1..]
    requires PyInt(a[0]) == PyInt(b[0])
    ensures DecodeTokens(a) == DecodeTokens(b)
  {
    if |a| >= 2 {
      assert a[1] == a[1..][0] == b[1];
      assert a[2..] == a[1..][1..] == b[2..];
    }
    if |a| >= 3 {
      assert a[2] == a[1..][1] == b[2];
    }
  }

  /** `0 <xref> <tag>` with an unknown second piece decodes as an entity header
      even when the tag is unknown, and such a line is then invalid. */
  lemma UnknownTagAfterXrefIsInvalid(x: string, t: string)
    requires ' ' !in x && ' ' !in t
    requires !IsValidTag(x) && !IsValidTag(t)
    ensures Decode("0 " + x + " " + t) == Success(GedLine(0, Some(t), Some(x), None))
    ensures !IsValid(GedLine(0, Some(t), Some(x), None))
  {
    var l := GedLine(0, Some(t), Some(x), None);
    assert IntToString(0) == "0";
    assert Tokens(l) == ["0", x, t];
    assert Join([x, t]) == x + " " + t;
    assert Join(["0", x, t]) == "0" + " " + Join([x, t]);
    assert Encode(l) == "0 " + x + " " + t;
    DecodeEncode(l);
  }
}
