/** The per-line tag report of the early prototype (gardner_p02.py), which reads
    the level as text: only the exact piece `0` counts as level zero, and lines
    with fewer than two pieces are skipped. */
module Prototype {
  import opened Wrappers
  import opened Text
  import opened GedLines

  /** What the prototype prints for one line as its verdict. */
  datatype Verdict = Skipped | Reported(tag: string) | InvalidTag

  /** The classification of gardner_p02.py for one line. It never reports an
      unknown tag, and it skips exactly the lines with fewer than two pieces. */
  function Classify(line: string): (r: Verdict)
    ensures r.Reported? ==> IsValidTag(r.tag)
    ensures r.Skipped? <==> |Split(Strip(line))| < 2
    ensures r.Reported? ==> r.tag in Split(Strip(line))[1..]
  {
    ClassifyTokens(Split(Strip(line)))
  }

  /** The classification on the pieces of the stripped line: the first piece is
      the level, and the tag is looked for after it. */
  function ClassifyTokens(ts: seq<string>): (r: Verdict)
    ensures r.Skipped? <==> |ts| < 2
    ensures r.Reported? ==> IsValidTag(r.tag) && r.tag in ts[1..]
    ensures r.Reported? && ts[0] != "0" ==> r.tag == ts[1]
  {
    if |ts| < 2 then Skipped
    else if ts[0] == "0" then
      if IsValidTag(ts[1]) then Reported(ts[1])
      else if |ts| > 2 && IsValidTag(ts[2]) then Reported(ts[2])
      else InvalidTag
    else if IsValidTag(ts[1]) then Reported(ts[1])
    else InvalidTag
  }

  /** On lines without surrounding whitespace whose level is written as the
      decoder's own canonical `0` or is positive, the prototype reports exactly
      the tag the decoder finds, and calls the line invalid exactly when
      `check_if_valid` does. */
  lemma ClassifyAgreesWithDecoder(line: string)
    requires Strip(line) == line
    requires Decode(line).Success?
    requires Decode(line).value.level > 0 || Split(line)[0] == "0"
    ensures var d := Decode(line).value;
      Classify(line) == (if IsValid(d) then Reported(d.tag.value) else InvalidTag)
  {
    TokensAgree(Split(line));
  }

  lemma TokensAgree(ts: seq<string>)
    requires |ts| >= 1
    requires DecodeTokens(ts).Success?
    requires DecodeTokens(ts).value.level > 0 || ts[0] == "0"
    ensures var d := DecodeTokens(ts).value;
      ClassifyTokens(ts) == (if IsValid(d) then Reported(d.tag.value) else InvalidTag)
  {
    if ts[0] == "0" {
      assert PyInt("0") == Some(0) by {
        StripNoOuterSpace("0");
        assert LiteralValue("0") == Some(0);
      }
    }
  }

  /** The two policies part ways on a zero-padded level: the decoder reads
      `00 @I1@ INDI` as the header of individual `@I1@`, while the prototype
      compares the level with `"0"` as text, takes `@I1@` for the tag and
      calls the line invalid. The same holds for any xref that is not a tag. */
  lemma PaddedLevelZeroDisagrees(x: string)
    requires ' ' !in x && !IsValidTag(x)
    ensures Decode("00 " + x + " INDI") == Success(GedLine(0, Some("INDI"), Some(x), None))
    ensures Classify("00 " + x + " INDI") == InvalidTag
  {
    var line := "00 " + x + " INDI";
    SplitPadded(x);
    assert Strip(line) == line by {
      assert line[0] == '0' && line[|line| - 1] == 'I';
      StripNoOuterSpace(line);
    }
    PaddedDecodes(line, x);
    PaddedClassifies(line, x);
  }

  lemma PaddedDecodes(line: string, x: string)
    requires Split(line) == ["00", x, "INDI"] && !IsValidTag(x)
    ensures Decode(line) == Success(GedLine(0, Some("INDI"), Some(x), None))
  {
    PyIntOfDoubleZero();
  }

  lemma PaddedClassifies(line: string, x: string)
    requires Strip(line) == line && Split(line) == ["00", x, "INDI"] && !IsValidTag(x)
    ensures Classify(line) == InvalidTag
  {
  }

  lemma PyIntOfDoubleZero()
    ensures PyInt("00") == Some(0)
  {
    StripNoOuterSpace("00");
    LeadingZeroIgnored("0");
    assert "0" + "0" == "00";
    assert DigitsValue("0") == 0 by { assert "0"[..0] == ""; }
  }

  lemma SplitPadded(x: string)
    requires ' ' !in x
    ensures Split("00 " + x + " INDI") == ["00", x, "INDI"]
  {
    var ts := ["00", x, "INDI"];
    assert Join(ts) == "00 " + x + " INDI" by {
      assert Join(ts[2..]) == "INDI";
      assert Join(ts[1..]) == x + " " + "INDI";
    }
    assert SpaceFree(ts);
    SplitJoin(ts);
  }
}
