/** The string operations of Python 2 that the parser relies on: `str.split(' ')`,
    `str.strip()`, `int(str)` and the `\d+` search that derives a numeric id. */
module Text {
  import opened Wrappers

  /** Python 2's whitespace for byte strings, as used by `str.strip()` and `int()`. */
  predicate IsSpaceChar(c: char) {
    c == ' ' || c == '\t' || c == '\n' || c == '\r' || c == 11 as char || c == 12 as char
  }

  predicate IsDigit(c: char) {
    '0' <= c <= '9'
  }

  predicate AllDigits(s: string) {
    forall k :: 0 <= k < |s| ==> IsDigit(s[k])
  }

  predicate NoDigits(s: string) {
    forall k :: 0 <= k < |s| ==> !IsDigit(s[k])
  }

  predicate AllSpace(s: string) {
    forall k :: 0 <= k < |s| ==> IsSpaceChar(s[k])
  }

  // ---------------------------------------------------------------------------
  // s.split(' ')

  /** Python's `s.split(' ')`: cut at every single space, keeping empty pieces. */
  function Split(s: string): (r: seq<string>)
    ensures |r| >= 1
    ensures forall k :: 0 <= k < |r| ==> ' ' !in r[k]
    decreases |s|
  {
    if |s| == 0 then [""]
    else
      var rest := Split(s[1..]);
      if s[0] == ' ' then [""] + rest
      else [[s[0]] + rest[0]] + rest[1..]
  }

  /** `' '.join(ts)`. */
  function Join(ts: seq<string>): string
    requires |ts| >= 1
    decreases |ts|
  {
    if |ts| == 1 then ts[0] else ts[0] + " " + Join(ts[1..])
  }

  lemma {:induction false} JoinConsHead(c: char, ts: seq<string>)
    requires |ts| >= 1
    ensures Join([[c] + ts[0]] + ts[1..]) == [c] + Join(ts)
  {
  }

  /** Splitting loses nothing: joining the pieces again gives back the line. */
  lemma {:induction false} JoinSplit(s: string)
    ensures Join(Split(s)) == s
    decreases |s|
  {
    if |s| == 0 {
    } else {
      var rest := Split(s[1..]);
      JoinSplit(s[1..]);
      if s[0] == ' ' {
        assert Split(s) == [""] + rest;
        assert ([""] + rest)[1..] == rest;
        assert s == [' '] + s[1..];
      } else {
        JoinConsHead(s[0], rest);
        assert s == [s[0]] + s[1..];
      }
    }
  }

  lemma {:induction false} SplitNoSpace(t: string)
    requires ' ' !in t
    ensures Split(t) == [t]
    decreases |t|
  {
    if |t| > 0 {
      assert ' ' !in t[1..] by {
        forall k | 0 <= k < |t[1..]| ensures t[1..][k] != ' ' {
          assert t[1..][k] == t[k + 1];
        }
      }
      SplitNoSpace(t[1..]);
      assert [t[0]] + t[1..] == t;
    }
  }

  lemma {:induction false} SplitAfterToken(t: string, s: string)
    requires ' ' !in t
    ensures Split(t + " " + s) == [t] + Split(s)
    decreases |t|
  {
    if |t| == 0 {
      assert t + " " + s == " " + s;
      assert (" " + s)[1..] == s;
    } else {
      var u := t + " " + s;
      assert u[0] == t[0];
      assert u[1..] == t[1..] + " " + s;
      assert ' ' !in t[1..] by {
        forall k | 0 <= k < |t[1..]| ensures t[1..][k] != ' ' {
          assert t[1..][k] == t[k + 1];
        }
      }
      SplitAfterToken(t[1..], s);
      assert [t[0]] + t[1..] == t;
    }
  }

  /** Joining space-free tokens and splitting again gives back the tokens. */
  lemma {:induction false} SplitJoin(ts: seq<string>)
    requires |ts| >= 1
    requires forall k :: 0 <= k < |ts| ==> ' ' !in ts[k]
    ensures Split(Join(ts)) == ts
    decreases |ts|
  {
    if |ts| == 1 {
      SplitNoSpace(ts[0]);
    } else {
      SplitJoin(ts[1..]);
      SplitAfterToken(ts[0], Join(ts[1..]));
      assert [ts[0]] + ts[1..] == ts;
    }
  }

  // ---------------------------------------------------------------------------
  // s.strip()

  /** Index of the first non-whitespace character at or after `i`, or `|s|`. */
  function SpaceEnd(s: string, i: nat): (e: nat)
    requires i <= |s|
    ensures i <= e <= |s|
    ensures forall k :: i <= k < e ==> IsSpaceChar(s[k])
    ensures e == |s| || !IsSpaceChar(s[e])
    decreases |s| - i
  {
    if i < |s| && IsSpaceChar(s[i]) then SpaceEnd(s, i + 1) else i
  }

  /** Index just after the last non-whitespace character before `j`, or 0. */
  function SpaceStart(s: string, j: nat): (b: nat)
    requires j <= |s|
    ensures b <= j
    ensures forall k :: b <= k < j ==> IsSpaceChar(s[k])
    ensures b == 0 || !IsSpaceChar(s[b - 1])
  {
    if j > 0 && IsSpaceChar(s[j - 1]) then SpaceStart(s, j - 1) else j
  }

  /** Python's `s.strip()`: `s` without its leading and trailing whitespace. */
  function Strip(s: string): (r: string)
    ensures |r| == 0 || (!IsSpaceChar(r[0]) && !IsSpaceChar(r[|r| - 1]))
  {
    var i := SpaceEnd(s, 0);
    var j := SpaceStart(s, |s|);
    if j <= i then "" else s[i..j]
  }

  /** Stripping removes nothing but whitespace, and only at the two ends. */
  lemma StripKeepsMiddle(s: string)
    ensures var r := Strip(s);
      exists i :: 0 <= i <= |s| - |r| && s[i..i + |r|] == r && AllSpace(s[..i]) && AllSpace(s[i + |r|..])
  {
    var i := SpaceEnd(s, 0);
    var j := SpaceStart(s, |s|);
    if j <= i {
      assert s[|s|..] == [];
      assert forall k :: 0 <= k < |s| ==> s[..|s|][k] == s[k];
      assert s[|s|..|s|] == Strip(s);
    } else {
      assert s[i..i + |Strip(s)|] == Strip(s);
      assert forall k :: 0 <= k < i ==> s[..i][k] == s[k];
      assert forall k :: 0 <= k < |s| - j ==> s[j..][k] == s[j + k];
    }
  }

  lemma StripNoOuterSpace(s: string)
    requires |s| == 0 || (!IsSpaceChar(s[0]) && !IsSpaceChar(s[|s| - 1]))
    ensures Strip(s) == s
  {
  }

  // ---------------------------------------------------------------------------
  // Decimal numbers

  function DigitValue(c: char): nat
    requires IsDigit(c)
  {
    (c as int) - ('0' as int)
  }

  function DigitChar(d: nat): (c: char)
    requires d < 10
    ensures IsDigit(c) && DigitValue(c) == d
  {
    ('0' as int + d) as char
  }

  /** The value of a string of decimal digits, most significant first. */
  function DigitsValue(s: string): nat
    requires AllDigits(s)
    decreases |s|
  {
    if |s| == 0 then 0 else DigitsValue(s[..|s| - 1]) * 10 + DigitValue(s[|s| - 1])
  }

  /** Decimal notation of `n` without leading zeros; reading it back gives `n`. */
  function NatToString(n: nat): (s: string)
    ensures |s| >= 1 && AllDigits(s)
    ensures s[0] != '0' || n == 0
    ensures DigitsValue(s) == n
    decreases n
  {
    if n < 10 then [DigitChar(n)]
    else
      var p := NatToString(n / 10);
      var s := p + [DigitChar(n % 10)];
      assert s[..|s| - 1] == p;
      s
  }

  /** A leading zero does not change the value of a digit string, which is why
      `int('007') == 7`. */
  lemma {:induction false} LeadingZeroIgnored(s: string)
    requires AllDigits(s)
    ensures AllDigits("0" + s) && DigitsValue("0" + s) == DigitsValue(s)
    decreases |s|
  {
    var t := "0" + s;
    assert forall k :: 0 <= k < |t| ==> IsDigit(t[k]);
    if |s| > 0 {
      assert t[..|t| - 1] == "0" + s[..|s| - 1];
      LeadingZeroIgnored(s[..|s| - 1]);
    }
  }

  /** Python's `str(i)` for an integer. */
  function IntToString(i: int): string
  {
    if i < 0 then "-" + NatToString(-i) else NatToString(i)
  }

  /** Where the digits of a stripped integer literal begin: after an optional sign
      and the whitespace Python 2 skips after the sign. */
  function DigitsStart(t: string): (i: nat)
    requires |t| >= 1
    ensures i <= |t|
  {
    if t[0] == '+' || t[0] == '-' then SpaceEnd(t, 1) else 0
  }

  /** The shape Python 2's `int()` accepts once whitespace is stripped: an optional
      sign, any whitespace after it, then at least one decimal digit and nothing else. */
  predicate IsIntegerLiteral(t: string) {
    && |t| >= 1
    && DigitsStart(t) < |t|
    && AllDigits(t[DigitsStart(t)..])
  }

  /** The value of an integer literal (see `IsIntegerLiteral`), `None` for anything else. */
  function LiteralValue(t: string): (r: Option<int>)
    ensures r.Some? <==> IsIntegerLiteral(t)
  {
    if !IsIntegerLiteral(t) then None
    else
      var n := DigitsValue(t[DigitsStart(t)..]);
      Some(if t[0] == '-' then -(n as int) else n)
  }

  /** Python 2's `int(s)` on a byte string: `None` where Python raises `ValueError`. */
  function PyInt(s: string): (r: Option<int>)
    ensures r.Some? <==> IsIntegerLiteral(Strip(s))
  {
    LiteralValue(Strip(s))
  }

  lemma NatToStringHasNoSpace(n: nat)
    ensures ' ' !in NatToString(n)
    ensures !IsSpaceChar(NatToString(n)[0]) && !IsSpaceChar(NatToString(n)[|NatToString(n)| - 1])
  {
  }

  lemma DigitsValueAfterSign(c: char, n: nat)
    ensures ([c] + NatToString(n))[1..] == NatToString(n)
  {
  }

  lemma LiteralOfNatString(n: nat)
    ensures LiteralValue(NatToString(n)) == Some(n)
  {
  }

  /** `SpaceEnd` from `i` stops at `e` when only whitespace lies between and `e` is not. */
  lemma SpaceEndAt(s: string, i: nat, e: nat)
    requires i <= e < |s|
    requires forall k :: i <= k < e ==> IsSpaceChar(s[k])
    requires !IsSpaceChar(s[e])
    ensures SpaceEnd(s, i) == e
    decreases e - i
  {
  }

  /** A sign, any whitespace and a digit string: Python 2 skips the whitespace
      after the sign, so `int('-\t5') == -5`. */
  lemma {:induction false} LiteralAfterSignAndSpace(c: char, w: string, n: nat)
    requires c == '+' || c == '-'
    requires AllSpace(w)
    ensures LiteralValue([c] + w + NatToString(n)) == Some(if c == '-' then -(n as int) else n)
  {
    var d := NatToString(n);
    var s := [c] + w + d;
    assert forall k :: 1 <= k < 1 + |w| ==> s[k] == w[k - 1];
    assert s[1 + |w|] == d[0];
    SpaceEndAt(s, 1, 1 + |w|);
    assert s[1 + |w|..] == d;
  }

  /** `int()` skips whitespace between the sign and the digits: `int('-\t5') == -5`. */
  lemma PyIntAfterSignAndSpace(c: char, w: string, n: nat)
    requires c == '+' || c == '-'
    requires AllSpace(w)
    ensures PyInt([c] + w + NatToString(n)) == Some(if c == '-' then -(n as int) else n)
  {
    var d := NatToString(n);
    var s := [c] + w + d;
    NatToStringHasNoSpace(n);
    assert s[|s| - 1] == d[|d| - 1];
    StripNoOuterSpace(s);
    LiteralAfterSignAndSpace(c, w, n);
  }

  /** Reading back what `str()` prints gives the integer: `int(str(i)) == i`. */
  lemma PyIntOfIntToString(i: int)
    ensures PyInt(IntToString(i)) == Some(i)
    ensures ' ' !in IntToString(i)
  {
    var n: nat := if i < 0 then -i else i;
    var d := NatToString(n);
    NatToStringHasNoSpace(n);
    var s := IntToString(i);
    if i < 0 {
      assert s == "-" + d;
      assert s[|s| - 1] == d[|d| - 1];
      StripNoOuterSpace(s);
      LiteralAfterSignAndSpace('-', "", n);
      assert s == ['-'] + "" + d;
    } else {
      StripNoOuterSpace(s);
      LiteralOfNatString(n);
    }
  }

  // ---------------------------------------------------------------------------
  // int(re.search(r'\d+', uid).group())

  /** Position of the first decimal digit in `s`, or `|s|` when there is none. */
  function FirstDigitIndex(s: string): (k: nat)
    ensures k <= |s|
    ensures k < |s| ==> IsDigit(s[k])
    ensures NoDigits(s[..k])
    decreases |s|
  {
    if |s| == 0 then 0
    else if IsDigit(s[0]) then 0
    else
      var r := FirstDigitIndex(s[1..]);
      assert s[..r + 1] == [s[0]] + s[1..][..r];
      1 + r
  }

  /** End of the maximal run of digits that starts at `k`. */
  function DigitRunEnd(s: string, k: nat): (e: nat)
    requires k <= |s|
    ensures k <= e <= |s|
    ensures AllDigits(s[k..e])
    ensures e == |s| || !IsDigit(s[e])
    decreases |s| - k
  {
    if k < |s| && IsDigit(s[k]) then
      var e := DigitRunEnd(s, k + 1);
      assert s[k..e] == [s[k]] + s[k + 1..e];
      e
    else k
  }

  /** The value of the leftmost maximal digit run of `uid` (what `re.search(r'\d+', uid)`
      finds), or `None` when `uid` has no digit and Python's `.group()` would fail. */
  function FirstNumber(uid: string): (r: Option<nat>)
    ensures r.None? <==> NoDigits(uid)
  {
    var k := FirstDigitIndex(uid);
    if k == |uid| then
      assert uid[..k] == uid;
      None
    else
      Some(DigitsValue(uid[k..DigitRunEnd(uid, k)]))
  }

  /** The first digit of `s` is at `i` when `i` holds a digit and nothing before it does. */
  lemma FirstDigitIndexAt(s: string, i: nat)
    requires i < |s| && IsDigit(s[i])
    requires forall j :: 0 <= j < i ==> !IsDigit(s[j])
    ensures FirstDigitIndex(s) == i
  {
  }

  /** The digit run from `k` ends at `e` when `s[k..e]` are digits and `e` is not one. */
  lemma DigitRunEndAt(s: string, k: nat, e: nat)
    requires k <= e <= |s|
    requires forall j :: k <= j < e ==> IsDigit(s[j])
    requires e == |s| || !IsDigit(s[e])
    ensures DigitRunEnd(s, k) == e
  {
  }

  /** An id made of digit-free text, a number and text not starting with a digit
      gets that number as its numeric id (`@I12@` gets 12). */
  lemma FirstNumberOfDecoratedNumber(p: string, n: nat, q: string)
    requires NoDigits(p)
    requires |q| == 0 || !IsDigit(q[0])
    ensures FirstNumber(p + NatToString(n) + q) == Some(n)
  {
    var d := NatToString(n);
    var s := p + d + q;
    assert forall j :: 0 <= j < |p| ==> s[j] == p[j];
    assert forall j :: 0 <= j < |d| ==> s[|p| + j] == d[j];
    FirstDigitIndexAt(s, |p|);
    assert |p| + |d| < |s| ==> s[|p| + |d|] == q[0];
    DigitRunEndAt(s, |p|, |p| + |d|);
    assert s[|p|..|p| + |d|] == d;
  }
}
