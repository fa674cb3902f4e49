/** The plot style chosen on the command line, parsed leniently from a string. */
module PlotTypes {
  import opened Common

  datatype PlotType = HISTOGRAM | LINE | SPLINE

  /** Enum.name() */
  function Name(p: PlotType): string
  {
    match p
    case HISTOGRAM => "HISTOGRAM"
    case LINE => "LINE"
    case SPLINE => "SPLINE"
  }

  /** String.toLowerCase on one character, ASCII letters only. */
  function LowerChar(c: char): (d: char)
    ensures d <= ' ' <==> c <= ' '
  {
    if 'A' <= c <= 'Z' then (c as int - 'A' as int + 'a' as int) as char else c
  }

  function Lower(s: string): (r: string)
    ensures |r| == |s|
    ensures forall i :: 0 <= i < |s| ==> r[i] == LowerChar(s[i])
  {
    seq(|s|, i requires 0 <= i < |s| => LowerChar(s[i]))
  }

  function TrimStart(s: string): (r: string)
    decreases |s|
  {
    if |s| > 0 && s[0] <= ' ' then TrimStart(s[1..]) else s
  }

  function TrimEnd(s: string): (r: string)
    decreases |s|
  {
    if |s| > 0 && s[|s| - 1] <= ' ' then TrimEnd(s[..|s| - 1]) else s
  }

  /** String.trim: removes every character up to and including the space from both ends. */
  function Trim(s: string): (r: string)
  {
    TrimEnd(TrimStart(s))
  }

  /** PlotType.of: null and every unrecognised string give HISTOGRAM; matching ignores
      surrounding blanks and letter case. */
  function Of(value: Option<string>): (p: PlotType)
    ensures value.None? ==> p == HISTOGRAM
    ensures value.Some? && Lower(Trim(value.value)) == "line" ==> p == LINE
    ensures value.Some? && Lower(Trim(value.value)) == "spline" ==> p == SPLINE
    ensures value.Some? ==>
              (Lower(Trim(value.value)) != "line" && Lower(Trim(value.value)) != "spline" ==> p == HISTOGRAM)
  {
    if value.None? then HISTOGRAM
    else
      var v := Lower(Trim(value.value));
      if v == "histogram" then HISTOGRAM
      else if v == "line" then LINE
      else if v == "spline" then SPLINE
      else HISTOGRAM
  }

  /** Every constant is read back from its own lower-case name. */
  lemma OfLowerName(p: PlotType)
    ensures Of(Some(Lower(Name(p)))) == p
  {
    match p
    case HISTOGRAM => assert Lower("HISTOGRAM") == "histogram";
    case LINE => assert Lower("LINE") == "line";
    case SPLINE => assert Lower("SPLINE") == "spline";
  }

  /** A string with surrounding blanks and capitals is still recognised. */
  lemma OfPaddedLine()
    ensures Of(Some(" Line ")) == LINE
  {
    assert TrimStart(" Line ") == "Line ";
    assert TrimEnd("Line ") == "Line";
    assert Lower("Line") == "line";
  }

  lemma {:induction false} LowerIdempotent(s: string)
    ensures Lower(Lower(s)) == Lower(s)
  {
  }

  lemma {:induction false} TrimStartLower(s: string)
    ensures TrimStart(Lower(s)) == Lower(TrimStart(s))
    decreases |s|
  {
    if |s| > 0 {
      assert Lower(s)[1..] == Lower(s[1..]);
      if s[0] <= ' ' { TrimStartLower(s[1..]); }
    }
  }

  lemma {:induction false} TrimEndLower(s: string)
    ensures TrimEnd(Lower(s)) == Lower(TrimEnd(s))
    decreases |s|
  {
    if |s| > 0 {
      assert Lower(s)[..|s| - 1] == Lower(s[..|s| - 1]);
      if s[|s| - 1] <= ' ' { TrimEndLower(s[..|s| - 1]); }
    }
  }

  lemma {:induction false} TrimStartIdempotent(s: string)
    ensures TrimStart(TrimStart(s)) == TrimStart(s)
    ensures |TrimStart(s)| > 0 ==> TrimStart(s)[0] > ' '
    decreases |s|
  {
    if |s| > 0 && s[0] <= ' ' { TrimStartIdempotent(s[1..]); }
  }

  lemma {:induction false} TrimEndIdempotent(s: string)
    ensures TrimEnd(TrimEnd(s)) == TrimEnd(s)
    ensures |TrimEnd(s)| > 0 ==> TrimEnd(s)[|TrimEnd(s)| - 1] > ' '
    decreases |s|
  {
    if |s| > 0 && s[|s| - 1] <= ' ' { TrimEndIdempotent(s[..|s| - 1]); }
  }

  /** Removing trailing blanks keeps a leading non-blank character in place. */
  lemma {:induction false} TrimEndKeepsStart(s: string)
    requires |s| > 0 ==> s[0] > ' '
    ensures TrimStart(TrimEnd(s)) == TrimEnd(s)
    decreases |s|
  {
    if |s| > 0 && s[|s| - 1] <= ' ' {
      TrimEndKeepsStart(s[..|s| - 1]);
    }
  }

  lemma TrimIdempotent(s: string)
    ensures Trim(Trim(s)) == Trim(s)
  {
    var t := TrimStart(s);
    TrimStartIdempotent(s);
    TrimEndKeepsStart(t);
    TrimEndIdempotent(t);
  }

  /** Normalising the input first does not change the result: the normalisation
      String.trim().toLowerCase() is idempotent. */
  lemma OfNormalised(s: string)
    ensures Of(Some(Lower(Trim(s)))) == Of(Some(s))
  {
    var t := Trim(s);
    TrimStartLower(t);
    TrimEndLower(TrimStart(t));
    assert Trim(Lower(t)) == Lower(Trim(t));
    TrimIdempotent(s);
    LowerIdempotent(t);
  }
}
