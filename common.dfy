/** Shared values and the few Java library behaviours the coverage tool relies on:
    null as an Option, truncating integer division, blank strings, decimal printing
    and tab separated fields. */
module Common {

  /** A Java reference that may be null. */
  datatype Option<T> = None | Some(value: T)

  /** The failures the modelled code can raise or exit with. */
  datatype Error = NullPointer | MissingCoverageArguments

  datatype Result<T> = Success(value: T) | Failure(error: Error)

  /** Integer.MAX_VALUE */
  const IntMax: int := 2147483647

  /** Color.RED.getRGB() and Color.BLUE.getRGB(), i.e. 0xFFFF0000 and 0xFF0000FF as Java ints. */
  const Red: int := -65536
  const Blue: int := -16776961

  /** Java's `/` on int for a positive divisor: rounds toward zero, so the remainder
      takes the sign of the dividend (Dafny's own `/` is Euclidean). */
  function JavaDiv(a: int, b: int): (q: int)
    requires b > 0
    ensures a >= 0 ==> 0 <= a - q * b < b
    ensures a < 0 ==> -b < a - q * b <= 0
  {
    if a >= 0 then a / b else -((-a) / b)
  }

  /** Character.isWhitespace, restricted to the ASCII range. */
  predicate IsWhitespace(c: char)
  {
    c == ' ' || c == '\t' || c == '\n' || c == '\r' || c == '\U{B}' || c == '\U{C}'
    || ('\U{1C}' <= c <= '\U{1F}')
  }

  /** StringUtils.isBlank: null, empty, or only whitespace. */
  predicate IsBlank(s: Option<string>)
  {
    s.None? || forall i :: 0 <= i < |s.value| ==> IsWhitespace(s.value[i])
  }

  predicate EndsWith(s: string, suffix: string)
  {
    |suffix| <= |s| && s[|s| - |suffix|..] == suffix
  }

  /** Decimal digits of a natural number, as `%d` prints them. */
  function NatToString(n: nat): (s: string)
    ensures |s| >= 1
    ensures forall i :: 0 <= i < |s| ==> '0' <= s[i] <= '9'
    decreases n
  {
    if n < 10 then [DigitChar(n)] else NatToString(n / 10) + [DigitChar(n % 10)]
  }

  function DigitChar(d: nat): (c: char)
    requires d < 10
    ensures '0' <= c <= '9'
  {
    ['0', '1', '2', '3', '4', '5', '6', '7', '8', '9'][d]
  }

  /** `%d` of an int. */
  function IntToString(n: int): string
  {
    if n < 0 then "-" + NatToString(-n) else NatToString(n)
  }

  /** `%s` of a possibly null string. */
  function ShowNullable(s: Option<string>): string
  {
    if s.None? then "null" else s.value
  }

  /** The fields joined by single tabs: the layout of one line of the statistics file. */
  function JoinTab(fields: seq<string>): string
    decreases |fields|
  {
    if |fields| == 0 then ""
    else if |fields| == 1 then fields[0]
    else JoinTab(fields[..|fields| - 1]) + "\t" + fields[|fields| - 1]
  }

  lemma JoinTabSnoc(fields: seq<string>, x: string)
    requires |fields| >= 1
    ensures JoinTab(fields + [x]) == JoinTab(fields) + "\t" + x
  {
    assert (fields + [x])[..|fields|] == fields;
  }

  /** h followed by each field, each preceded by a tab: the shape of a line built up with `+=`. */
  function TabbedOnto(h: string, fields: seq<string>): string
    decreases |fields|
  {
    if |fields| == 0 then h else TabbedOnto(h, fields[..|fields| - 1]) + "\t" + fields[|fields| - 1]
  }

  /** Appending more fields to a joined line continues the join. */
  lemma {:induction false} JoinTabOnto(a: seq<string>, b: seq<string>)
    requires |a| >= 1
    ensures JoinTab(a + b) == TabbedOnto(JoinTab(a), b)
    decreases |b|
  {
    if |b| == 0 {
      assert a + b == a;
    } else {
      var init := b[..|b| - 1];
      assert (a + b)[..|a + b| - 1] == a + init;
      JoinTabOnto(a, init);
    }
  }

  lemma Assoc(a: string, b: string, c: string)
    ensures a + b + c == a + (b + c)
  {
  }

  lemma SeqAssoc<T>(a: seq<T>, b: seq<T>, c: seq<T>)
    ensures a + b + c == a + (b + c)
  {
  }

  /** One more field continues the line with a tab and that field. */
  lemma TabbedOntoSnoc(h: string, fields: seq<string>, x: string)
    ensures TabbedOnto(h, fields + [x]) == TabbedOnto(h, fields) + "\t" + x
  {
    assert (fields + [x])[..|fields|] == fields;
  }

  /** The same, for a field built from two pieces. */
  lemma TabbedOntoSnocPair(h: string, fields: seq<string>, t: string, n: string, s: string)
    requires TabbedOnto(h, fields) == t
    ensures TabbedOnto(h, fields + [n + s]) == t + "\t" + n + s
  {
    TabbedOntoSnoc(h, fields, n + s);
    Assoc(t + "\t", n, s);
  }

  /** A run of tabbed fields can be built on its own and appended in one piece. */
  lemma {:induction false} TabbedOntoShift(h: string, fields: seq<string>)
    ensures TabbedOnto(h, fields) == h + TabbedOnto("", fields)
    decreases |fields|
  {
    if |fields| > 0 {
      var init := fields[..|fields| - 1];
      var x := fields[|fields| - 1];
      TabbedOntoShift(h, init);
      var t := TabbedOnto("", init);
      Assoc(h, t, "\t");
      Assoc(h, t + "\t", x);
    }
  }

  /** Joining two runs of fields is the first join followed by the second run, tab by tab. */
  lemma JoinTabAppend(a: seq<string>, b: seq<string>)
    requires |a| >= 1
    ensures JoinTab(a + b) == JoinTab(a) + TabbedOnto("", b)
  {
    JoinTabOnto(a, b);
    TabbedOntoShift(JoinTab(a), b);
  }

  predicate NoTab(s: string)
  {
    forall i :: 0 <= i < |s| ==> s[i] != '\t'
  }

  /** Every piece between tabs, empty pieces included. */
  function SplitAll(s: string): (parts: seq<string>)
    ensures |parts| >= 1
    decreases |s|
  {
    if |s| == 0 then [""]
    else if s[0] == '\t' then [""] + SplitAll(s[1..])
    else
      var rest := SplitAll(s[1..]);
      [[s[0]] + rest[0]] + rest[1..]
  }

  function StripTrailingEmpty(parts: seq<string>): (r: seq<string>)
    ensures |r| <= |parts| && r == parts[..|r|]
    ensures |r| > 0 ==> r[|r| - 1] != ""
    ensures forall i :: |r| <= i < |parts| ==> parts[i] == ""
    decreases |parts|
  {
    if |parts| > 0 && parts[|parts| - 1] == "" then StripTrailingEmpty(parts[..|parts| - 1])
    else parts
  }

  /** String.split("\t"): a string without a tab gives itself (so "" gives [""]);
      otherwise every piece, with the trailing empty ones removed. */
  function SplitTab(s: string): (parts: seq<string>)
    ensures NoTab(s) ==> parts == [s]
    ensures forall i :: 0 <= i < |parts| ==> NoTab(parts[i])
  {
    SplitAllNoTab(s);
    if NoTab(s) then [s] else StripTrailingEmpty(SplitAll(s))
  }

  lemma {:induction false} SplitAllNoTab(s: string)
    ensures forall i :: 0 <= i < |SplitAll(s)| ==> NoTab(SplitAll(s)[i])
    decreases |s|
  {
    if |s| > 0 {
      SplitAllNoTab(s[1..]);
      if s[0] != '\t' {
        var rest := SplitAll(s[1..]);
        assert NoTab(rest[0]);
        assert NoTab([s[0]] + rest[0]);
      }
    }
  }

  lemma {:induction false} SplitAllOfNoTab(s: string)
    requires NoTab(s)
    ensures SplitAll(s) == [s]
    decreases |s|
  {
    if |s| > 0 {
      SplitAllOfNoTab(s[1..]);
      assert [s[0]] + s[1..] == s;
    }
  }

  lemma {:induction false} SplitAllAtTab(a: string, b: string)
    ensures SplitAll(a + "\t" + b) == SplitAll(a) + SplitAll(b)
    decreases |a|
  {
    if |a| == 0 {
      assert a + "\t" + b == "\t" + b;
      assert ("\t" + b)[1..] == b;
    } else {
      assert (a + "\t" + b)[1..] == a[1..] + "\t" + b;
      SplitAllAtTab(a[1..], b);
    }
  }

  /** Splitting on tabs undoes joining with tabs. */
  lemma {:induction false} SplitAllJoinTab(fields: seq<string>)
    requires |fields| >= 1
    requires forall i :: 0 <= i < |fields| ==> NoTab(fields[i])
    ensures SplitAll(JoinTab(fields)) == fields
    decreases |fields|
  {
    if |fields| == 1 {
      SplitAllOfNoTab(fields[0]);
    } else {
      var init := fields[..|fields| - 1];
      var last := fields[|fields| - 1];
      SplitAllJoinTab(init);
      SplitAllAtTab(JoinTab(init), last);
      SplitAllOfNoTab(last);
      assert init + [last] == fields;
    }
  }

  lemma {:induction false} JoinTabHasTab(fields: seq<string>)
    requires |fields| >= 2
    ensures !NoTab(JoinTab(fields))
  {
    var j := JoinTab(fields[..|fields| - 1]);
    assert JoinTab(fields) == j + "\t" + fields[|fields| - 1];
    assert JoinTab(fields)[|j|] == '\t';
  }

  /** Tab separated fields, none empty at the end, read back by String.split("\t") exactly. */
  lemma SplitTabJoinTab(fields: seq<string>)
    requires |fields| >= 1
    requires forall i :: 0 <= i < |fields| ==> NoTab(fields[i])
    requires |fields| >= 2 ==> fields[|fields| - 1] != ""
    ensures SplitTab(JoinTab(fields)) == fields
  {
    if |fields| >= 2 {
      JoinTabHasTab(fields);
      SplitAllJoinTab(fields);
    }
  }
}
