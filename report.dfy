/** How findings are rendered (lualin/lint.go:32-44): one finding as
    `"<line>: <message>"`, a collection as those texts joined by newlines. The
    parsers below are the inverse of that rendering, to state what it preserves. */
module Report {
  import opened Options
  import opened Findings

  predicate IsDigitChar(c: char) { '0' <= c <= '9' }

  predicate AllDigits(s: string) { forall i :: 0 <= i < |s| ==> IsDigitChar(s[i]) }

  function DigitChar(d: nat): char
    requires d < 10
  {
    ('0' as int + d) as char
  }

  function DigitValue(c: char): nat
    requires IsDigitChar(c)
  {
    c as int - '0' as int
  }

  /** Decimal digits of `n`, most significant first, without leading zeros. */
  function Digits(n: nat): (s: string)
    ensures |s| > 0 && AllDigits(s)
  {
    if n < 10 then [DigitChar(n)] else Digits(n / 10) + [DigitChar(n % 10)]
  }

  /** `fmt`'s `%d`. */
  function Decimal(n: int): string
  {
    if n < 0 then "-" + Digits(-n) else Digits(n)
  }

  function DigitsValue(s: string): nat
    requires AllDigits(s)
  {
    if s == [] then 0 else 10 * DigitsValue(s[..|s| - 1]) + DigitValue(s[|s| - 1])
  }

  /** Reads back an optionally signed decimal. */
  function ParseDecimal(s: string): Option<int>
  {
    if |s| > 1 && s[0] == '-' && AllDigits(s[1..]) then Some(0 - DigitsValue(s[1..]) as int)
    else if |s| > 0 && AllDigits(s) then Some(DigitsValue(s))
    else None
  }

  lemma {:induction false} DigitsRoundTrip(n: nat)
    ensures DigitsValue(Digits(n)) == n
  {
    if n >= 10 {
      var s := Digits(n);
      assert s[..|s| - 1] == Digits(n / 10);
      DigitsRoundTrip(n / 10);
    }
  }

  /** `%d` loses nothing: the printed line number reads back as itself. */
  lemma DecimalRoundTrip(n: int)
    ensures ParseDecimal(Decimal(n)) == Some(n)
  {
    if n < 0 {
      DigitsRoundTrip(-n);
      assert Decimal(n)[1..] == Digits(-n);
    } else {
      DigitsRoundTrip(n);
    }
  }

  /** Position of the first `c` in `s`, or `|s|` when there is none. */
  function IndexOf(s: string, c: char): (k: nat)
    ensures k <= |s|
    ensures k < |s| ==> s[k] == c
    ensures forall i :: 0 <= i < k ==> s[i] != c
  {
    if s == [] then 0 else if s[0] == c then 0 else 1 + IndexOf(s[1..], c)
  }

  /** Splits a rendered finding at its first colon back into line and message. */
  function ParseLintErrorString(s: string): Option<(int, string)>
  {
    var k := IndexOf(s, ':');
    if k + 1 < |s| && s[k + 1] == ' ' then
      match ParseDecimal(s[..k])
      case Some(n) => Some((n, s[k + 2..]))
      case None => None
    else None
  }

  /** The `"%d: %s"` text of a line and a message reads back as the two. */
  lemma FormatRoundTrip(line: int, message: string)
    ensures ParseLintErrorString(Decimal(line) + ": " + message) == Some((line, message))
  {
    var d := Decimal(line);
    var s := d + ": " + message;
    assert forall i :: 0 <= i < |d| ==> d[i] != ':' by {
      if line < 0 {
        assert forall i :: 1 <= i < |d| ==> d[i] == Digits(-line)[i - 1];
      }
    }
    assert s[|d|] == ':';
    assert IndexOf(s, ':') == |d|;
    assert s[..|d|] == d;
    assert s[|d| + 2..] == message;
    DecimalRoundTrip(line);
  }

  /** `LintError.Error`: `"%d: %s"` of the line and the message, which determines
      both of them. */
  function LintErrorString(e: LintError): (r: string)
    ensures ParseLintErrorString(r) == Some((e.line, e.message))
  {
    FormatRoundTrip(e.line, e.message);
    Decimal(e.line) + ": " + e.message
  }

  /** `strings.Join`. */
  function Join(xs: seq<string>, sep: string): string
  {
    if |xs| == 0 then "" else if |xs| == 1 then xs[0] else xs[0] + sep + Join(xs[1..], sep)
  }

  /** Splits a text at every newline. */
  function SplitLines(s: string): seq<string>
    decreases |s|
  {
    var k := IndexOf(s, '\n');
    if k == |s| then [s] else [s[..k]] + SplitLines(s[k + 1..])
  }

  /** A first line without a newline is split off whole. */
  lemma SplitFirstLine(line: string, rest: string)
    requires '\n' !in line
    ensures SplitLines(line + "\n" + rest) == [line] + SplitLines(rest)
  {
    var s := line + "\n" + rest;
    assert s[|line|] == '\n';
    assert forall i :: 0 <= i < |line| ==> s[i] == line[i];
    assert IndexOf(s, '\n') == |line|;
    assert s[..|line|] == line;
    assert s[|line| + 1..] == rest;
  }

  /** Joining lines that hold no newline and splitting again gives the lines back. */
  lemma {:induction false} JoinSplitLines(xs: seq<string>)
    requires |xs| > 0
    requires forall i :: 0 <= i < |xs| ==> '\n' !in xs[i]
    ensures SplitLines(Join(xs, "\n")) == xs
  {
    if |xs| == 1 {
      assert IndexOf(xs[0], '\n') == |xs[0]|;
    } else {
      SplitFirstLine(xs[0], Join(xs[1..], "\n"));
      JoinSplitLines(xs[1..]);
    }
  }

  /** The rendered findings, in order. */
  function LintErrorStrings(errs: seq<LintError>): seq<string>
  {
    seq(|errs|, i requires 0 <= i < |errs| => LintErrorString(errs[i]))
  }

  /** `LintErrors.Error`: renders every finding and joins the texts with newlines. */
  method LintErrorsString(errs: seq<LintError>) returns (out: string)
    ensures out == Join(LintErrorStrings(errs), "\n")
    ensures out == "" <==> errs == []
  {
    var msgs: seq<string> := [];
    for i := 0 to |errs|
      invariant msgs == LintErrorStrings(errs[..i])
    {
      msgs := msgs + [LintErrorString(errs[i])];
    }
    assert errs[..|errs|] == errs;
    out := Join(msgs, "\n");
    if errs != [] {
      assert |out| >= |msgs[0]| > 0;
    }
  }

  /** A finding whose message is one line renders as one line. */
  lemma LintErrorStringOneLine(e: LintError)
    requires '\n' !in e.message
    ensures '\n' !in LintErrorString(e)
  {
    var d := Decimal(e.line);
    assert forall j :: 0 <= j < |d| ==> d[j] != '\n' by {
      if e.line < 0 {
        assert forall j :: 1 <= j < |d| ==> d[j] == Digits(-e.line)[j - 1];
      }
    }
    var r := LintErrorString(e);
    assert r == d + ": " + e.message;
    forall j | 0 <= j < |r|
      ensures r[j] != '\n'
    {
      if j >= |d| + 2 {
        assert r[j] == e.message[j - |d| - 2];
      }
    }
  }

  /** A rendered report has one line per finding, and each line reads back as
      that finding's line number and message, in order. */
  lemma ReportRoundTrip(errs: seq<LintError>)
    requires |errs| > 0
    requires forall i :: 0 <= i < |errs| ==> '\n' !in errs[i].message
    ensures |SplitLines(Join(LintErrorStrings(errs), "\n"))| == |errs|
    ensures forall i :: 0 <= i < |errs| ==>
      ParseLintErrorString(SplitLines(Join(LintErrorStrings(errs), "\n"))[i]) == Some((errs[i].line, errs[i].message))
  {
    var msgs := LintErrorStrings(errs);
    forall i | 0 <= i < |msgs|
      ensures '\n' !in msgs[i]
    {
      LintErrorStringOneLine(errs[i]);
    }
    JoinSplitLines(msgs);
  }
}
