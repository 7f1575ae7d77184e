/** Name patterns. The linter matches names with anchored regular expressions;
    this model knows the three conventions of the default rule set, written out as
    character classes, and exact names (`^name$`), the usual form of a whitelist
    entry. */
module Patterns {

  datatype Pattern =
      /** `^[a-z_][a-z0-9_]*$` */
    | LowerSnake
      /** `^[A-Z_][A-Z0-9_]*$` */
    | UpperSnake
      /** `^[a-z]+([A-Z][a-z0-9]+)*$` */
    | LowerCamel
      /** `^text$` for a text without metacharacters */
    | Literal(text: string)

  predicate IsLower(c: char) { 'a' <= c <= 'z' }
  predicate IsUpper(c: char) { 'A' <= c <= 'Z' }
  predicate IsDigit(c: char) { '0' <= c <= '9' }

  predicate IsLowerSnake(s: string)
  {
    && |s| > 0
    && (IsLower(s[0]) || s[0] == '_')
    && forall i :: 1 <= i < |s| ==> IsLower(s[i]) || IsDigit(s[i]) || s[i] == '_'
  }

  predicate IsUpperSnake(s: string)
  {
    && |s| > 0
    && (IsUpper(s[0]) || s[0] == '_')
    && forall i :: 1 <= i < |s| ==> IsUpper(s[i]) || IsDigit(s[i]) || s[i] == '_'
  }

  /** Length of the longest prefix of `s` in `[a-z]`. */
  function LowerRun(s: string): (k: nat)
    ensures k <= |s|
    ensures forall i :: 0 <= i < k ==> IsLower(s[i])
    ensures k < |s| ==> !IsLower(s[k])
  {
    if s == [] || !IsLower(s[0]) then 0 else 1 + LowerRun(s[1..])
  }

  /** Length of the longest prefix of `s` in `[a-z0-9]`. */
  function LowerDigitRun(s: string): (k: nat)
    ensures k <= |s|
    ensures forall i :: 0 <= i < k ==> IsLower(s[i]) || IsDigit(s[i])
    ensures k < |s| ==> !IsLower(s[k]) && !IsDigit(s[k])
  {
    if s == [] || !(IsLower(s[0]) || IsDigit(s[0])) then 0 else 1 + LowerDigitRun(s[1..])
  }

  /** `([A-Z][a-z0-9]+)*`, matched greedily: each run of `[a-z0-9]` is followed by
      an upper-case letter or by the end, so the greedy split is the only one. */
  predicate Humps(s: string)
    decreases |s|
  {
    s == [] || (IsUpper(s[0]) && var k := LowerDigitRun(s[1..]); k > 0 && Humps(s[1 + k..]))
  }

  predicate IsLowerCamel(s: string)
  {
    var k := LowerRun(s);
    k > 0 && Humps(s[k..])
  }

  /** `regexp.MatchString`: does the pattern match the whole name? */
  predicate Matches(p: Pattern, name: string)
  {
    match p
    case LowerSnake => IsLowerSnake(name)
    case UpperSnake => IsUpperSnake(name)
    case LowerCamel => IsLowerCamel(name)
    case Literal(text) => name == text
  }

  /** `matchWhiteList`: some pattern of the list matches the name; never for an
      empty list. */
  predicate MatchWhiteList(whiteList: seq<Pattern>, name: string)
  {
    exists i :: 0 <= i < |whiteList| && Matches(whiteList[i], name)
  }

  /** The lowerCamelCase convention, letter by letter: a lower-case start, only
      letters and digits, every capital followed by a letter or digit that is not a
      capital, and no digit before the first capital. */
  predicate CamelShape(s: string)
  {
    && |s| > 0
    && IsLower(s[0])
    && (forall i :: 0 <= i < |s| ==> IsLower(s[i]) || IsUpper(s[i]) || IsDigit(s[i]))
    && (forall i :: 0 <= i < |s| && IsUpper(s[i]) ==> i + 1 < |s| && !IsUpper(s[i + 1]))
    && (forall i :: 0 <= i < |s| && IsDigit(s[i]) ==> exists j :: 0 <= j < i && IsUpper(s[j]))
  }

  /** The shape of a sequence of humps, letter by letter. */
  predicate HumpShape(s: string)
  {
    && (s == [] || IsUpper(s[0]))
    && (forall i :: 0 <= i < |s| ==> IsLower(s[i]) || IsUpper(s[i]) || IsDigit(s[i]))
    && (forall i :: 0 <= i < |s| && IsUpper(s[i]) ==> i + 1 < |s| && !IsUpper(s[i + 1]))
  }

  /** A first hump followed by well-shaped humps is well shaped. */
  lemma HumpShapeJoin(s: string, k: nat)
    requires s != [] && IsUpper(s[0]) && k == LowerDigitRun(s[1..]) && k > 0
    requires HumpShape(s[1 + k..])
    ensures HumpShape(s)
  {
    var t := s[1 + k..];
    forall i | 0 <= i < |s| && IsUpper(s[i])
      ensures i + 1 < |s| && !IsUpper(s[i + 1])
    {
      if i > 0 {
        assert i >= 1 + k;
        assert t[i - 1 - k] == s[i];
      }
    }
    forall i | 0 <= i < |s|
      ensures IsLower(s[i]) || IsUpper(s[i]) || IsDigit(s[i])
    {
      if i > k { assert t[i - 1 - k] == s[i]; }
    }
  }

  /** What follows the first hump of a well-shaped sequence is well shaped. */
  lemma HumpShapeRest(s: string, k: nat)
    requires s != [] && IsUpper(s[0]) && k == LowerDigitRun(s[1..]) && k > 0
    requires HumpShape(s)
    ensures HumpShape(s[1 + k..])
  {
    var t := s[1 + k..];
    assert t == [] || IsUpper(t[0]);
    forall i | 0 <= i < |t| && IsUpper(t[i])
      ensures i + 1 < |t| && !IsUpper(t[i + 1])
    {
      assert s[1 + k + i] == t[i];
    }
    forall i | 0 <= i < |t|
      ensures IsLower(t[i]) || IsUpper(t[i]) || IsDigit(t[i])
    {
      assert s[1 + k + i] == t[i];
    }
  }

  lemma {:induction false} HumpsShape(s: string)
    ensures Humps(s) <==> HumpShape(s)
    decreases |s|
  {
    if s != [] && IsUpper(s[0]) {
      var k := LowerDigitRun(s[1..]);
      HumpsShape(s[1 + k..]);
      if k > 0 {
        if HumpShape(s[1 + k..]) {
          HumpShapeJoin(s, k);
        }
        if HumpShape(s) {
          HumpShapeRest(s, k);
        }
      }
    }
  }

  /** A lower-case run followed by well-shaped humps is lowerCamelCase. */
  lemma CamelShapeJoin(s: string, k: nat)
    requires k == LowerRun(s) && k > 0 && HumpShape(s[k..])
    ensures CamelShape(s)
  {
    var t := s[k..];
    forall i | 0 <= i < |s| && IsUpper(s[i])
      ensures i + 1 < |s| && !IsUpper(s[i + 1])
    {
      assert t[i - k] == s[i];
    }
    forall i | 0 <= i < |s|
      ensures IsLower(s[i]) || IsUpper(s[i]) || IsDigit(s[i])
    {
      if i >= k { assert t[i - k] == s[i]; }
    }
    forall i | 0 <= i < |s| && IsDigit(s[i])
      ensures exists j :: 0 <= j < i && IsUpper(s[j])
    {
      assert IsUpper(s[k]);
    }
  }

  /** What follows the lower-case run of a lowerCamelCase name is well-shaped humps. */
  lemma CamelShapeRest(s: string, k: nat)
    requires k == LowerRun(s) && CamelShape(s)
    ensures k > 0 && HumpShape(s[k..])
  {
    var t := s[k..];
    assert k > 0;
    if t != [] {
      assert !IsLower(s[k]) && !IsDigit(s[k]);
    }
    forall i | 0 <= i < |t| && IsUpper(t[i])
      ensures i + 1 < |t| && !IsUpper(t[i + 1])
    {
      assert s[k + i] == t[i];
    }
    forall i | 0 <= i < |t|
      ensures IsLower(t[i]) || IsUpper(t[i]) || IsDigit(t[i])
    {
      assert s[k + i] == t[i];
    }
  }

  /** The hand-written matcher for `^[a-z]+([A-Z][a-z0-9]+)*$` accepts exactly the
      names of that letter-by-letter description. */
  lemma LowerCamelShape(s: string)
    ensures IsLowerCamel(s) <==> CamelShape(s)
  {
    var k := LowerRun(s);
    HumpsShape(s[k..]);
    if IsLowerCamel(s) {
      CamelShapeJoin(s, k);
    }
    if CamelShape(s) {
      CamelShapeRest(s, k);
    }
  }
}
