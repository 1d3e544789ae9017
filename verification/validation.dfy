/**
 * The input validators of `packages/rankiro/src/utils/validation.ts`.
 *
 * Their argument is typed `unknown`; it is a `JsValue` here, so that the
 * type tests of the source (`typeof x === 'string'`, `'number'`) are
 * constructor tests. White space is the set `String.prototype.trim` and the
 * regular-expression class `\s` share (`Text.IsWhitespace`).
 */
module Validation {
  import opened Wrappers
  import opened Text
  import opened JsValues

  // ---------------------------------------------------------------------------
  // isValidId
  // ---------------------------------------------------------------------------

  /** `isValidId`: a non-empty string equal to its own trim. */
  function IsValidId(v: JsValue): (r: bool)
    ensures r <==> v.JsString? && |v.text| > 0 && !IsWhitespace(v.text[0]) && !IsWhitespace(v.text[|v.text| - 1])
  {
    if v.JsString? then
      TrimFixedPoint(v.text);
      |v.text| > 0 && Trim(v.text) == v.text
    else false
  }

  // ---------------------------------------------------------------------------
  // isValidEmail
  // ---------------------------------------------------------------------------

  /** A non-empty run of `[^\s@]`. */
  predicate Part(t: string) {
    |t| > 0 && forall k :: 0 <= k < |t| ==> !IsWhitespace(t[k]) && t[k] != '@'
  }

  /**
   * `s` matches `^[^\s@]+@[^\s@]+\.[^\s@]+$`: some '@' at `i` and some '.'
   * at `j` after it split `s` into three runs of `[^\s@]`.
   */
  ghost predicate MatchesEmailPattern(s: string) {
    exists i, j :: 0 <= i < j < |s| && s[i] == '@' && s[j] == '.' && Part(s[..i]) && Part(s[i + 1..j]) && Part(s[j + 1..])
  }

  /** The position of the first `c` in `s`, or -1. */
  function IndexOf(s: string, c: char): (r: int)
    ensures -1 <= r < |s|
    ensures r >= 0 ==> s[r] == c
    ensures forall k :: 0 <= k < |s| && (r < 0 || k < r) ==> s[k] != c
  {
    if |s| == 0 then -1
    else if s[0] == c then 0
    else
      var r := IndexOf(s[1..], c);
      if r < 0 then -1 else r + 1
  }

  /** A '.' in `d` with at least one character on each side. */
  predicate HasInnerDot(d: string) {
    exists j :: 0 < j < |d| - 1 && d[j] == '.'
  }

  /** The matcher: split at the first '@'; the domain must hold a '.' strictly inside it. */
  predicate EmailShape(s: string) {
    var at := IndexOf(s, '@');
    at > 0 && Part(s[..at]) && Part(s[at + 1..]) && HasInnerDot(s[at + 1..])
  }

  /** The matcher accepts exactly the strings the regular expression matches. */
  lemma EmailShapeMatches(s: string)
    ensures EmailShape(s) <==> MatchesEmailPattern(s)
  {
    if EmailShape(s) {
      ShapeMatches(s);
    }
    if MatchesEmailPattern(s) {
      var i, j :| 0 <= i < j < |s| && s[i] == '@' && s[j] == '.' && Part(s[..i]) && Part(s[i + 1..j]) && Part(s[j + 1..]);
      MatchHasShape(s, i, j);
    }
  }

  lemma ShapeMatches(s: string)
    requires EmailShape(s)
    ensures MatchesEmailPattern(s)
  {
    var at := IndexOf(s, '@');
    var d := s[at + 1..];
    var j :| 0 < j < |d| - 1 && d[j] == '.';
    var p := at + 1 + j;
    assert s[at + 1..p] == d[..j];
    assert s[p + 1..] == d[j + 1..];
    assert s[p] == d[j];
    assert Part(s[..at]) && Part(s[at + 1..p]) && Part(s[p + 1..]);
  }

  lemma MatchHasShape(s: string, i: int, j: int)
    requires 0 <= i < j < |s| && s[i] == '@' && s[j] == '.'
    requires Part(s[..i]) && Part(s[i + 1..j]) && Part(s[j + 1..])
    ensures EmailShape(s)
  {
    AtIsFirst(s, i);
    var t := s[i + 1..];
    assert t[j - i - 1] == '.';
    assert Part(t) by {
      forall k | 0 <= k < |t|
        ensures !IsWhitespace(t[k]) && t[k] != '@'
      {
        if k < j - i - 1 {
          assert t[k] == s[i + 1..j][k];
        } else if k > j - i - 1 {
          assert t[k] == s[j + 1..][k - (j - i)];
        }
      }
    }
    assert HasInnerDot(t);
  }

  /** An '@' preceded by a run without '@' is the first one. */
  lemma AtIsFirst(s: string, i: int)
    requires 0 <= i < |s| && s[i] == '@' && Part(s[..i])
    ensures IndexOf(s, '@') == i
  {
  }

  /** `isValidEmail`: a string matching the pattern. */
  function IsValidEmail(v: JsValue): (r: bool)
    ensures r <==> v.JsString? && MatchesEmailPattern(v.text)
  {
    if v.JsString? then
      EmailShapeMatches(v.text);
      EmailShape(v.text)
    else false
  }

  /** An accepted address has no white space, exactly one '@' after a non-empty local part, and a '.' with text on both sides in its domain. */
  lemma AcceptedEmailShape(s: string)
    requires IsValidEmail(JsString(s))
    ensures forall k :: 0 <= k < |s| ==> !IsWhitespace(s[k])
    ensures exists i :: (0 < i < |s| && s[i] == '@'
                          && (forall k :: 0 <= k < |s| && k != i ==> s[k] != '@')
                          && (exists j :: i + 1 < j < |s| - 1 && s[j] == '.'))
  {
    var i, j :| 0 <= i < j < |s| && s[i] == '@' && s[j] == '.' && Part(s[..i]) && Part(s[i + 1..j]) && Part(s[j + 1..]);
    forall k | 0 <= k < |s| && k != i
      ensures !IsWhitespace(s[k]) && s[k] != '@'
    {
      if k < i {
        assert s[k] == s[..i][k];
      } else if k < j {
        assert s[k] == s[i + 1..j][k - i - 1];
      } else if k > j {
        assert s[k] == s[j + 1..][k - j - 1];
      }
    }
    assert 0 < i && i + 1 < j < |s| - 1;
  }

  /** A well-formed address is accepted. */
  lemma EmailAccepted()
    ensures IsValidEmail(JsString("a@b.c"))
  {
    var s := "a@b.c";
    assert s[..1] == "a" && s[2..3] == "b" && s[4..] == "c";
    MatchHasShape(s, 1, 3);
    EmailShapeMatches(s);
  }

  /** An address without a '.' after its '@' is rejected. */
  lemma EmailWithoutDotRejected()
    ensures !IsValidEmail(JsString("a@b"))
  {
    assert IndexOf("a@b", '@') == 1;
    EmailShapeMatches("a@b");
  }

  /** An address with white space is rejected. */
  lemma EmailWithSpaceRejected()
    ensures !IsValidEmail(JsString("a @b.c"))
  {
    var s := "a @b.c";
    assert IndexOf(s, '@') == 2;
    assert IsWhitespace(s[..2][1]);
    EmailShapeMatches(s);
  }

  /** An address with two '@' is rejected. */
  lemma EmailWithTwoAtsRejected()
    ensures !IsValidEmail(JsString("a@b@c.d"))
  {
    var s := "a@b@c.d";
    assert IndexOf(s, '@') == 1;
    assert s[2..][1] == '@';
    EmailShapeMatches(s);
  }

  // ---------------------------------------------------------------------------
  // isPositiveNumber / isValidPercentage
  // ---------------------------------------------------------------------------

  /** `isPositiveNumber`: a number that is not NaN and not below zero. */
  function IsPositiveNumber(v: JsValue): (r: bool)
    ensures r <==> v.JsNumber? && v.number >= 0.0
    ensures v.JsNaN? ==> !r
  {
    match v
    case JsNumber(x) => 0.0 <= x
    case _ => false
  }

  /** `isValidPercentage`: a number in the closed interval [0, 1]. */
  function IsValidPercentage(v: JsValue): (r: bool)
    ensures r <==> v.JsNumber? && 0.0 <= v.number <= 1.0
    ensures v.JsNaN? ==> !r
  {
    match v
    case JsNumber(x) => 0.0 <= x && x <= 1.0
    case _ => false
  }

  /** A valid percentage is a positive number; the converse fails above 1. */
  lemma PercentageIsPositive(v: JsValue)
    ensures IsValidPercentage(v) ==> IsPositiveNumber(v)
    ensures IsPositiveNumber(v) && !IsValidPercentage(v) <==> v.JsNumber? && v.number > 1.0
  {
  }

  // ---------------------------------------------------------------------------
  // sanitizeString
  // ---------------------------------------------------------------------------

  predicate IsAngle(c: char) {
    c == '<' || c == '>'
  }

  /** `replace(/[<>]/g, '')`: `s` without its angle brackets, every other character kept in order. */
  function RemoveAngles(s: string): (r: string)
    ensures |r| <= |s|
    ensures forall k :: 0 <= k < |r| ==> !IsAngle(r[k])
    ensures (forall k :: 0 <= k < |s| ==> !IsAngle(s[k])) ==> r == s
    ensures multiset(r) <= multiset(s)
  {
    if |s| == 0 then []
    else
      assert s == [s[0]] + s[1..];
      if IsAngle(s[0]) then RemoveAngles(s[1..]) else [s[0]] + RemoveAngles(s[1..])
  }

  /** Stripping works piece by piece, so every kept character stays in its place relative to the others. */
  lemma {:induction false} RemoveAnglesConcat(a: string, b: string)
    ensures RemoveAngles(a + b) == RemoveAngles(a) + RemoveAngles(b)
  {
    if |a| > 0 {
      var x, t := a[0], a[1..];
      assert a == [x] + t;
      assert a + b == [x] + (t + b);
      RemoveAnglesCons(x, t + b);
      RemoveAnglesCons(x, t);
      RemoveAnglesConcat(t, b);
      var h: string := if IsAngle(x) then [] else [x];
      assert h + (RemoveAngles(t) + RemoveAngles(b)) == (h + RemoveAngles(t)) + RemoveAngles(b);
    } else {
      assert a + b == b;
    }
  }

  /** Every character other than an angle bracket occurs as often after stripping as before. */
  lemma {:induction false} RemoveAnglesKeepsOthers(s: string, c: char)
    requires !IsAngle(c)
    ensures multiset(RemoveAngles(s))[c] == multiset(s)[c]
  {
    if |s| > 0 {
      var x, t := s[0], s[1..];
      assert s == [x] + t;
      RemoveAnglesCons(x, t);
      RemoveAnglesKeepsOthers(t, c);
      assert multiset(s) == multiset([x]) + multiset(t);
      if !IsAngle(x) {
        assert multiset(RemoveAngles(s)) == multiset([x]) + multiset(RemoveAngles(t));
      }
    }
  }

  /** A slice of a string without angle brackets has none either. */
  lemma SliceKeepsNoAngles(s: string, i: int, j: int)
    requires 0 <= i <= j <= |s|
    requires forall k :: 0 <= k < |s| ==> !IsAngle(s[k])
    ensures forall k :: 0 <= k < j - i ==> !IsAngle(s[i..j][k])
  {
  }

  function TextOf(v: JsValue): string {
    if v.JsString? then v.text else ""
  }

  /** `sanitizeString` as written: "" for a non-string, else trim, then strip the angle brackets. */
  function SanitizeString(v: JsValue): (r: string)
    ensures !v.JsString? ==> r == ""
    ensures v.JsString? ==> r == RemoveAngles(Trim(v.text))
    ensures forall k :: 0 <= k < |r| ==> !IsAngle(r[k])
    ensures |r| <= |TextOf(v)|
  {
    if v.JsString? then RemoveAngles(Trim(v.text)) else ""
  }

  /**
   * Stripping after trimming can uncover white space: sanitizing `"< a"`
   * gives `" a"`, which sanitizing again trims to `"a"`; the same holds
   * with any visible character in place of `a`.
   */
  lemma SanitizeStringNotIdempotent(c: char)
    requires !IsWhitespace(c) && !IsAngle(c)
    ensures SanitizeString(JsString(['<', ' ', c])) == [' ', c]
    ensures SanitizeString(JsString([' ', c])) == [c]
    ensures SanitizeString(JsString(SanitizeString(JsString(['<', ' ', c])))) != SanitizeString(JsString(['<', ' ', c]))
  {
    SanitizeFirstPass(c);
    SanitizeSecondPass(c);
  }

  lemma SanitizeFirstPass(c: char)
    requires !IsWhitespace(c) && !IsAngle(c)
    ensures SanitizeString(JsString(['<', ' ', c])) == [' ', c]
  {
    var input: string := ['<', ' ', c];
    assert Trim(input) == input by {
      assert !IsWhitespace(input[0]) && !IsWhitespace(input[|input| - 1]);
      TrimFixedPoint(input);
    }
    StripUncovers(c);
  }

  lemma SanitizeSecondPass(c: char)
    requires !IsWhitespace(c) && !IsAngle(c)
    ensures SanitizeString(JsString([' ', c])) == [c]
  {
    TrimDrops(c);
    RemoveAnglesCons(c, []);
    assert [c] + [] == [c];
  }

  lemma StripUncovers(c: char)
    requires !IsAngle(c)
    ensures RemoveAngles(['<', ' ', c]) == [' ', c]
  {
    var s: string := ['<', ' ', c];
    DropLeadingAngle(s);
    assert s[1..] == [' ', c];
  }

  /** A string whose only angle bracket is its first character loses just that character. */
  lemma DropLeadingAngle(s: string)
    requires |s| > 0 && IsAngle(s[0])
    requires forall k :: 1 <= k < |s| ==> !IsAngle(s[k])
    ensures RemoveAngles(s) == s[1..]
  {
    var t := s[1..];
    assert forall k :: 0 <= k < |t| ==> !IsAngle(t[k]) by {
      forall k | 0 <= k < |t|
        ensures !IsAngle(t[k])
      {
        assert t[k] == s[k + 1];
      }
    }
  }

  lemma TrimDrops(c: char)
    requires !IsWhitespace(c)
    ensures Trim([' ', c]) == [c]
  {
    assert [' ', c][1..] == [c];
    assert TrimStart([c]) == [c];
    assert TrimEnd([c]) == [c];
  }

  lemma RemoveAnglesCons(c: char, s: string)
    ensures RemoveAngles([c] + s) == (if IsAngle(c) then [] else [c]) + RemoveAngles(s)
  {
    assert ([c] + s)[1..] == s;
  }

  /** `sanitizeString` with the two steps swapped: strip the angle brackets, then trim. */
  function Sanitize(v: JsValue): (r: string)
    ensures !v.JsString? ==> r == ""
    ensures v.JsString? ==> r == Trim(RemoveAngles(v.text))
    ensures forall k :: 0 <= k < |r| ==> !IsAngle(r[k])
    ensures |r| > 0 ==> !IsWhitespace(r[0]) && !IsWhitespace(r[|r| - 1])
    ensures |r| <= |TextOf(v)|
  {
    if v.JsString? then
      StripThenTrim(v.text);
      Trim(RemoveAngles(v.text))
    else ""
  }

  /** Stripping, then trimming, leaves no angle bracket, no white space at either end, and nothing longer. */
  lemma StripThenTrim(s: string)
    ensures var r := Trim(RemoveAngles(s));
      && (forall k :: 0 <= k < |r| ==> !IsAngle(r[k]))
      && (|r| > 0 ==> !IsWhitespace(r[0]) && !IsWhitespace(r[|r| - 1]))
      && |r| <= |s|
  {
    var stripped := RemoveAngles(s);
    var r := Trim(stripped);
    SliceKeepsNoAngles(stripped, |stripped| - |TrimStart(stripped)|, |stripped| - |TrimStart(stripped)| + |r|);
    assert forall k :: 0 <= k < |r| ==> !IsAngle(r[k]);
    assert |r| <= |stripped| <= |s|;
  }

  /** The corrected sanitizer is idempotent. */
  lemma SanitizeIdempotent(v: JsValue)
    ensures Sanitize(JsString(Sanitize(v))) == Sanitize(v)
  {
    var r := Sanitize(v);
    assert RemoveAngles(r) == r;
    TrimFixedPoint(r);
  }

  /** On input without angle brackets the two orders agree. */
  lemma SanitizeAgreesWithoutAngles(s: string)
    requires forall k :: 0 <= k < |s| ==> !IsAngle(s[k])
    ensures Sanitize(JsString(s)) == SanitizeString(JsString(s)) == Trim(s)
  {
    var t := Trim(s);
    assert RemoveAngles(s) == s;
    assert Sanitize(JsString(s)) == t;
    SliceKeepsNoAngles(s, |s| - |TrimStart(s)|, |s| - |TrimStart(s)| + |t|);
    assert RemoveAngles(t) == t;
    assert SanitizeString(JsString(s)) == t;
  }

  // ---------------------------------------------------------------------------
  // validateRequired
  // ---------------------------------------------------------------------------

  /** The values `validateRequired` rejects: `null`, `undefined` and the empty string. */
  predicate IsMissing(v: JsValue) {
    v == JsNull || v == JsUndefined || v == JsString("")
  }

  /** `validateRequired`: the value itself, or the error "<field> is required" for a missing one. */
  function ValidateRequired(v: JsValue, fieldName: string): (r: Result<JsValue, string>)
    ensures r.Failure? <==> IsMissing(v)
    ensures r.Failure? ==> r.error == fieldName + " is required"
    ensures r.Success? ==> r.value == v
  {
    match v
    case JsNull => Failure(fieldName + " is required")
    case JsUndefined => Failure(fieldName + " is required")
    case JsString(s) => if s == "" then Failure(fieldName + " is required") else Success(v)
    case _ => Success(v)
  }

  /** Falsy values other than null, undefined and "" pass. */
  lemma RequiredAcceptsOtherFalsy(fieldName: string)
    ensures ValidateRequired(JsNumber(0.0), fieldName) == Success(JsNumber(0.0))
    ensures ValidateRequired(JsBool(false), fieldName) == Success(JsBool(false))
    ensures ValidateRequired(JsNaN, fieldName) == Success(JsNaN)
    ensures ValidateRequired(JsString(" "), fieldName).Success?
  {
  }
}
