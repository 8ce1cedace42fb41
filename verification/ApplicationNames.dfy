/** ApplicationName: trimming, length and the name pattern. */
module ApplicationNames {
  import opened Wrappers
  import opened Regex
  import Strings

  const MIN_LENGTH := 3
  const MAX_LENGTH := 40

  /** Repeated part of the pattern: a letter or digit, or a hyphen that a letter or digit follows. */
  const MIDDLE := Either(One(LowerOrDigit), Then(One(Hyphen), Ahead(One(LowerOrDigit))))

  /** ^[a-z](?:[a-z0-9]|-(?=[a-z0-9]))*[a-z0-9]$ */
  const PATTERN := Then(Bol, Then(One(Lower), Then(Star(MIDDLE), Then(One(LowerOrDigit), Eol))))

  // ---- what the pattern means ----

  predicate NameChar(c: char) {
    In(c, LowerOrDigit) || c == '-'
  }

  /** The rule as the error message words it. */
  predicate NameShape(s: string) {
    && |s| >= 2
    && In(s[0], Lower)
    && In(s[|s| - 1], LowerOrDigit)
    && (forall i | 0 <= i < |s| :: NameChar(s[i]))
    && (forall i | 0 <= i < |s| - 1 :: !(s[i] == '-' && s[i + 1] == '-'))
  }

  predicate MiddleAt(s: string, m: nat) {
    m < |s| && (In(s[m], LowerOrDigit) || (s[m] == '-' && m + 1 < |s| && In(s[m + 1], LowerOrDigit)))
  }

  lemma EndsMiddle(s: string, i: nat)
    requires i <= |s|
    ensures Ends(MIDDLE, s, i) == if MiddleAt(s, i) then {i + 1} else {}
  {
    var hyphen, ahead := One(Hyphen), Ahead(One(LowerOrDigit));
    if i < |s| && s[i] == '-' {
      EndsThen(hyphen, ahead, s, i, i + 1);
      EndsAhead(s, i + 1);
    } else {
      EndsThenFails(hyphen, ahead, s, i);
    }
  }

  ghost predicate Middles(s: string, i: nat, k: nat) {
    i <= k <= |s| && forall m: nat | i <= m < k :: MiddleAt(s, m)
  }

  lemma MiddlesStep(s: string, i: nat, k: nat)
    requires i <= |s|
    ensures Middles(s, i, k) <==> k == i || (MiddleAt(s, i) && Middles(s, i + 1, k))
  {
  }

  lemma {:induction false} EndsStar(s: string, i: nat, k: nat)
    requires i <= |s|
    ensures k in Ends(Star(MIDDLE), s, i) <==> Middles(s, i, k)
    decreases |s| - i
  {
    MiddlesStep(s, i, k);
    EndsMiddle(s, i);
    if MiddleAt(s, i) {
      EndsStarOnce(MIDDLE, s, i, i + 1, k);
      EndsStar(s, i + 1, k);
    } else {
      EndsStarNone(MIDDLE, s, i, k);
    }
  }

  /** The pattern's last letter is at `j`. */
  ghost predicate MatchesUpTo(s: string, j: nat) {
    && 1 <= j < |s| && In(s[0], Lower) && In(s[j], LowerOrDigit)
    && Middles(s, 1, j)
    && (j + 1 == |s| || (j + 1 == |s| - 1 && s[j + 1] == '\n'))
  }

  lemma EndsTail(s: string, j: nat)
    requires j <= |s|
    ensures Ends(Then(One(LowerOrDigit), Eol), s, j) ==
      if j < |s| && In(s[j], LowerOrDigit) && (j + 1 == |s| || (j + 1 == |s| - 1 && s[j + 1] == '\n'))
      then {j + 1} else {}
  {
    if j < |s| && In(s[j], LowerOrDigit) {
      EndsThen(One(LowerOrDigit), Eol, s, j, j + 1);
    } else {
      EndsThenFails(One(LowerOrDigit), Eol, s, j);
    }
  }

  const TAIL := Then(One(LowerOrDigit), Eol)

  const REST := Then(Star(MIDDLE), TAIL)

  lemma MidAndTail(s: string, j: nat)
    requires |s| > 0 && In(s[0], Lower) && j <= |s|
    ensures j in Ends(Star(MIDDLE), s, 1) && Ends(TAIL, s, j) != {} <==> MatchesUpTo(s, j)
  {
    EndsStar(s, 1, j);
    EndsTail(s, j);
  }

  lemma RestEnds(s: string, j: nat)
    requires |s| > 0 && In(s[0], Lower) && MatchesUpTo(s, j)
    ensures Ends(REST, s, 1) != {}
  {
    MidAndTail(s, j);
    var k :| k in Ends(TAIL, s, j);
    assert k in Ends(REST, s, 1);
  }

  lemma RestEndsOnly(s: string) returns (j: nat)
    requires |s| > 0 && In(s[0], Lower) && Ends(REST, s, 1) != {}
    ensures MatchesUpTo(s, j)
  {
    var k :| k in Ends(REST, s, 1);
    j :| j in Ends(Star(MIDDLE), s, 1) && k in Ends(TAIL, s, j);
    MidAndTail(s, j);
  }

  lemma BeginsAtZero(s: string)
    ensures IsMatch(PATTERN, s) <==> Ends(Then(One(Lower), REST), s, 0) != {}
  {
    EndsThen(Bol, Then(One(Lower), REST), s, 0, 0);
    forall i: nat | 0 < i <= |s|
      ensures Ends(PATTERN, s, i) == {}
    {
      EndsThenFails(Bol, Then(One(Lower), REST), s, i);
    }
  }

  lemma BeginsWithLetter(s: string)
    ensures Ends(Then(One(Lower), REST), s, 0) != {} <==> |s| > 0 && In(s[0], Lower) && Ends(REST, s, 1) != {}
  {
    if |s| > 0 && In(s[0], Lower) {
      EndsThen(One(Lower), REST, s, 0, 1);
    } else {
      EndsThenFails(One(Lower), REST, s, 0);
    }
  }

  lemma MatchEndsSomewhere(s: string)
    ensures IsMatch(PATTERN, s) <==> exists j: nat :: MatchesUpTo(s, j)
  {
    BeginsAtZero(s);
    BeginsWithLetter(s);
    if IsMatch(PATTERN, s) {
      var j := RestEndsOnly(s);
    }
    if j: nat :| MatchesUpTo(s, j) {
      RestEnds(s, j);
    }
  }

  lemma ShapeMatches(s: string, n: nat)
    requires n <= |s| && (n == |s| || (n == |s| - 1 && s[n] == '\n'))
    ensures NameShape(s[..n]) <==> n >= 2 && MatchesUpTo(s, n - 1)
  {
    if n >= 2 {
      var t := s[..n];
      if NameShape(t) {
        forall m: nat | 1 <= m < n - 1
          ensures MiddleAt(s, m)
        {
          assert NameChar(t[m]) && NameChar(t[m + 1]);
        }
      }
      if MatchesUpTo(s, n - 1) {
        forall i | 0 <= i < n
          ensures NameChar(t[i])
        {
          assert i == 0 || i == n - 1 || MiddleAt(s, i);
        }
        forall i | 0 <= i < n - 1
          ensures !(t[i] == '-' && t[i + 1] == '-')
        {
          assert i == 0 || MiddleAt(s, i);
        }
      }
    }
  }

  /** For every string: the pattern accepts a name, or a name and one final newline. */
  lemma PatternAcceptsIff(s: string)
    ensures IsMatch(PATTERN, s) <==>
      NameShape(s) || (|s| > 0 && s[|s| - 1] == '\n' && NameShape(s[..|s| - 1]))
    ensures NameShape(s) <==>
      && |s| >= 2
      && 'a' <= s[0] <= 'z'
      && ('a' <= s[|s| - 1] <= 'z' || '0' <= s[|s| - 1] <= '9')
      && (forall i | 0 <= i < |s| :: 'a' <= s[i] <= 'z' || '0' <= s[i] <= '9' || s[i] == '-')
      && (forall i | 0 <= i < |s| - 1 :: !(s[i] == '-' && s[i + 1] == '-'))
  {
    MatchEndsSomewhere(s);
    assert s[..|s|] == s;
    ShapeMatches(s, |s|);
    if |s| > 0 && s[|s| - 1] == '\n' {
      ShapeMatches(s, |s| - 1);
    }
    if j: nat :| MatchesUpTo(s, j) {
      ShapeMatches(s, j + 1);
    }
  }

  // ---- Parse ----

  function Trim(s: string): string {
    Strings.Trim(Strings.UnicodeSpace, s)
  }

  datatype NameError = NameRequired | BadLength | BadShape

  ghost function Parse(raw: Option<string>): Result<string, NameError> {
    if raw.None? || (forall c | c in raw.value :: Strings.UnicodeSpace(c)) then Err(NameRequired)
    else
      var trimmed := Trim(raw.value);
      if |trimmed| < MIN_LENGTH || |trimmed| > MAX_LENGTH then Err(BadLength)
      else if !IsMatch(PATTERN, trimmed) then Err(BadShape)
      else Ok(trimmed)
  }

  /** Parsing succeeds exactly on the strings whose trimmed form has the shape and 3 to 40 characters. */
  lemma ParseAcceptsIff(raw: Option<string>)
    ensures Parse(raw).Ok? <==> raw.Some? && 3 <= |Trim(raw.value)| <= 40 && NameShape(Trim(raw.value))
    ensures Parse(raw).Ok? ==> Parse(raw).value == Trim(raw.value)
    ensures Parse(raw).Ok? ==> forall c | c in Parse(raw).value :: 'a' <= c <= 'z' || '0' <= c <= '9' || c == '-'
  {
    if raw.Some? {
      var t := Trim(raw.value);
      var i, j := Strings.TrimIsSlice(Strings.UnicodeSpace, raw.value);
      var v := raw.value;
      assert forall m | 0 <= m < |v| :: v[m] in v;
      PatternAcceptsIff(t);
    }
  }

  /** A label of section 2.3.1 of RFC 1035. */
  predicate IsLabel(s: string) {
    && 1 <= |s| <= 63
    && IsLetter(s[0])
    && (IsLetter(s[|s| - 1]) || IsDigit(s[|s| - 1]))
    && forall c | c in s :: IsLetter(c) || IsDigit(c) || c == '-'
  }

  /** At most 63 letters, digits and hyphens; a letter first, a letter or digit last. */
  lemma LabelIs(s: string)
    ensures IsLabel(s) <==>
      && 0 < |s| < 64
      && ('a' <= s[0] <= 'z' || 'A' <= s[0] <= 'Z')
      && ('a' <= s[|s| - 1] <= 'z' || 'A' <= s[|s| - 1] <= 'Z' || '0' <= s[|s| - 1] <= '9')
      && forall i | 0 <= i < |s| :: 'a' <= s[i] <= 'z' || 'A' <= s[i] <= 'Z' || '0' <= s[i] <= '9' || s[i] == '-'
  {
    assert forall i | 0 <= i < |s| :: s[i] in s;
  }

  predicate IsLetter(c: char) {
    'a' <= c <= 'z' || 'A' <= c <= 'Z'
  }

  predicate IsDigit(c: char) {
    '0' <= c <= '9'
  }

  /** Every parsed name has 3 to 40 characters, is a DNS label, and parses to itself. */
  lemma ParsedNamesAreLabels(raw: Option<string>)
    requires Parse(raw).Ok?
    ensures 3 <= |Parse(raw).value| <= 40 && IsLabel(Parse(raw).value)
    ensures Parse(Some(Parse(raw).value)) == Parse(raw)
  {
    ParseAcceptsIff(raw);
    var name := Parse(raw).value;
    assert forall c | c in name :: NameChar(c);
    assert !Strings.UnicodeSpace(name[0]) && !Strings.UnicodeSpace(name[|name| - 1]);
    Strings.TrimOfTrimmed(Strings.UnicodeSpace, name);
    ParseAcceptsIff(Some(name));
  }

  /** Parse, deciding the pattern by the shape it accepts. */
  method ParseName(raw: Option<string>) returns (r: Result<string, NameError>)
    ensures r == Parse(raw)
    ensures r == Err(NameRequired) <==> raw == None || forall c | c in raw.value :: Strings.UnicodeSpace(c)
    ensures r == Err(BadLength) ==> raw.Some? && (|Trim(raw.value)| < 3 || |Trim(raw.value)| > 40)
    ensures r == Err(BadShape) ==> raw.Some? && 3 <= |Trim(raw.value)| <= 40
    ensures r.Ok? ==>
      && raw.Some? && r.value == Trim(raw.value) && 3 <= |r.value| <= 40
      && 'a' <= r.value[0] <= 'z'
      && ('a' <= r.value[|r.value| - 1] <= 'z' || '0' <= r.value[|r.value| - 1] <= '9')
      && (forall i | 0 <= i < |r.value| :: 'a' <= r.value[i] <= 'z' || '0' <= r.value[i] <= '9' || r.value[i] == '-')
      && (forall i | 0 <= i < |r.value| - 1 :: !(r.value[i] == '-' && r.value[i + 1] == '-'))
    ensures raw.Some? ==>
      var t := Trim(raw.value);
      && 3 <= |t| <= 40
      && 'a' <= t[0] <= 'z'
      && ('a' <= t[|t| - 1] <= 'z' || '0' <= t[|t| - 1] <= '9')
      && (forall i | 0 <= i < |t| :: 'a' <= t[i] <= 'z' || '0' <= t[i] <= '9' || t[i] == '-')
      && (forall i | 0 <= i < |t| - 1 :: !(t[i] == '-' && t[i + 1] == '-'))
      ==> r == Ok(t)
  {
    ParseAcceptsIff(raw);
    if raw.Some? {
      PatternAcceptsIff(Trim(raw.value));
    }
    if raw.None? || (forall c | c in raw.value :: Strings.UnicodeSpace(c)) {
      return Err(NameRequired);
    }
    var trimmed := Trim(raw.value);
    if |trimmed| < MIN_LENGTH || |trimmed| > MAX_LENGTH {
      return Err(BadLength);
    }
    if !NameShape(trimmed) {
      return Err(BadShape);
    }
    return Ok(trimmed);
  }
}
