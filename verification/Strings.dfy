/** Trimming and joining, over any notion of white space. */
module Strings {
  /** Unicode white space: Go's unicode.IsSpace and .NET's char.IsWhiteSpace are the same set. */
  predicate UnicodeSpace(c: char) {
    var u := c as int;
    9 <= u <= 13 || u == 0x20 || u == 0x85 || u == 0xA0 || u == 0x1680 || 0x2000 <= u <= 0x200A
    || u == 0x2028 || u == 0x2029 || u == 0x202F || u == 0x205F || u == 0x3000
  }

  /** The 25 characters, written out. */
  lemma UnicodeSpaces(c: char)
    ensures UnicodeSpace(c) <==>
      c as int in {0x9, 0xA, 0xB, 0xC, 0xD, 0x20, 0x85, 0xA0, 0x1680,
                   0x2000, 0x2001, 0x2002, 0x2003, 0x2004, 0x2005, 0x2006, 0x2007, 0x2008, 0x2009, 0x200A,
                   0x2028, 0x2029, 0x202F, 0x205F, 0x3000}
  {
  }

  function TrimStart(ws: char -> bool, s: string): string {
    if s != [] && ws(s[0]) then TrimStart(ws, s[1..]) else s
  }

  function TrimEnd(ws: char -> bool, s: string): string {
    if s != [] && ws(s[|s| - 1]) then TrimEnd(ws, s[..|s| - 1]) else s
  }

  function Trim(ws: char -> bool, s: string): string {
    TrimEnd(ws, TrimStart(ws, s))
  }

  /** Nothing to trim. */
  predicate Trimmed(ws: char -> bool, s: string) {
    s == [] || (!ws(s[0]) && !ws(s[|s| - 1]))
  }

  lemma {:induction false} TrimEndEnds(ws: char -> bool, s: string)
    ensures TrimEnd(ws, s) == [] || !ws(TrimEnd(ws, s)[|TrimEnd(ws, s)| - 1])
    ensures |TrimEnd(ws, s)| <= |s| && TrimEnd(ws, s) == s[..|TrimEnd(ws, s)|]
    ensures forall i | |TrimEnd(ws, s)| <= i < |s| :: ws(s[i])
  {
    if s != [] && ws(s[|s| - 1]) {
      TrimEndEnds(ws, s[..|s| - 1]);
      assert s[..|s| - 1][..|TrimEnd(ws, s)|] == s[..|TrimEnd(ws, s)|];
    }
  }

  lemma {:induction false} TrimStartStarts(ws: char -> bool, s: string)
    ensures TrimStart(ws, s) == [] || !ws(TrimStart(ws, s)[0])
    ensures |TrimStart(ws, s)| <= |s| && TrimStart(ws, s) == s[|s| - |TrimStart(ws, s)|..]
    ensures forall i | 0 <= i < |s| - |TrimStart(ws, s)| :: ws(s[i])
  {
    if s != [] && ws(s[0]) {
      TrimStartStarts(ws, s[1..]);
    }
  }

  /** Trimming leaves a trimmed slice of the string and drops only white space. */
  lemma TrimIsSlice(ws: char -> bool, s: string) returns (i: nat, j: nat)
    ensures i <= j <= |s| && Trim(ws, s) == s[i..j] && Trimmed(ws, Trim(ws, s))
    ensures i < j ==> !ws(s[i]) && !ws(s[j - 1])
    ensures forall m | 0 <= m < i || j <= m < |s| :: ws(s[m])
  {
    TrimStartStarts(ws, s);
    var t := TrimStart(ws, s);
    TrimEndEnds(ws, t);
    i := |s| - |t|;
    j := i + |TrimEnd(ws, t)|;
    forall m | j <= m < |s|
      ensures ws(s[m])
    {
      assert s[m] == t[m - i];
    }
    if Trim(ws, s) != [] {
      assert Trim(ws, s)[0] == t[0];
    }
  }

  /** The slice is the only trimmed one whose surroundings are white space. */
  lemma TrimIsUnique(ws: char -> bool, s: string, i: nat, j: nat)
    requires i <= j <= |s| && Trimmed(ws, s[i..j])
    requires forall m | 0 <= m < i || j <= m < |s| :: ws(s[m])
    ensures Trim(ws, s) == s[i..j]
  {
    var a, b := TrimIsSlice(ws, s);
    if i < j {
      assert !ws(s[i]) && !ws(s[j - 1]);
    }
  }

  lemma TrimOfTrimmed(ws: char -> bool, s: string)
    requires Trimmed(ws, s)
    ensures Trim(ws, s) == s
  {
  }

  /** strings.Join */
  function Join(parts: seq<string>, sep: string): string {
    if parts == [] then ""
    else if |parts| == 1 then parts[0]
    else parts[0] + sep + Join(parts[1..], sep)
  }
}
