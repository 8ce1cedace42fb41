/** The hand-written list parser of the API's configuration, and the provisioner's. */
module Config {
  import opened Strings

  // ---- splitting ----

  predicate OccursAt(s: string, sep: string, i: nat) {
    i + |sep| <= |s| && s[i..i + |sep|] == sep
  }

  ghost predicate Occurs(s: string, sep: string) {
    exists i: nat :: OccursAt(s, sep, i)
  }

  /** The parts of `s` from `start` on, cut at the occurrences of `sep` that a scan from `i` on meets. */
  function SplitFrom(s: string, sep: string, start: nat, i: nat): (parts: seq<string>)
    requires |sep| > 0 && start <= i && start <= |s|
    ensures |parts| > 0
    decreases |s| - i
  {
    if |s| < i + |sep| then [s[start..]]
    else if OccursAt(s, sep, i) then [s[start..i]] + SplitFrom(s, sep, i + |sep|, i + |sep|)
    else SplitFrom(s, sep, start, i + 1)
  }

  function Split(s: string, sep: string): (parts: seq<string>)
    ensures |parts| > 0
  {
    if |sep| == 0 then [s] else SplitFrom(s, sep, 0, 0)
  }

  /** With `result` emitted, the scan from `i` on completes the split. */
  ghost predicate Done(s: string, sep: string, start: nat, i: nat, result: seq<string>) {
    |sep| > 0 && start <= i && start <= |s| && result + SplitFrom(s, sep, start, i) == Split(s, sep)
  }

  lemma DoneStarts(s: string, sep: string)
    requires |sep| > 0
    ensures Done(s, sep, 0, 0, [])
  {
  }

  lemma DonePast(s: string, sep: string, start: nat, i: nat, result: seq<string>)
    requires Done(s, sep, start, i, result) && i + |sep| <= |s| && !OccursAt(s, sep, i)
    ensures Done(s, sep, start, i + 1, result)
  {
  }

  lemma Regroup(a: seq<string>, p: string, b: seq<string>)
    ensures a + ([p] + b) == a + [p] + b
  {
  }

  lemma DoneAtMatch(s: string, sep: string, start: nat, i: nat, result: seq<string>)
    requires Done(s, sep, start, i, result) && OccursAt(s, sep, i)
    ensures Done(s, sep, i + |sep|, i + |sep|, result + [s[start..i]])
  {
    Regroup(result, s[start..i], SplitFrom(s, sep, i + |sep|, i + |sep|));
  }

  lemma DoneEnds(s: string, sep: string, start: nat, i: nat, result: seq<string>)
    requires Done(s, sep, start, i, result) && |s| < i + |sep|
    ensures result + [s[start..]] == Split(s, sep)
  {
  }

  /** splitString; the index jumps back to the end of each match before the loop's own increment. */
  method SplitString(s: string, sep: string) returns (result: seq<string>)
    ensures result == Split(s, sep)
    ensures sep == "" ==> result == [s]
  {
    if |sep| == 0 {
      return [s];
    }
    result := [];
    var start, i := 0, 0;
    DoneStarts(s, sep);
    while i <= |s| - |sep|
      invariant 0 <= start <= |s| && 0 <= i && Done(s, sep, start, i, result)
      decreases |s| - i
    {
      if s[i..i + |sep|] == sep {
        DoneAtMatch(s, sep, start, i, result);
        result := result + [s[start..i]];
        start := i + |sep|;
        i := start - 1;
      } else {
        DonePast(s, sep, start, i, result);
      }
      i := i + 1;
    }
    DoneEnds(s, sep, start, i, result);
    result := result + [s[start..]];
  }

  /** No separator starts from `start` up to `i`. */
  ghost predicate Clear(s: string, sep: string, start: nat, i: nat) {
    forall j: nat | start <= j < i :: !OccursAt(s, sep, j)
  }

  // ---- what splitting promises ----

  /** The first separator at or after `start` is at `k`. */
  ghost predicate FirstAt(s: string, sep: string, start: nat, k: nat) {
    start <= k && OccursAt(s, sep, k) && Clear(s, sep, start, k)
  }

  /** The parts are what lies between the leftmost separators from `start` on. */
  ghost predicate Cuts(s: string, sep: string, start: nat, parts: seq<string>)
    decreases |parts|
  {
    if |parts| == 0 || start > |s| then false
    else if |parts| == 1 then parts[0] == s[start..] && Clear(s, sep, start, |s|)
    else
      var k := start + |parts[0]|;
      FirstAt(s, sep, start, k) && parts[0] == s[start..k] && Cuts(s, sep, k + |sep|, parts[1..])
  }

  lemma CutsLast(s: string, sep: string, start: nat, p: string)
    requires start <= |s| && Clear(s, sep, start, |s|) && p == s[start..]
    ensures Cuts(s, sep, start, [p])
  {
  }

  lemma CutsCons(s: string, sep: string, start: nat, p: string, tail: seq<string>)
    requires FirstAt(s, sep, start, start + |p|) && p == s[start..start + |p|]
    requires |tail| > 0 && Cuts(s, sep, start + |p| + |sep|, tail)
    ensures Cuts(s, sep, start, [p] + tail)
  {
    var parts := [p] + tail;
    assert |parts| > 1 && parts[0] == p && parts[1..] == tail;
  }

  lemma ScanAtMatch(s: string, sep: string, start: nat, i: nat, p: string, tail: seq<string>)
    requires |sep| > 0 && FirstAt(s, sep, start, i) && p == s[start..i]
    requires tail == SplitFrom(s, sep, i + |sep|, i + |sep|) && Cuts(s, sep, i + |sep|, tail)
    ensures Cuts(s, sep, start, SplitFrom(s, sep, start, i))
  {
    assert SplitFrom(s, sep, start, i) == [p] + tail;
    CutsCons(s, sep, start, p, tail);
  }

  lemma {:induction false} ScanCuts(s: string, sep: string, start: nat, i: nat)
    requires |sep| > 0 && start <= i && start <= |s| && Clear(s, sep, start, i)
    ensures Cuts(s, sep, start, SplitFrom(s, sep, start, i))
    decreases |s| - i
  {
    if |s| < i + |sep| {
      CutsLast(s, sep, start, s[start..]);
    } else if OccursAt(s, sep, i) {
      ScanCuts(s, sep, i + |sep|, i + |sep|);
      ScanAtMatch(s, sep, start, i, s[start..i], SplitFrom(s, sep, i + |sep|, i + |sep|));
    } else {
      ScanCuts(s, sep, start, i + 1);
    }
  }

  /** Split cuts at the leftmost, non-overlapping occurrences. */
  lemma SplitCuts(s: string, sep: string)
    requires |sep| > 0
    ensures Cuts(s, sep, 0, Split(s, sep))
  {
    ScanCuts(s, sep, 0, 0);
  }

  lemma AroundMatch(s: string, sep: string, start: nat, k: nat)
    requires start <= k && OccursAt(s, sep, k)
    ensures s[start..k] + sep + s[k + |sep|..] == s[start..]
  {
  }

  lemma {:induction false} CutsJoin(s: string, sep: string, start: nat, parts: seq<string>)
    requires Cuts(s, sep, start, parts)
    ensures start <= |s| && Join(parts, sep) == s[start..]
    decreases |parts|
  {
    if |parts| > 1 {
      var k := start + |parts[0]|;
      CutsJoin(s, sep, k + |sep|, parts[1..]);
      AroundMatch(s, sep, start, k);
    }
  }

  /** Joining the parts gives the string back. */
  lemma JoinAfterSplit(s: string, sep: string)
    requires |sep| > 0
    ensures Join(Split(s, sep), sep) == s
  {
    SplitCuts(s, sep);
    CutsJoin(s, sep, 0, Split(s, sep));
    assert s[0..] == s;
  }

  lemma SliceOfSlice(s: string, a: nat, b: nat, i: nat, j: nat)
    requires a <= b <= |s| && i <= j <= b - a
    ensures s[a..b][i..j] == s[a + i..a + j]
  {
    var t := s[a..b];
    assert forall m | 0 <= m < b - a :: t[m] == s[a + m];
    assert forall m | 0 <= m < j - i :: t[i..j][m] == t[i + m];
  }

  lemma OccursInSuffix(s: string, sep: string, start: nat, i: nat)
    requires start <= |s|
    ensures OccursAt(s[start..], sep, i) <==> OccursAt(s, sep, start + i)
  {
    if start + i + |sep| <= |s| {
      assert s[start..] == s[start..|s|];
      SliceOfSlice(s, start, |s|, i, i + |sep|);
    }
  }

  lemma LastIsFree(s: string, sep: string, start: nat)
    requires |sep| > 0 && start <= |s| && Clear(s, sep, start, |s|)
    ensures !Occurs(s[start..], sep)
  {
    forall i: nat
      ensures !OccursAt(s[start..], sep, i)
    {
      OccursInSuffix(s, sep, start, i);
    }
  }

  // ---- when splitting undoes joining ----

  /** Read from the left, the text of each part followed by the separator shows the separator first at its end. */
  ghost predicate Separable(parts: seq<string>, sep: string) {
    if |parts| == 0 then false
    else if |parts| == 1 then !Occurs(parts[0], sep)
    else EndsFirst(parts[0], sep) && Separable(parts[1..], sep)
  }

  ghost predicate EndsFirst(p: string, sep: string) {
    forall j: nat | j < |p| :: !OccursAt(p + sep, sep, j)
  }

  lemma OccursInLonger(p: string, sep: string, rest: string, j: nat)
    requires j <= |p|
    ensures OccursAt(p + sep + rest, sep, j) <==> OccursAt(p + sep, sep, j)
  {
  }

  lemma SliceEndsFirst(s: string, sep: string, start: nat, k: nat)
    requires FirstAt(s, sep, start, k)
    ensures EndsFirst(s[start..k], sep)
  {
    var p := s[start..k];
    AroundMatch(s, sep, start, k);
    forall j: nat | j < |p|
      ensures !OccursAt(p + sep, sep, j)
    {
      OccursInLonger(p, sep, s[k + |sep|..], j);
      OccursInSuffix(s, sep, start, j);
    }
  }

  lemma {:induction false} CutsAreSeparable(s: string, sep: string, start: nat, parts: seq<string>)
    requires |sep| > 0 && Cuts(s, sep, start, parts)
    ensures Separable(parts, sep)
    decreases |parts|
  {
    if |parts| == 1 {
      LastIsFree(s, sep, start);
    } else {
      var k := start + |parts[0]|;
      SliceEndsFirst(s, sep, start, k);
      CutsAreSeparable(s, sep, k + |sep|, parts[1..]);
    }
  }

  lemma EndsFirstIsFree(p: string, sep: string)
    requires |sep| > 0 && EndsFirst(p, sep)
    ensures !Occurs(p, sep)
  {
    forall i: nat
      ensures !OccursAt(p, sep, i)
    {
      if i + |sep| <= |p| {
        assert (p + sep)[i..i + |sep|] == p[i..i + |sep|];
        assert !OccursAt(p + sep, sep, i);
      }
    }
  }

  lemma {:induction false} SeparableAreFree(parts: seq<string>, sep: string, p: string)
    requires |sep| > 0 && Separable(parts, sep) && p in parts
    ensures !Occurs(p, sep)
  {
    if |parts| > 1 {
      if p == parts[0] {
        EndsFirstIsFree(p, sep);
      } else {
        SeparableAreFree(parts[1..], sep, p);
      }
    }
  }

  lemma SplitIsSeparable(s: string, sep: string)
    requires |sep| > 0
    ensures Separable(Split(s, sep), sep)
  {
    SplitCuts(s, sep);
    CutsAreSeparable(s, sep, 0, Split(s, sep));
  }

  /** No part contains the separator. */
  lemma PartsAreFree(s: string, sep: string)
    requires |sep| > 0
    ensures forall p | p in Split(s, sep) :: !Occurs(p, sep)
  {
    SplitIsSeparable(s, sep);
    forall p | p in Split(s, sep)
      ensures !Occurs(p, sep)
    {
      SeparableAreFree(Split(s, sep), sep, p);
    }
  }

  lemma SameFirst(p: string, rest: string, q: string, other: string, sep: string)
    requires EndsFirst(p, sep) && EndsFirst(q, sep) && p + sep + rest == q + sep + other
    ensures p == q && rest == other
  {
    FirstIsNotShorter(p, rest, q, other, sep);
    FirstIsNotShorter(q, other, p, rest, sep);
    assert p == (p + sep + rest)[..|p|] == (q + sep + other)[..|p|] == q;
    assert rest == (p + sep + rest)[|p + sep|..] == (q + sep + other)[|p + sep|..] == other;
  }

  lemma FirstIsNotShorter(p: string, rest: string, q: string, other: string, sep: string)
    requires EndsFirst(q, sep) && p + sep + rest == q + sep + other
    ensures |p| >= |q|
  {
    if |p| < |q| {
      OccursInLonger(p, sep, rest, |p|);
      OccursInLonger(q, sep, other, |p|);
    }
  }

  lemma FreeIsAlone(p: string, q: string, rest: string, sep: string)
    requires p == q + sep + rest
    ensures Occurs(p, sep)
  {
    assert OccursAt(p, sep, |q|);
  }

  /** Two separable lists with the same joined text are the same list. */
  lemma {:induction false} SeparableIsUnique(a: seq<string>, b: seq<string>, sep: string)
    requires Separable(a, sep) && Separable(b, sep) && Join(a, sep) == Join(b, sep)
    ensures a == b
  {
    var p, q := a[0], b[0];
    assert a == [p] + a[1..] && b == [q] + b[1..];
    if |a| > 1 && |b| > 1 {
      SameFirst(p, Join(a[1..], sep), q, Join(b[1..], sep), sep);
      SeparableIsUnique(a[1..], b[1..], sep);
    } else if |a| > 1 {
      FreeIsAlone(q, p, Join(a[1..], sep), sep);
    } else if |b| > 1 {
      FreeIsAlone(p, q, Join(b[1..], sep), sep);
    }
  }

  /** For every separator: splitting undoes joining exactly on the separable lists. */
  lemma SplitAfterJoinIff(parts: seq<string>, sep: string)
    requires |sep| > 0
    ensures Split(Join(parts, sep), sep) == parts <==> Separable(parts, sep)
  {
    var s := Join(parts, sep);
    SplitIsSeparable(s, sep);
    JoinAfterSplit(s, sep);
    if Separable(parts, sep) {
      SeparableIsUnique(parts, Split(s, sep), sep);
    }
  }

  lemma OneCharOccurs(p: string, c: char, j: nat)
    ensures OccursAt(p, [c], j) <==> j < |p| && p[j] == c
  {
  }

  lemma OneCharOccursIff(p: string, c: char)
    ensures Occurs(p, [c]) <==> c in p
  {
    forall j: nat
      ensures OccursAt(p, [c], j) <==> j < |p| && p[j] == c
    {
      OneCharOccurs(p, c, j);
    }
    if c in p {
      var j: nat :| j < |p| && p[j] == c;
      assert OccursAt(p, [c], j);
    }
  }

  lemma OneCharEndsFirstIff(p: string, c: char)
    ensures EndsFirst(p, [c]) <==> c !in p
  {
    forall j: nat | j < |p|
      ensures OccursAt(p + [c], [c], j) <==> p[j] == c
    {
      OneCharOccurs(p + [c], c, j);
    }
  }

  /** A one-character separator separates exactly the non-empty lists of parts without it. */
  lemma {:induction false} OneCharSeparableIff(parts: seq<string>, c: char)
    ensures Separable(parts, [c]) <==> parts != [] && forall p | p in parts :: c !in p
  {
    if |parts| > 0 {
      OneCharOccursIff(parts[0], c);
      OneCharEndsFirstIff(parts[0], c);
      assert forall p :: p in parts <==> p == parts[0] || p in parts[1..];
      OneCharSeparableIff(parts[1..], c);
    }
  }

  /** A one-character split undoes joining exactly on the non-empty lists of parts without that character. */
  lemma OneCharSplitAfterJoinIff(parts: seq<string>, c: char)
    ensures Split(Join(parts, [c]), [c]) == parts <==> parts != [] && forall p | p in parts :: c !in p
  {
    SplitAfterJoinIff(parts, [c]);
    OneCharSeparableIff(parts, c);
  }

  // ---- trimming ----

  /** The four characters the API's trimSpace looks for. */
  predicate Blank(c: char) {
    c == ' ' || c == '\t' || c == '\n' || c == '\r'
  }

  /** trimSpace */
  method TrimSpace(s: string) returns (t: string)
    ensures t == Trim(Blank, s)
  {
    var start, end := 0, |s|;
    while start < end && (s[start] == ' ' || s[start] == '\t' || s[start] == '\n' || s[start] == '\r')
      invariant 0 <= start <= end && forall m | 0 <= m < start :: Blank(s[m])
    {
      start := start + 1;
    }
    while end > start && (s[end - 1] == ' ' || s[end - 1] == '\t' || s[end - 1] == '\n' || s[end - 1] == '\r')
      invariant start <= end <= |s| && forall m | end <= m < |s| :: Blank(s[m])
      invariant start < end ==> !Blank(s[start])
    {
      end := end - 1;
    }
    TrimIsUnique(Blank, s, start, end);
    return s[start..end];
  }

  /** What trimming leaves: a slice with none of the four characters at its ends and only those around it. */
  lemma TrimSpaceIs(s: string) returns (i: nat, j: nat)
    ensures i <= j <= |s| && Trim(Blank, s) == s[i..j]
    ensures forall m | 0 <= m < i || j <= m < |s| :: s[m] == ' ' || s[m] == '\t' || s[m] == '\n' || s[m] == '\r'
    ensures i < j ==> s[i] != ' ' && s[i] != '\t' && s[i] != '\n' && s[i] != '\r'
    ensures i < j ==> s[j - 1] != ' ' && s[j - 1] != '\t' && s[j - 1] != '\n' && s[j - 1] != '\r'
  {
    i, j := TrimIsSlice(Blank, s);
  }

  /** Each part trimmed, blanks dropped. */
  function Keep(ws: char -> bool, parts: seq<string>): seq<string> {
    if parts == [] then []
    else
      var t := Trim(ws, parts[|parts| - 1]);
      Keep(ws, parts[..|parts| - 1]) + if t == [] then [] else [t]
  }

  /** splitAndTrim */
  method SplitAndTrim(s: string, sep: string) returns (result: seq<string>)
    ensures result == Keep(Blank, Split(s, sep))
  {
    result := [];
    var parts := SplitString(s, sep);
    for i := 0 to |parts|
      invariant result == Keep(Blank, parts[..i])
    {
      var trimmed := TrimSpace(parts[i]);
      assert parts[..i + 1][..i] == parts[..i];
      if trimmed != "" {
        result := result + [trimmed];
      }
    }
    assert parts[..|parts|] == parts;
  }

  /** splitBrokers of the provisioner; strings.Split cuts at the same places, strings.TrimSpace trims more. */
  method SplitBrokers(csv: string) returns (brokers: seq<string>)
    ensures brokers == Keep(UnicodeSpace, Split(csv, ","))
  {
    brokers := [];
    var parts := Split(csv, ",");
    for i := 0 to |parts|
      invariant brokers == Keep(UnicodeSpace, parts[..i])
    {
      var b := Trim(UnicodeSpace, parts[i]);
      assert parts[..i + 1][..i] == parts[..i];
      if b != "" {
        brokers := brokers + [b];
      }
    }
    assert parts[..|parts|] == parts;
  }

  /** How many of the first `n` parts are not blank. */
  function NotBlank(ws: char -> bool, parts: seq<string>, n: nat): nat
    requires n <= |parts|
  {
    if n == 0 then 0 else NotBlank(ws, parts, n - 1) + if |Trim(ws, parts[n - 1])| > 0 then 1 else 0
  }

  lemma KeepSnoc(ws: char -> bool, front: seq<string>, x: string)
    ensures Keep(ws, front + [x]) == Keep(ws, front) + if |Trim(ws, x)| > 0 then [Trim(ws, x)] else []
  {
    assert (front + [x])[..|front|] == front;
  }

  lemma {:induction false} KeepLength(ws: char -> bool, parts: seq<string>, n: nat)
    requires n <= |parts|
    ensures |Keep(ws, parts[..n])| == NotBlank(ws, parts, n)
  {
    if n > 0 {
      LastSplitsOff(parts, n);
      KeepSnoc(ws, parts[..n - 1], parts[n - 1]);
      KeepLength(ws, parts, n - 1);
    }
  }

  lemma {:induction false} KeepPrefix(ws: char -> bool, parts: seq<string>, n: nat)
    requires n <= |parts|
    ensures Keep(ws, parts[..n]) <= Keep(ws, parts[..|parts|])
    decreases |parts| - n
  {
    if n < |parts| {
      LastSplitsOff(parts, n + 1);
      KeepSnoc(ws, parts[..n], parts[n]);
      KeepPrefix(ws, parts, n + 1);
    }
  }

  lemma NextOfPrefix<T>(front: seq<T>, x: T, whole: seq<T>)
    requires front + [x] <= whole
    ensures |front| < |whole| && whole[|front|] == x
  {
    assert whole[|front|] == (front + [x])[|front|];
  }

  /** Element by element: every part that is not blank is kept, trimmed, in its order, and nothing else is. */
  lemma KeepIs(ws: char -> bool, parts: seq<string>, i: nat)
    requires i < |parts|
    ensures |Keep(ws, parts)| == NotBlank(ws, parts, |parts|)
    ensures |Trim(ws, parts[i])| > 0 ==>
      && NotBlank(ws, parts, i) < |Keep(ws, parts)|
      && Keep(ws, parts)[NotBlank(ws, parts, i)] == Trim(ws, parts[i])
  {
    assert parts[..|parts|] == parts;
    KeepLength(ws, parts, |parts|);
    KeepLength(ws, parts, i);
    if |Trim(ws, parts[i])| > 0 {
      LastSplitsOff(parts, i + 1);
      KeepSnoc(ws, parts[..i], parts[i]);
      KeepPrefix(ws, parts, i + 1);
      NextOfPrefix(Keep(ws, parts[..i]), Trim(ws, parts[i]), Keep(ws, parts));
    }
  }

  /** A list of canonical elements: not empty, nothing to trim, no separator inside. */
  ghost predicate Canonical(ws: char -> bool, c: char, list: seq<string>) {
    forall x | x in list :: x != [] && Trimmed(ws, x) && c !in x
  }

  lemma {:induction false} KeepIsCanonical(ws: char -> bool, c: char, parts: seq<string>)
    requires forall p | p in parts :: c !in p
    ensures Canonical(ws, c, Keep(ws, parts))
  {
    if parts != [] {
      var front, last := parts[..|parts| - 1], parts[|parts| - 1];
      assert last in parts && forall p | p in front :: p in parts;
      KeepIsCanonical(ws, c, front);
      var i, j := TrimIsSlice(ws, last);
    }
  }

  /** An element that trimming leaves as it is, and that is kept. */
  predicate IsClean(ws: char -> bool, x: string) {
    |x| > 0 && Trim(ws, x) == x
  }

  lemma KeepStep(ws: char -> bool, front: seq<string>, x: string)
    requires IsClean(ws, x) && Keep(ws, front) == front
    ensures Keep(ws, front + [x]) == front + [x]
  {
    assert (front + [x])[..|front|] == front;
  }

  lemma LastSplitsOff<T>(list: seq<T>, n: nat)
    requires 0 < n <= |list|
    ensures list[..n] == list[..n - 1] + [list[n - 1]]
  {
  }

  lemma {:induction false} KeepOfClean(ws: char -> bool, list: seq<string>, n: nat)
    requires n <= |list| && forall i: nat | i < |list| :: IsClean(ws, list[i])
    ensures Keep(ws, list[..n]) == list[..n]
  {
    if n > 0 {
      KeepOfClean(ws, list, n - 1);
      assert IsClean(ws, list[n - 1]);
      KeepStep(ws, list[..n - 1], list[n - 1]);
      LastSplitsOff(list, n);
    }
  }

  lemma KeepOfCanonical(ws: char -> bool, c: char, list: seq<string>)
    requires Canonical(ws, c, list)
    ensures Keep(ws, list) == list
  {
    forall i: nat | i < |list|
      ensures IsClean(ws, list[i])
    {
      assert list[i] in list;
      TrimOfTrimmed(ws, list[i]);
    }
    KeepOfClean(ws, list, |list|);
    assert list[..|list|] == list;
  }

  /** splitAndTrim is a canonicaliser: clean elements, and re-joining and parsing again changes nothing. */
  lemma SplitAndTrimIsCanonical(s: string, c: char)
    ensures Canonical(Blank, c, Keep(Blank, Split(s, [c])))
    ensures var r := Keep(Blank, Split(s, [c])); Keep(Blank, Split(Join(r, [c]), [c])) == r
  {
    var parts := Split(s, [c]);
    PartsAreFree(s, [c]);
    forall p | p in parts
      ensures c !in p
    {
      if c in p {
        var j: nat :| j < |p| && p[j] == c;
        OneCharOccurs(p, c, j);
      }
    }
    KeepIsCanonical(Blank, c, parts);
    var r := Keep(Blank, parts);
    if r == [] {
      assert Join(r, [c]) == [] && Split([], [c]) == [[]];
      assert Keep(Blank, [[]]) == [];
    } else {
      OneCharSplitAfterJoinIff(r, c);
      KeepOfCanonical(Blank, c, r);
    }
  }

  // ---- two parsers of one list ----

  function Total(list: seq<string>): nat {
    if list == [] then 0 else Total(list[..|list| - 1]) + |list[|list| - 1]|
  }

  /** The API's trimming leaves nothing that the provisioner's would still trim. */
  predicate Agrees(p: string) {
    Trimmed(UnicodeSpace, Trim(Blank, p))
  }

  lemma TrimsCompare(p: string)
    ensures Agrees(p) ==> Trim(UnicodeSpace, p) == Trim(Blank, p)
    ensures !Agrees(p) ==> |Trim(UnicodeSpace, p)| < |Trim(Blank, p)|
  {
    var i, j := TrimIsSlice(Blank, p);
    var a, b := TrimIsSlice(UnicodeSpace, p);
    assert forall c :: Blank(c) ==> UnicodeSpace(c);
    if Agrees(p) {
      TrimIsUnique(UnicodeSpace, p, i, j);
    } else if a < b {
      assert !UnicodeSpace(p[a]) && !UnicodeSpace(p[b - 1]);
      assert i <= a && b <= j;
    }
  }

  lemma {:induction false} KeepsCompare(parts: seq<string>)
    ensures (forall p | p in parts :: Agrees(p)) ==> Keep(UnicodeSpace, parts) == Keep(Blank, parts)
    ensures !(forall p | p in parts :: Agrees(p)) ==> Total(Keep(UnicodeSpace, parts)) < Total(Keep(Blank, parts))
    ensures Total(Keep(UnicodeSpace, parts)) <= Total(Keep(Blank, parts))
  {
    if parts != [] {
      var front, last := parts[..|parts| - 1], parts[|parts| - 1];
      assert forall p :: p in parts <==> p in front || p == last;
      KeepsCompare(front);
      TrimsCompare(last);
      TotalKeep(UnicodeSpace, parts);
      TotalKeep(Blank, parts);
    }
  }

  lemma TotalAppend(list: seq<string>, x: string)
    ensures Total(list + [x]) == Total(list) + |x|
  {
  }

  lemma TotalKeep(ws: char -> bool, parts: seq<string>)
    requires parts != []
    ensures Total(Keep(ws, parts)) == Total(Keep(ws, parts[..|parts| - 1])) + |Trim(ws, parts[|parts| - 1])|
  {
    var front, t := Keep(ws, parts[..|parts| - 1]), Trim(ws, parts[|parts| - 1]);
    if t == [] {
      assert front + [] == front;
    } else {
      TotalAppend(front, t);
    }
  }

  /** The two services read the same broker list if and only if no part shows them different white space at its ends. */
  lemma BrokerListsAgreeIff(csv: string)
    ensures Keep(Blank, Split(csv, ",")) == Keep(UnicodeSpace, Split(csv, ",")) <==>
      forall p | p in Split(csv, ",") :: Agrees(p)
  {
    KeepsCompare(Split(csv, ","));
  }

  lemma {:induction false} CutsOnlyHave(s: string, sep: string, start: nat, parts: seq<string>, p: string, c: char)
    requires Cuts(s, sep, start, parts) && p in parts && c in p
    ensures c in s
    decreases |parts|
  {
    if p == parts[0] {
      SliceOnlyHas(s, start, start + |p|, c);
    } else {
      CutsOnlyHave(s, sep, start + |parts[0]| + |sep|, parts[1..], p, c);
    }
  }

  lemma SliceOnlyHas(s: string, i: nat, j: nat, c: char)
    requires i <= j <= |s| && c in s[i..j]
    ensures c in s
  {
  }

  /** In particular they agree on every input whose only white space is space, tab, CR or LF. */
  lemma BrokerListsAgree(csv: string)
    requires forall c | c in csv && UnicodeSpace(c) :: Blank(c)
    ensures Keep(Blank, Split(csv, ",")) == Keep(UnicodeSpace, Split(csv, ","))
  {
    SplitCuts(csv, ",");
    forall p | p in Split(csv, ",")
      ensures Agrees(p)
    {
      var i, j := TrimIsSlice(Blank, p);
      forall c | c in p && UnicodeSpace(c)
        ensures Blank(c)
      {
        CutsOnlyHave(csv, ",", 0, Split(csv, ","), p, c);
      }
    }
    BrokerListsAgreeIff(csv);
  }

  /** They differ on a list with a vertical tab around a broker. */
  lemma BrokerListsCanDiffer()
    ensures Keep(Blank, Split("\U{000B}a:9092", ",")) != Keep(UnicodeSpace, Split("\U{000B}a:9092", ","))
  {
    var csv := "\U{000B}a:9092";
    assert csv[0] == '\U{000B}';
    OneCharSplitAfterJoinIff([csv], ',');
    assert Join([csv], ",") == csv && Split(csv, ",") == [csv];
    TrimOfTrimmed(Blank, csv);
    assert csv in Split(csv, ",") && !Agrees(csv);
    BrokerListsAgreeIff(csv);
  }
}
