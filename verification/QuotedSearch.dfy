/**
  Searching a rendered text for a quoted word, for any character escaping that never leaves a
  bare quote and any word the escaping writes as it stands.
*/
module QuotedSearch {
  import opened RecordJson

  function Last(s: string): char
    requires |s| > 0
  {
    s[|s| - 1]
  }

  /** One character is written without adding or hiding a bare quote or a character of the word. */
  predicate CodesChar(f: char -> string, word: string, c: char) {
    && |f(c)| > 0
    && (c in word || Last(f(c)) in word ==> f(c) == [c])
    && if c == '"' then f(c) == ['\\', '"'] else '"' !in f(c)
  }

  ghost predicate Coding(f: char -> string, word: string) {
    && |word| > 0 && '"' !in word && '\\' !in word
    && forall c :: CodesChar(f, word, c)
  }

  lemma {:induction false} EncodedQuotes(f: char -> string, word: string, s: string, i: nat)
    requires Coding(f, word)
    requires i < |Encode(f, s)| && Encode(f, s)[i] == '"'
    ensures i > 0 && Encode(f, s)[i - 1] == '\\'
  {
    var front := Encode(f, s[..|s| - 1]);
    if i < |front| {
      EncodedQuotes(f, word, s[..|s| - 1], i);
    } else {
      assert CodesChar(f, word, Last(s));
      assert f(Last(s))[i - |front|] == '"';
    }
  }

  lemma {:induction false} EncodeSuffix(f: char -> string, word: string, s: string, suffix: string)
    requires Coding(f, word)
    requires forall c | c in suffix :: c in word
    ensures Encode(f, s + suffix) == Encode(f, s) + suffix
  {
    if |suffix| == 0 {
      assert s + suffix == s;
    } else {
      var front, c := suffix[..|suffix| - 1], Last(suffix);
      EncodeSuffix(f, word, s, front);
      assert (s + suffix)[..|s + suffix| - 1] == s + front;
      assert suffix == front + [c];
      assert CodesChar(f, word, c);
    }
  }

  lemma DropLast(a: string, pre: string, front: string, c: char)
    requires a + [c] == pre + (front + [c])
    ensures a == pre + front
  {
    assert a == (a + [c])[..|a|] == (pre + (front + [c]))[..|a|] == pre + front;
  }

  /** An encoded text that ends in a character of the word encodes a string that does. */
  lemma LastOfEncoded(f: char -> string, word: string, s: string)
    requires Coding(f, word) && |Encode(f, s)| > 0 && Last(Encode(f, s)) in word
    ensures |s| > 0 && Last(s) == Last(Encode(f, s))
    ensures Encode(f, s) == Encode(f, s[..|s| - 1]) + [Last(s)]
  {
    assert CodesChar(f, word, Last(s));
    assert Last(f(Last(s))) == Last(Encode(f, s));
  }

  lemma {:induction false} DecodeSuffix(f: char -> string, word: string, s: string, pre: string, suffix: string)
    requires Coding(f, word)
    requires forall c | c in suffix :: c in word
    requires Encode(f, s) == pre + suffix
    ensures |s| >= |suffix|
    ensures s[|s| - |suffix|..] == suffix && Encode(f, s[..|s| - |suffix|]) == pre
  {
    if |suffix| == 0 {
      assert s[..|s|] == s;
    } else {
      var c, front, shorter := Last(suffix), suffix[..|suffix| - 1], s[..|s| - 1];
      assert suffix == front + [c];
      LastOfEncoded(f, word, s);
      DropLast(Encode(f, shorter), pre, front, c);
      DecodeSuffix(f, word, shorter, pre, front);
      assert shorter[..|s| - |suffix|] == s[..|s| - |suffix|];
      assert s[|s| - |suffix|..] == shorter[|s| - |suffix|..] + [c];
    }
  }

  lemma EncodeKeepsShows(f: char -> string, word: string, s: string)
    requires Coding(f, word) && Shows(word, s)
    ensures Shows(word, Encode(f, s))
  {
    var t := s[..|s| - |word|];
    assert s == t + word;
    EncodeSuffix(f, word, t, word);
    if |t| > 0 {
      assert Last(t) == '"';
      assert CodesChar(f, word, Last(t));
      assert Last(Encode(f, t)) == Last(f(Last(t))) == '"';
    } else {
      assert Encode(f, t) == [];
    }
  }

  lemma EncodeAddsNoShows(f: char -> string, word: string, s: string)
    requires Coding(f, word) && Shows(word, Encode(f, s))
    ensures Shows(word, s)
  {
    var e := Encode(f, s);
    var pre := e[..|e| - |word|];
    assert e == pre + word;
    DecodeSuffix(f, word, s, pre, word);
    var t := s[..|s| - |word|];
    if |t| > 0 {
      assert CodesChar(f, word, Last(t));
      assert Last(pre) == Last(f(Last(t)));
    } else {
      assert s[0..] == s;
    }
  }

  /** Escaping neither adds nor hides an occurrence of the word after a quote. */
  lemma EncodeShows(f: char -> string, word: string, s: string)
    requires Coding(f, word)
    ensures Shows(word, s) <==> Shows(word, Encode(f, s))
  {
    if Shows(word, s) { EncodeKeepsShows(f, word, s); }
    if Shows(word, Encode(f, s)) { EncodeAddsNoShows(f, word, s); }
  }

  // ---- pieces ----

  predicate CleanPiece(word: string, p: Piece)
    requires |word| > 0
  {
    p.Punct? ==> '"' !in p.text && word[0] !in p.text
  }

  ghost predicate Clean(word: string, ps: seq<Piece>)
    requires |word| > 0
  {
    forall p | p in ps :: CleanPiece(word, p)
  }

  predicate PieceShows(word: string, p: Piece) {
    p.Quoted? && Shows(word, p.content)
  }

  ghost predicate SomeShows(word: string, ps: seq<Piece>) {
    exists p | p in ps :: PieceShows(word, p)
  }

  lemma {:induction false} RenderStart(f: char -> string, word: string, ps: seq<Piece>)
    requires Coding(f, word) && Clean(word, ps)
    ensures |Render(f, ps)| == 0 || Render(f, ps)[0] != word[0]
  {
    if |ps| > 0 {
      assert CleanPiece(word, ps[0]);
      RenderStart(f, word, ps[1..]);
    }
  }

  lemma AtChars(text: string, pat: string, q: nat, i: nat)
    requires At(text, pat, q) && i < |pat|
    ensures text[q + i] == pat[i]
  {
  }

  /** A hit that starts inside a quoted string ends at that string's closing quote. */
  lemma HitEnds(f: char -> string, word: string, s: string, rest: string, q: nat)
    requires Coding(f, word)
    requires |rest| == 0 || rest[0] != word[0]
    requires q < |Encode(f, s)| + 2 && At(InQuotes(Encode(f, s)) + rest, InQuotes(word), q)
    ensures q + |word| == |Encode(f, s)|
  {
    var e, text, needle := Encode(f, s), InQuotes(Encode(f, s)) + rest, InQuotes(word);
    var close, end := |e| + 1, q + |word| + 1;
    AtChars(text, needle, q, 1);
    assert q != close;
    if end < close {
      AtChars(text, needle, q, |word| + 1);
      AtChars(text, needle, q, |word|);
      EncodedQuotes(f, word, s, end - 1);
      assert false;
    }
    if close < end {
      AtChars(text, needle, q, close - q);
      assert false;
    }
  }

  /** The text before that quote ends in the word, right after another quote. */
  lemma HitShows(e: string, word: string, rest: string, q: nat)
    requires |word| > 0 && q + |word| == |e| && At(InQuotes(e) + rest, InQuotes(word), q)
    ensures Shows(word, e)
  {
    var text, needle := InQuotes(e) + rest, InQuotes(word);
    AtChars(text, needle, q, 0);
    forall i: nat | i < |word|
      ensures e[q..][i] == word[i]
    {
      AtChars(text, needle, q, i + 1);
      assert needle[i + 1] == word[i];
    }
    assert e[q..] == word;
  }

  /** A hit that starts inside a piece makes that piece a quoted string that shows the word. */
  lemma HeadHit(f: char -> string, word: string, p: Piece, rest: string, q: nat)
    requires Coding(f, word) && CleanPiece(word, p)
    requires |rest| == 0 || rest[0] != word[0]
    requires q < |PieceText(f, p)| && At(PieceText(f, p) + rest, InQuotes(word), q)
    ensures PieceShows(word, p)
  {
    AtChars(PieceText(f, p) + rest, InQuotes(word), q, 0);
    assert p.Quoted?;
    HitEnds(f, word, p.content, rest, q);
    HitShows(Encode(f, p.content), word, rest, q);
    EncodeShows(f, word, p.content);
  }

  lemma ShownEnds(e: string, word: string)
    requires |word| > 0 && Shows(word, e)
    ensures At(InQuotes(e), InQuotes(word), |e| - |word|)
  {
    var text, needle, q := InQuotes(e), InQuotes(word), |e| - |word|;
    assert e[q..] == word;
    forall i: nat | i < |needle|
      ensures text[q..q + |needle|][i] == needle[i]
    {
      assert 0 < i <= |word| ==> text[q + i] == e[q..][i - 1];
    }
    assert text[q..q + |needle|] == needle;
  }

  lemma QuotedHit(f: char -> string, word: string, s: string)
    requires Coding(f, word) && Shows(word, s)
    ensures Contains(InQuotes(Encode(f, s)), InQuotes(word))
  {
    EncodeShows(f, word, s);
    ShownEnds(Encode(f, s), word);
  }

  lemma ContainsLeft(head: string, rest: string, pat: string)
    requires Contains(head, pat)
    ensures Contains(head + rest, pat)
  {
    var i: nat :| i <= |head| && At(head, pat, i);
    assert (head + rest)[i..i + |pat|] == head[i..i + |pat|];
    assert At(head + rest, pat, i);
  }

  lemma ContainsRight(head: string, rest: string, pat: string)
    requires Contains(rest, pat)
    ensures Contains(head + rest, pat)
  {
    var i: nat :| i <= |rest| && At(rest, pat, i);
    assert (head + rest)[|head| + i..|head| + i + |pat|] == rest[i..i + |pat|];
    assert At(head + rest, pat, |head| + i);
  }

  lemma {:induction false} ShownIsFound(f: char -> string, word: string, ps: seq<Piece>, p: Piece)
    requires Coding(f, word)
    requires p in ps && PieceShows(word, p)
    ensures Contains(Render(f, ps), InQuotes(word))
  {
    var head, rest := PieceText(f, ps[0]), Render(f, ps[1..]);
    if p == ps[0] {
      QuotedHit(f, word, p.content);
      ContainsLeft(head, rest, InQuotes(word));
    } else {
      ShownIsFound(f, word, ps[1..], p);
      ContainsRight(head, rest, InQuotes(word));
    }
  }

  lemma ShownInTail(word: string, ps: seq<Piece>)
    requires |ps| > 0 && SomeShows(word, ps[1..])
    ensures SomeShows(word, ps)
  {
  }

  lemma HitSplits(f: char -> string, ps: seq<Piece>, pat: string, q: nat)
    requires At(Render(f, ps), pat, q) && |pat| > 0
    ensures |ps| > 0 && At(PieceText(f, ps[0]) + Render(f, ps[1..]), pat, q)
  {
  }

  lemma CleanTail(f: char -> string, word: string, ps: seq<Piece>)
    requires Coding(f, word) && Clean(word, ps) && |ps| > 0
    ensures CleanPiece(word, ps[0]) && Clean(word, ps[1..])
    ensures |Render(f, ps[1..])| == 0 || Render(f, ps[1..])[0] != word[0]
  {
    RenderStart(f, word, ps[1..]);
  }

  lemma ShownInHead(word: string, ps: seq<Piece>)
    requires |ps| > 0 && PieceShows(word, ps[0])
    ensures SomeShows(word, ps)
  {
  }

  lemma {:induction false} FoundIsShown(f: char -> string, word: string, ps: seq<Piece>, q: nat)
    requires Coding(f, word) && Clean(word, ps)
    requires At(Render(f, ps), InQuotes(word), q)
    ensures SomeShows(word, ps)
  {
    var pat := InQuotes(word);
    HitSplits(f, ps, pat, q);
    var head, rest := PieceText(f, ps[0]), Render(f, ps[1..]);
    CleanTail(f, word, ps);
    if q < |head| {
      HeadHit(f, word, ps[0], rest, q);
      ShownInHead(word, ps);
    } else {
      assert At(rest, pat, q - |head|) by { RestHit(head, rest, pat, q); }
      FoundIsShown(f, word, ps[1..], q - |head|);
      ShownInTail(word, ps);
    }
  }

  /** The search hits a rendered text exactly when one of its quoted strings shows the word. */
  lemma RenderSearch(f: char -> string, word: string, ps: seq<Piece>)
    requires Coding(f, word) && Clean(word, ps)
    ensures Contains(Render(f, ps), InQuotes(word)) <==> SomeShows(word, ps)
  {
    if SomeShows(word, ps) {
      var p :| p in ps && PieceShows(word, p);
      ShownIsFound(f, word, ps, p);
    }
    if Contains(Render(f, ps), InQuotes(word)) {
      var q: nat :| q <= |Render(f, ps)| && At(Render(f, ps), InQuotes(word), q);
      FoundIsShown(f, word, ps, q);
    }
  }

  lemma RestHit(head: string, rest: string, pat: string, q: nat)
    requires q >= |head| && At(head + rest, pat, q)
    ensures At(rest, pat, q - |head|)
  {
  }

  lemma SomeShowsConcat(word: string, a: seq<Piece>, b: seq<Piece>)
    requires |word| > 0
    ensures SomeShows(word, a + b) <==> SomeShows(word, a) || SomeShows(word, b)
    ensures Clean(word, a) && Clean(word, b) ==> Clean(word, a + b)
  {
  }

  lemma PairShows(word: string, name: string, after: string)
    requires |word| > 0 && '"' !in after && word[0] !in after
    ensures Clean(word, [Quoted(name), Punct(after)])
    ensures SomeShows(word, [Quoted(name), Punct(after)]) <==> Shows(word, name)
  {
    assert [Quoted(name), Punct(after)][0] == Quoted(name);
    assert Shows(word, name) <==> PieceShows(word, Quoted(name));
  }

  lemma MemberShows(word: string, name: string, value: string, after: string)
    requires |word| > 0 && '"' !in after && word[0] !in after && word[0] != ':'
    ensures Clean(word, Member(name, value, after))
    ensures SomeShows(word, Member(name, value, after)) <==> Shows(word, name) || Shows(word, value)
  {
    PairShows(word, name, ":");
    PairShows(word, value, after);
    SomeShowsConcat(word, [Quoted(name), Punct(":")], [Quoted(value), Punct(after)]);
    assert Member(name, value, after) == [Quoted(name), Punct(":")] + [Quoted(value), Punct(after)];
  }

  lemma TwoMembersShow(word: string, n1: string, v1: string, after1: string, n2: string, v2: string, after2: string)
    requires |word| > 0 && word[0] != ':'
    requires '"' !in after1 && word[0] !in after1 && '"' !in after2 && word[0] !in after2
    ensures Clean(word, Member(n1, v1, after1) + Member(n2, v2, after2))
    ensures SomeShows(word, Member(n1, v1, after1) + Member(n2, v2, after2)) <==>
      Shows(word, n1) || Shows(word, v1) || Shows(word, n2) || Shows(word, v2)
  {
    MemberShows(word, n1, v1, after1);
    MemberShows(word, n2, v2, after2);
    SomeShowsConcat(word, Member(n1, v1, after1), Member(n2, v2, after2));
  }

  lemma PunctHides(word: string, text: string)
    requires |word| > 0 && '"' !in text && word[0] !in text
    ensures Clean(word, [Punct(text)]) && !SomeShows(word, [Punct(text)])
  {
  }
}
