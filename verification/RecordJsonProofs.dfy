/** The release script's text search finds exactly the records that look in flight. */
module RecordJsonProofs {
  import opened Records
  import opened RecordJson
  import opened QuotedSearch

  lemma EscapeCharIsCoding()
    ensures Coding(EscapeChar, WORD)
  {
    WordChars('"');
    WordChars('\\');
    forall c: char
      ensures CodesChar(EscapeChar, WORD, c)
    {
      EscapeCharWord(c);
      EscapeCharQuote(c);
      WordChars(c);
      WordChars(Last(EscapeChar(c)));
    }
  }

  predicate WordChar(c: char) {
    c == 'I' || c == 'N' || c == '_' || c == 'F' || c == 'L' || c == 'G' || c == 'H' || c == 'T'
  }

  lemma WordChars(c: char)
    ensures c in WORD <==> WordChar(c)
  {
  }

  lemma EscapeCharWord(c: char)
    ensures EscapeChar(c) != []
    ensures WordChar(c) ==> EscapeChar(c) == [c]
    ensures WordChar(Last(EscapeChar(c))) ==> EscapeChar(c) == [c]
  {
    HexDigitIsHex(c as int % 16);
  }

  lemma HexDigitIsHex(n: nat)
    requires n < 16
    ensures '0' <= HexDigit(n) <= '9' || 'a' <= HexDigit(n) <= 'f'
  {
  }

  lemma EscapeCharQuote(c: char)
    ensures if c == '"' then EscapeChar(c) == ['\\', '"'] else '"' !in EscapeChar(c)
  {
  }

  // ---- the record's own strings never show the word ----

  lemma SuffixChars(s: string, word: string, i: nat)
    requires i < |word| <= |s| && s[|s| - |word|..] == word
    ensures s[|s| - |word| + i] == word[i]
  {
    assert s[|s| - |word|..][i] == word[i];
  }

  lemma ShowsWordShape(s: string)
    requires ShowsWord(s)
    ensures |s| >= 9 && s[|s| - 1] == 'T' && '_' in s
  {
    assert |WORD| == 9 && WORD[2] == '_' && WORD[8] == 'T';
    assert |s| >= 9 && s[|s| - 9..] == WORD;
    SuffixChars(s, WORD, 2);
    SuffixChars(s, WORD, 8);
  }

  lemma Base64CharIsNotUnderscore(n: nat)
    requires n < 64
    ensures Base64Char(n) != '_'
  {
  }

  lemma {:induction false} Base64Alphabet(b: seq<Byte>)
    ensures '_' !in Base64(b)
  {
    forall n: nat | n < 64 ensures Base64Char(n) != '_' { Base64CharIsNotUnderscore(n); }
    if |b| > 2 {
      Base64Alphabet(b[3..]);
    }
  }

  predicate Plain(s: string) {
    '"' !in s && 'I' !in s && '_' !in s
  }

  lemma {:induction false} DigitsArePlain(n: nat)
    ensures Plain(Digits(n))
  {
    HexDigitIsHex(n % 10);
    if n >= 10 {
      DigitsArePlain(n / 10);
    }
  }

  lemma {:induction false} PadIsPlain(n: nat, width: nat)
    ensures Plain(Pad(n, width))
  {
    DigitsArePlain(n);
    HexDigitIsHex(n % 10);
    if width > 1 {
      PadIsPlain(n / 10, width - 1);
    }
  }

  lemma {:induction false} FractionIsPlain(n: nat, width: nat)
    ensures Plain(Fraction(n, width))
  {
    PadIsPlain(n, width);
    if n != 0 && n % 10 == 0 && width > 1 {
      FractionIsPlain(n / 10, width - 1);
    }
  }

  lemma {:induction false} HexTextIsPlain(b: seq<Byte>)
    ensures Plain(HexText(b))
  {
    if b != [] {
      HexTextIsPlain(b[..|b| - 1]);
      HexDigitIsHex(b[|b| - 1] as nat / 16);
      HexDigitIsHex(b[|b| - 1] as nat % 16);
    }
  }

  lemma StampTextIsPlain(t: Stamp)
    ensures Plain(StampText(t))
  {
    PadIsPlain(t.year, 4);
    PadIsPlain(t.month, 2);
    PadIsPlain(t.day, 2);
    PadIsPlain(t.hour, 2);
    PadIsPlain(t.minute, 2);
    PadIsPlain(t.second, 2);
    FractionIsPlain(t.nano, 9);
  }

  lemma {:induction false} HeaderPiecesShow(word: string, headers: map<string, string>, order: seq<string>)
    requires forall k | k in order :: k in headers
    requires word != [] && word[0] !in [':', ',', '}']
    ensures Clean(word, HeaderPieces(headers, order))
    ensures SomeShows(word, HeaderPieces(headers, order)) <==>
      exists k | k in order :: Shows(word, k) || Shows(word, headers[k])
  {
    if order != [] {
      var key := order[0];
      var mine := Member(key, headers[key], if |order| == 1 then "}" else ",");
      HeaderPiecesShow(word, headers, order[1..]);
      MemberShows(word, key, headers[key], if |order| == 1 then "}" else ",");
      SomeShowsConcat(word, mine, HeaderPieces(headers, order[1..]));
      assert forall k :: k in order <==> k == key || k in order[1..];
    }
  }

  /** Hash, timestamps and base64 body can never show the word; the state shows it when it is IN_FLIGHT. */
  lemma OwnStringsHideWord(rec: Record)
    ensures !ShowsWord(HexText(rec.requestHash))
    ensures !ShowsWord(StampText(rec.createdAt)) && !ShowsWord(StampText(rec.expiresAt))
    ensures !ShowsWord(Base64(rec.body))
    ensures ShowsWord(StateText(rec.state)) <==> rec.state == InFlight
  {
    Base64Alphabet(rec.body);
    HexTextIsPlain(rec.requestHash);
    StampTextIsPlain(rec.createdAt);
    StampTextIsPlain(rec.expiresAt);
    if ShowsWord(HexText(rec.requestHash)) { ShowsWordShape(HexText(rec.requestHash)); }
    if ShowsWord(StampText(rec.createdAt)) { ShowsWordShape(StampText(rec.createdAt)); }
    if ShowsWord(StampText(rec.expiresAt)) { ShowsWordShape(StampText(rec.expiresAt)); }
    if ShowsWord(Base64(rec.body)) { ShowsWordShape(Base64(rec.body)); }
    if ShowsWord("COMPLETED") { ShowsWordShape("COMPLETED"); }
  }

  /** The envelope's member names are lower-case. */
  lemma MemberNamesHideWord(name: string)
    requires name != [] && Last(name) != 'T'
    ensures !ShowsWord(name)
  {
  }

  lemma FixedHeadShows(rec: Record)
    ensures Clean(WORD, FixedHead(rec))
    ensures SomeShows(WORD, FixedHead(rec)) <==> rec.state == InFlight
  {
    MemberNamesHideWord("state");
    MemberNamesHideWord("request_hash");
    OwnStringsHideWord(rec);
    TwoMembersShow(WORD, "state", StateText(rec.state), ",", "request_hash", HexText(rec.requestHash), ",");
    PunctHides(WORD, "{");
    SomeShowsConcat(WORD, [Punct("{")],
      Member("state", StateText(rec.state), ",") + Member("request_hash", HexText(rec.requestHash), ","));
  }

  lemma FixedTailHides(rec: Record)
    ensures Clean(WORD, FixedTail(rec)) && !SomeShows(WORD, FixedTail(rec))
  {
    MemberNamesHideWord("created_at");
    MemberNamesHideWord("expires_at");
    OwnStringsHideWord(rec);
    TwoMembersShow(WORD, "created_at", StampText(rec.createdAt), ",", "expires_at", StampText(rec.expiresAt), "}");
  }

  lemma StatusHides(rec: Record)
    ensures Clean(WORD, StatusPieces(rec)) && !SomeShows(WORD, StatusPieces(rec))
  {
    MemberNamesHideWord("status_code");
    var after := ":" + Digits(rec.statusCode) + ",";
    assert '"' !in after && 'I' !in after by { DigitsArePlain(rec.statusCode); }
    PairShows(WORD, "status_code", after);
  }

  lemma BodyHides(rec: Record)
    ensures Clean(WORD, BodyPieces(rec)) && !SomeShows(WORD, BodyPieces(rec))
  {
    MemberNamesHideWord("body");
    OwnStringsHideWord(rec);
    MemberShows(WORD, "body", Base64(rec.body), ",");
  }

  lemma HeadersMemberShow(rec: Record, order: seq<string>)
    requires Lists(order, rec.headers)
    ensures Clean(WORD, HeadersMember(rec, order))
    ensures SomeShows(WORD, HeadersMember(rec, order)) <==>
      exists k | k in rec.headers :: ShowsWord(k) || ShowsWord(rec.headers[k])
  {
    if order != [] {
      var open, members := [Quoted("headers"), Punct(":{")], HeaderPieces(rec.headers, order);
      HeaderPiecesShow(WORD, rec.headers, order);
      MemberNamesHideWord("headers");
      PairShows(WORD, "headers", ":{");
      SomeShowsConcat(WORD, open, members);
      SomeShowsConcat(WORD, open + members, [Punct(",")]);
    }
  }

  /** For every order of the header keys, the search hits exactly the records that look in flight. */
  lemma SearchIsExact(rec: Record, order: seq<string>)
    requires Lists(order, rec.headers)
    ensures Contains(Marshal(rec, order), NEEDLE) <==> LooksInFlight(rec)
  {
    var a, b, c, d, e := FixedHead(rec), StatusPieces(rec), HeadersMember(rec, order), BodyPieces(rec), FixedTail(rec);
    FixedHeadShows(rec);
    StatusHides(rec);
    HeadersMemberShow(rec, order);
    BodyHides(rec);
    FixedTailHides(rec);
    SomeShowsConcat(WORD, a, b);
    SomeShowsConcat(WORD, a + b, c);
    SomeShowsConcat(WORD, a + b + c, d);
    SomeShowsConcat(WORD, a + b + c + d, e);
    EscapeCharIsCoding();
    RenderSearch(EscapeChar, WORD, a + b + c + d + e);
  }

  /** Release leaves a completed record alone if and only if none of its header strings shows the word. */
  lemma CompletedIsLeftAloneIff(existing: Record, resp: Response, expires: Stamp, order: seq<string>)
    requires Lists(order, resp.headers)
    ensures !Contains(Marshal(CompletedRecord(existing, resp, expires), order), NEEDLE) <==>
      forall k | k in resp.headers :: !ShowsWord(k) && !ShowsWord(resp.headers[k])
  {
    SearchIsExact(CompletedRecord(existing, resp, expires), order);
  }
}
