/** The idempotency record of the outbound port, and the JSON text Redis holds for it. */
module Records {
  datatype State = InFlight | Completed

  type Byte = n: int | 0 <= n < 256

  /** SHA-256 of a request body. */
  type Digest = seq<Byte>

  /** A UTC time.Time. */
  datatype Stamp = Stamp(year: nat, month: nat, day: nat, hour: nat, minute: nat, second: nat, nano: nat)

  /** What a handler produced and a replay hands back. */
  datatype Response = Response(status: nat, headers: map<string, string>, body: seq<Byte>)

  datatype Record = Record(
    state: State,
    requestHash: Digest,
    statusCode: nat,
    headers: map<string, string>,
    body: seq<Byte>,
    createdAt: Stamp,
    expiresAt: Stamp)

  /** The envelope `Reserve` marshals. */
  function InFlightRecord(hash: Digest, created: Stamp, expires: Stamp): Record {
    Record(InFlight, hash, 0, map[], [], created, expires)
  }

  /** The envelope `Complete` marshals: hash and creation time come from the record it read. */
  function CompletedRecord(existing: Record, resp: Response, expires: Stamp): Record {
    Record(Completed, existing.requestHash, resp.status, resp.headers, resp.body, existing.createdAt, expires)
  }
}

/** JSON text of a record, as encoding/json writes it, and the text search of the release script. */
module RecordJson {
  import opened Records

  // ---- text search ----

  predicate At(text: string, pat: string, i: nat) {
    i + |pat| <= |text| && text[i..i + |pat|] == pat
  }

  /** string.find(text, pat, 1, true) ~= nil */
  predicate Contains(text: string, pat: string) {
    exists i: nat | i <= |text| :: At(text, pat, i)
  }

  const WORD := "IN_FLIGHT"

  function InQuotes(word: string): string {
    ['"'] + word + ['"']
  }

  /** The literal the release script looks for, quotes included. */
  const NEEDLE := InQuotes(WORD)

  // ---- marshalling ----

  function HexDigit(n: nat): char
    requires n < 16
  {
    "0123456789abcdef"[n]
  }

  /** One character inside a JSON string (section 7 of RFC 8259, with Go's HTML-safe escapes). */
  function EscapeChar(c: char): string {
    if c == '"' then "\\\""
    else if c == '\\' then "\\\\"
    else if c == '\n' then "\\n"
    else if c == '\r' then "\\r"
    else if c == '\t' then "\\t"
    else if c as int == 8 then "\\b"
    else if c as int == 12 then "\\f"
    else if c as int < 32 then "\\u00" + [HexDigit(c as int / 16), HexDigit(c as int % 16)]
    else if c == '<' then "\\u003c"
    else if c == '>' then "\\u003e"
    else if c == '&' then "\\u0026"
    else if c as int == 0x2028 then "\\u2028"
    else if c as int == 0x2029 then "\\u2029"
    else [c]
  }

  /** A string written character by character with `f`. */
  function Encode(f: char -> string, s: string): string {
    if |s| == 0 then [] else Encode(f, s[..|s| - 1]) + f(s[|s| - 1])
  }

  function Digits(n: nat): string {
    if n < 10 then [HexDigit(n)] else Digits(n / 10) + [HexDigit(n % 10)]
  }

  /** hex.EncodeToString */
  function HexText(b: seq<Byte>): string {
    if b == [] then ""
    else HexText(b[..|b| - 1]) + [HexDigit(b[|b| - 1] as nat / 16), HexDigit(b[|b| - 1] as nat % 16)]
  }

  /** `n` in at least `width` decimal digits. */
  function Pad(n: nat, width: nat): string {
    if width <= 1 then Digits(n) else Pad(n / 10, width - 1) + [HexDigit(n % 10)]
  }

  /** A fraction without trailing zeros. */
  function Fraction(n: nat, width: nat): string {
    if n == 0 then "" else if n % 10 == 0 && width > 1 then Fraction(n / 10, width - 1) else "." + Pad(n, width)
  }

  /** Go's RFC3339Nano layout for a UTC time. */
  function StampText(t: Stamp): string {
    Pad(t.year, 4) + "-" + Pad(t.month, 2) + "-" + Pad(t.day, 2) + "T"
    + Pad(t.hour, 2) + ":" + Pad(t.minute, 2) + ":" + Pad(t.second, 2) + Fraction(t.nano, 9) + "Z"
  }

  function Base64Char(n: nat): char
    requires n < 64
  {
    if n < 26 then 'A' + n as char
    else if n < 52 then 'a' + (n - 26) as char
    else if n < 62 then '0' + (n - 52) as char
    else if n == 62 then '+' else '/'
  }

  /** Standard base64 with padding (section 4 of RFC 4648). */
  function Base64(b: seq<Byte>): string {
    if |b| == 0 then ""
    else if |b| == 1 then
      var x := b[0] as int;
      [Base64Char(x / 4), Base64Char(x % 4 * 16), '=', '=']
    else if |b| == 2 then
      var x, y := b[0] as int, b[1] as int;
      [Base64Char(x / 4), Base64Char(x % 4 * 16 + y / 16), Base64Char(y % 16 * 4), '=']
    else
      var x, y, z := b[0] as int, b[1] as int, b[2] as int;
      [Base64Char(x / 4), Base64Char(x % 4 * 16 + y / 16), Base64Char(y % 16 * 4 + z / 64), Base64Char(z % 64)]
      + Base64(b[3..])
  }

  function StateText(s: State): string {
    match s
    case InFlight => "IN_FLIGHT"
    case Completed => "COMPLETED"
  }

  /** A JSON text is a list of punctuation runs and quoted strings. */
  datatype Piece = Punct(text: string) | Quoted(content: string)

  function PieceText(f: char -> string, p: Piece): string {
    match p
    case Punct(t) => t
    case Quoted(s) => InQuotes(Encode(f, s))
  }

  function Render(f: char -> string, ps: seq<Piece>): string {
    if |ps| == 0 then "" else PieceText(f, ps[0]) + Render(f, ps[1..])
  }

  /** `"name":"value"` followed by `after`. */
  function Member(name: string, value: string, after: string): seq<Piece> {
    [Quoted(name), Punct(":"), Quoted(value), Punct(after)]
  }

  /** The header object's members, in the order `order` lists the keys. */
  function HeaderPieces(headers: map<string, string>, order: seq<string>): seq<Piece>
    requires forall k | k in order :: k in headers
  {
    if order == [] then []
    else Member(order[0], headers[order[0]], if |order| == 1 then "}" else ",") + HeaderPieces(headers, order[1..])
  }

  ghost predicate Lists(order: seq<string>, headers: map<string, string>) {
    forall k :: k in order <==> k in headers
  }

  function FixedHead(rec: Record): seq<Piece> {
    [Punct("{")] + (Member("state", StateText(rec.state), ",") + Member("request_hash", HexText(rec.requestHash), ","))
  }

  function StatusPieces(rec: Record): seq<Piece> {
    if rec.statusCode == 0 then [] else [Quoted("status_code"), Punct(":" + Digits(rec.statusCode) + ",")]
  }

  function HeadersMember(rec: Record, order: seq<string>): seq<Piece>
    requires forall k | k in order :: k in rec.headers
  {
    if order == [] then []
    else [Quoted("headers"), Punct(":{")] + HeaderPieces(rec.headers, order) + [Punct(",")]
  }

  function BodyPieces(rec: Record): seq<Piece> {
    if rec.body == [] then [] else Member("body", Base64(rec.body), ",")
  }

  function FixedTail(rec: Record): seq<Piece> {
    Member("created_at", StampText(rec.createdAt), ",") + Member("expires_at", StampText(rec.expiresAt), "}")
  }

  /** json.Marshal(recordEnvelope): empty status, headers and body are omitted. */
  function Marshal(rec: Record, order: seq<string>): string
    requires forall k | k in order :: k in rec.headers
  {
    Render(EscapeChar, FixedHead(rec) + StatusPieces(rec) + HeadersMember(rec, order) + BodyPieces(rec) + FixedTail(rec))
  }

  // ---- when the search hits ----

  /** A string whose JSON form shows the quoted word: the word itself, or one ending in a quote and the word. */
  predicate Shows(word: string, s: string) {
    s == word || (|s| > |word| && s[|s| - |word|..] == word && s[|s| - |word| - 1] == '"')
  }

  predicate ShowsWord(s: string) {
    Shows(WORD, s)
  }

  /** The condition under which the release script takes a record for an in-flight one. */
  predicate LooksInFlight(rec: Record) {
    rec.state == InFlight || exists k | k in rec.headers :: ShowsWord(k) || ShowsWord(rec.headers[k])
  }
}
