/** Enrollment URLs: printed by enrollment_url of scripts/kiosk_url.py, taken apart by
    route and displayToken of files/static/main.js. Tokens are byte strings. */
module Enrollment {
  import opened Wrappers
  import opened Text
  import opened Config

  // ----- section 2.1 of RFC 3986 -----

  predicate Unreserved(b: Byte) {
    || 'a' as int <= b <= 'z' as int || 'A' as int <= b <= 'Z' as int || '0' as int <= b <= '9' as int
    || b == '_' as int || b == '.' as int || b == '-' as int || b == '~' as int
  }

  function HexDigit(n: nat): char
    requires n < 16
  {
    if n < 10 then '0' + n as char else 'A' + (n - 10) as char
  }

  function HexValue(c: char): Option<nat> {
    if '0' <= c <= '9' then Some(c as int - '0' as int)
    else if 'A' <= c <= 'F' then Some(c as int - 'A' as int + 10)
    else if 'a' <= c <= 'f' then Some(c as int - 'a' as int + 10)
    else None
  }

  function QuoteByte(b: Byte): string {
    if Unreserved(b) then [b as char] else ['%', HexDigit(b / 16), HexDigit(b % 16)]
  }

  /** urllib.parse.quote(text, safe=""). */
  function Quote(bs: Bytes): string {
    if bs == [] then "" else QuoteByte(bs[0]) + Quote(bs[1..])
  }

  predicate Escape(s: string) {
    |s| >= 3 && s[0] == '%' && HexValue(s[1]).Some? && HexValue(s[2]).Some?
  }

  function EscapeValue(s: string): Byte
    requires Escape(s)
  {
    16 * HexValue(s[1]).value + HexValue(s[2]).value
  }

  /** Percent-decoding as URLSearchParams does it: a stray % stands for itself. */
  function PercentDecode(s: string): Bytes {
    if s == "" then []
    else if Escape(s) then [EscapeValue(s)] + PercentDecode(s[3..])
    else Utf8(s[0]) + PercentDecode(s[1..])
  }

  /** decodeURIComponent up to its bytes; None is its URIError for a stray %. */
  function DecodeComponent(s: string): Option<Bytes> {
    if s == "" then Some([])
    else if s[0] == '%' then
      if !Escape(s) then None
      else
        var rest := DecodeComponent(s[3..]);
        if rest.None? then None else Some([EscapeValue(s)] + rest.value)
    else
      var rest := DecodeComponent(s[1..]);
      if rest.None? then None else Some(Utf8(s[0]) + rest.value)
  }

  lemma HexRoundTrip(n: nat)
    requires n < 16
    ensures HexValue(HexDigit(n)) == Some(n)
  {
  }

  lemma ByteRoundTrip(b: Byte, rest: string)
    ensures
      var s := QuoteByte(b) + rest;
      if Unreserved(b) then s[0] != '%' && Utf8(s[0]) == [b] && s[1..] == rest
      else Escape(s) && EscapeValue(s) == b && s[3..] == rest
  {
    HexRoundTrip(b / 16);
    HexRoundTrip(b % 16);
  }

  /** Both decoders undo quoting, for every byte string. */
  lemma {:induction false} QuoteRoundTrip(bs: Bytes)
    ensures PercentDecode(Quote(bs)) == bs && DecodeComponent(Quote(bs)) == Some(bs)
  {
    if bs != [] {
      QuoteRoundTrip(bs[1..]);
      ByteRoundTrip(bs[0], Quote(bs[1..]));
    }
  }

  /** Quoted text is made of unreserved characters and percent signs only. */
  predicate Plain(c: char) {
    c == '%' || (c as int < 256 && Unreserved(c as int))
  }

  lemma HexIsPlain(n: nat)
    requires n < 16
    ensures Plain(HexDigit(n))
  {
  }

  lemma {:induction false} QuoteIsPlain(bs: Bytes)
    ensures forall i :: 0 <= i < |Quote(bs)| ==> Plain(Quote(bs)[i])
  {
    if bs != [] {
      QuoteIsPlain(bs[1..]);
      HexIsPlain(bs[0] / 16);
      HexIsPlain(bs[0] % 16);
    }
  }

  lemma QuoteLacks(bs: Bytes, c: char)
    requires !Plain(c)
    ensures c !in Quote(bs)
  {
    QuoteIsPlain(bs);
  }

  // ----- the printer -----

  function EnrollmentUrl(base: string, room: string, token: Bytes): string
    requires ValidRoomId(room)
  {
    base + "/room/" + Quote(Encoded(room)) + "#token=" + Quote(token)
  }

  lemma {:induction false} QuoteKeepsIds(s: string)
    requires forall i :: 0 <= i < |s| ==> RoomIdStart(s[i]) || s[i] == '-'
    ensures Quote(Encoded(s)) == s
  {
    if s != "" {
      QuoteKeepsIds(s[1..]);
      assert Utf8(s[0]) == [s[0] as int] && Unreserved(s[0] as int);
      assert Encoded(s)[1..] == Encoded(s[1..]);
    }
  }

  // ----- the parser -----

  /** The part of a URL before its fragment, and the fragment. */
  function BeforeHash(url: string): string {
    Split(url, '#')[0]
  }

  function Fragment(url: string): string {
    var front := BeforeHash(url);
    FirstPieceIsPrefix(url, '#');
    if |front| < |url| then url[|front| + 1..] else ""
  }

  lemma {:induction false} FirstPieceIsPrefix(s: string, sep: char)
    ensures Split(s, sep)[0] <= s
    ensures sep !in Split(s, sep)[0]
    ensures |Split(s, sep)[0]| < |s| ==> s[|Split(s, sep)[0]|] == sep
  {
    if s != "" {
      FirstPieceIsPrefix(s[1..], sep);
    }
  }

  /** location.pathname of scheme://authority/path?query#fragment. */
  function PathName(url: string): string {
    var parts := Split(Split(BeforeHash(url), '?')[0], '/');
    if |parts| <= 3 then "/" else "/" + Join(parts[3..], '/')
  }

  /** route: the room ID of a display page, or None if it is another page or the path
      cannot be decoded. */
  function RoomOfUrl(url: string): Option<Bytes> {
    var path := PathName(url);
    if "/room/" <= path then DecodeComponent(path[6..]) else None
  }

  function PlusToSpace(s: string): string {
    seq(|s|, i requires 0 <= i < |s| => if s[i] == '+' then ' ' else s[i])
  }

  /** The name and value of one sequence of a query string. */
  function Pair(piece: string): (Bytes, Bytes) {
    var name := Split(piece, '=')[0];
    FirstPieceIsPrefix(piece, '=');
    var value := if |name| < |piece| then piece[|name| + 1..] else "";
    (PercentDecode(PlusToSpace(name)), PercentDecode(PlusToSpace(value)))
  }

  /** URLSearchParams(...).get(name). */
  function GetParameter(pieces: seq<string>, name: Bytes): Option<Bytes> {
    if pieces == [] then None
    else if pieces[0] != "" && Pair(pieces[0]).0 == name then Some(Pair(pieces[0]).1)
    else GetParameter(pieces[1..], name)
  }

  /** The token of location.hash. URLSearchParams drops one leading question mark. */
  function TokenOfUrl(url: string): Option<Bytes> {
    var text := Fragment(url);
    var query := if text != "" && text[0] == '?' then text[1..] else text;
    GetParameter(Split(query, '&'), Encoded("token"))
  }

  // ----- the two undo each other -----

  lemma {:induction false} PlusToSpaceKeeps(s: string)
    requires '+' !in s
    ensures PlusToSpace(s) == s
  {
    assert forall i :: 0 <= i < |s| ==> s[i] in s;
  }

  lemma TokenPair(token: Bytes)
    ensures Pair("token=" + Quote(token)) == (Encoded("token"), token)
  {
    var value := Quote(token);
    FirstPieceAt("token", value, '=');
    assert "token" + "=" + value == "token=" + value;
    QuoteLacks(token, '+');
    PlusToSpaceKeeps(value);
    PlusToSpaceKeeps("token");
    QuoteRoundTrip(token);
    QuoteKeepsIds("token");
    QuoteRoundTrip(Encoded("token"));
  }

  lemma AtHash(front: string, back: string)
    requires '#' !in front
    ensures BeforeHash(front + "#" + back) == front && Fragment(front + "#" + back) == back
  {
    FirstPieceAt(front, back, '#');
  }

  lemma FragmentOfUrl(base: string, room: string, token: Bytes)
    requires ValidRoomId(room) && '#' !in base
    ensures BeforeHash(EnrollmentUrl(base, room, token)) == base + "/room/" + room
    ensures Fragment(EnrollmentUrl(base, room, token)) == "token=" + Quote(token)
  {
    UrlAtHash(base, room, token);
    AtHash(base + "/room/" + room, "token=" + Quote(token));
  }

  lemma UrlAtHash(base: string, room: string, token: Bytes)
    requires ValidRoomId(room)
    ensures EnrollmentUrl(base, room, token) == (base + "/room/" + room) + "#" + ("token=" + Quote(token))
  {
    QuoteKeepsIds(room);
    HashToken(base + "/room/" + room, Quote(token));
  }

  lemma HashToken(front: string, quoted: string)
    ensures front + "#token=" + quoted == front + "#" + ("token=" + quoted)
  {
    assert "#token=" == "#" + "token=";
  }

  /** The origins that validate_public_url returns. A query or fragment must be empty, but
      the marks ? and # of an empty one are let through, and they keep rstrip from
      removing a slash before them. */
  predicate Origin(base: string, scheme: string, netloc: string, tail: string) {
    && base == scheme + "://" + netloc + tail
    && PlainPart(scheme) && PlainPart(netloc)
    && StrayTail(tail)
  }

  predicate PlainPart(s: string) {
    '/' !in s && '?' !in s && '#' !in s
  }

  predicate StrayTail(tail: string) {
    tail == "" || tail == "?" || tail == "#" || tail == "?#" || tail == "/?" || tail == "/#" || tail == "/?#"
  }

  lemma PathOfUrl(base: string, scheme: string, netloc: string, room: string, token: Bytes)
    requires Origin(base, scheme, netloc, "") && ValidRoomId(room)
    ensures PathName(EnrollmentUrl(base, room, token)) == "/room/" + room
  {
    hide Split, Join, BeforeHash, EnrollmentUrl;
    PlainOrigin(base, scheme, netloc);
    FragmentOfUrl(base, room, token);
    PlainFront(base, room);
    SplitPlain(base + "/room/" + room, '?');
    PathOfPieces(scheme, netloc, room);
  }

  lemma PlainOrigin(base: string, scheme: string, netloc: string)
    requires Origin(base, scheme, netloc, "")
    ensures base == scheme + "://" + netloc && '?' !in base && '#' !in base
  {
  }

  lemma PlainFront(base: string, room: string)
    requires '?' !in base && ValidRoomId(room)
    ensures '?' !in base + "/room/" + room
  {
  }

  lemma PathOfPieces(scheme: string, netloc: string, room: string)
    requires '/' !in scheme && '/' !in netloc && ValidRoomId(room)
    ensures
      var parts := Split(scheme + "://" + netloc + "/room/" + room, '/');
      |parts| > 3 && "/" + Join(parts[3..], '/') == "/room/" + room
  {
    hide Split, Join;
    PiecesOfUrl(scheme, netloc, room);
    assert [scheme + ":", "", netloc, "room", room][3..] == ["room", room];
    JoinTwo("room", room);
    assert "/" + ("room" + "/" + room) == "/room/" + room;
  }

  lemma JoinTwo(a: string, b: string)
    ensures Join([a, b], '/') == a + "/" + b
  {
    assert [a, b][1..] == [b];
  }

  lemma PiecesOfUrl(scheme: string, netloc: string, room: string)
    requires '/' !in scheme && '/' !in netloc && '/' !in room
    ensures Split(scheme + "://" + netloc + "/room/" + room, '/') == [scheme + ":", "", netloc, "room", room]
  {
    var parts := [scheme + ":", "", netloc, "room", room];
    assert Join(parts[4..], '/') == room;
    assert Join(parts[3..], '/') == "room" + "/" + room by { assert parts[3..][1..] == parts[4..]; }
    assert Join(parts[2..], '/') == netloc + "/" + ("room" + "/" + room) by { assert parts[2..][1..] == parts[3..]; }
    assert Join(parts[1..], '/') == "" + "/" + (netloc + "/" + ("room" + "/" + room)) by {
      assert parts[1..][1..] == parts[2..];
    }
    assert scheme + "://" + netloc + "/room/" + room == Join(parts, '/');
    SplitJoin(parts, '/');
  }

  lemma {:induction false} FirstPieceExtends(a: string, b: string, sep: char)
    requires sep !in a
    ensures Split(a + b, sep)[0] == a + Split(b, sep)[0]
  {
    if a == "" {
      assert a + b == b;
    } else {
      assert a[0] in a;
      FirstPieceExtends(a[1..], b, sep);
      SplitGrows(a[0], a[1..] + b, sep);
      assert [a[0]] + (a[1..] + b) == a + b;
      assert [a[0]] + a[1..] == a;
      assert [a[0]] + (a[1..] + Split(b, sep)[0]) == a + Split(b, sep)[0];
    }
  }

  /** A stray ? or # ends the path. */
  lemma StrayMarkEndsPath(front: string, mark: char, rest: string)
    requires '?' !in front && '#' !in front && (mark == '?' || mark == '#')
    ensures Split(BeforeHash(front + [mark] + rest), '?')[0] == front
  {
    if mark == '#' {
      FirstPieceAt(front, rest, '#');
      SplitPlain(front, '?');
    } else {
      assert front + [mark] + rest == (front + [mark]) + rest;
      FirstPieceExtends(front + [mark], rest, '#');
      FirstPieceAt(front, Split(rest, '#')[0], '?');
    }
  }

  /** With nothing behind the network location the path is a single slash. */
  lemma PathOfRoot(scheme: string, netloc: string)
    requires '/' !in scheme && '/' !in netloc
    ensures
      var parts := Split(scheme + "://" + netloc, '/');
      |parts| == 3
    ensures
      var parts := Split(scheme + "://" + netloc + "/", '/');
      |parts| == 4 && parts[3] == ""
  {
    var parts := [scheme + ":", "", netloc];
    assert Join(parts[1..], '/') == "" + "/" + netloc by { assert parts[1..][1..] == [netloc]; }
    assert scheme + "://" + netloc == Join(parts, '/');
    SplitJoin(parts, '/');
    SplitAt(scheme + "://" + netloc, "", '/');
    assert scheme + "://" + netloc + "/" == scheme + "://" + netloc + "/" + "";
  }

  lemma StrayTailHidesPath(base: string, scheme: string, netloc: string, tail: string, rest: string)
    requires Origin(base, scheme, netloc, tail) && tail != ""
    ensures PathName(base + rest) == "/"
  {
    var i := if tail[0] == '/' then 1 else 0;
    var front := scheme + "://" + netloc + tail[..i];
    assert base + rest == front + [tail[i]] + (tail[i + 1..] + rest);
    StrayMarkEndsPath(front, tail[i], tail[i + 1..] + rest);
    PathOfRoot(scheme, netloc);
    assert front == if i == 1 then scheme + "://" + netloc + "/" else scheme + "://" + netloc;
  }

  /** The room ID comes back through the path exactly if the public URL carries no
      stray ? or #. */
  lemma RoomRoundTripIff(base: string, scheme: string, netloc: string, tail: string, room: string, token: Bytes)
    requires Origin(base, scheme, netloc, tail) && ValidRoomId(room)
    ensures RoomOfUrl(EnrollmentUrl(base, room, token)) == Some(Encoded(room)) <==> tail == ""
  {
    if tail == "" {
      assert base == scheme + "://" + netloc + "";
      PathOfUrl(base, scheme, netloc, room, token);
      QuoteKeepsIds(room);
      QuoteRoundTrip(Encoded(room));
    } else {
      var rest := "/room/" + Quote(Encoded(room)) + "#token=" + Quote(token);
      StrayTailHidesPath(base, scheme, netloc, tail, rest);
      assert EnrollmentUrl(base, room, token) == base + rest;
    }
  }

  lemma TokenOfPlainUrl(url: string, token: Bytes)
    requires Fragment(url) == "token=" + Quote(token)
    ensures TokenOfUrl(url) == Some(token)
  {
    var text := "token=" + Quote(token);
    QuoteLacks(token, '&');
    SplitPlain(text, '&');
    TokenPair(token);
    assert text[0] == 't';
  }

  /** A stray # makes the path part of the fragment, whose one parameter is then not
      called token. */
  lemma TokenBehindStrayHash(url: string, room: string, token: Bytes)
    requires ValidRoomId(room) && Fragment(url) == "/room/" + room + "#token=" + Quote(token)
    ensures TokenOfUrl(url) == None
  {
    hide Split, Fragment, Quote, Pair;
    var name := "/room/" + room + "#token";
    var text := Fragment(url);
    assert text == name + "=" + Quote(token);
    QuoteLacks(token, '&');
    SplitPlain(text, '&');
    NameOfPair(name, Quote(token));
    FirstByte(name);
    FirstByte("token");
    OneParameter(text, Encoded("token"));
  }

  lemma NameOfPair(name: string, value: string)
    requires '=' !in name && '+' !in name
    ensures Pair(name + "=" + value).0 == PercentDecode(name)
  {
    FirstPieceAt(name, value, '=');
    PlusToSpaceKeeps(name);
  }

  lemma OneParameter(piece: string, name: Bytes)
    requires piece != "" && Pair(piece).0 != name
    ensures GetParameter([piece], name) == None
  {
    assert [piece][1..] == [];
  }

  lemma FirstByte(s: string)
    requires s != "" && s[0] as int < 0x80 && s[0] != '%'
    ensures PercentDecode(s) != [] && PercentDecode(s)[0] == s[0] as int
    ensures Encoded(s) != [] && Encoded(s)[0] == s[0] as int
  {
    assert Utf8(s[0]) == [s[0] as int];
  }

  /** The token comes back, whatever bytes it has, exactly if the public URL carries no
      stray #. */
  lemma TokenRoundTripIff(base: string, scheme: string, netloc: string, tail: string, room: string, token: Bytes)
    requires Origin(base, scheme, netloc, tail) && ValidRoomId(room)
    ensures TokenOfUrl(EnrollmentUrl(base, room, token)) == Some(token) <==> '#' !in tail
  {
    if '#' !in tail {
      FragmentOfUrl(base, room, token);
      TokenOfPlainUrl(EnrollmentUrl(base, room, token), token);
    } else {
      FragmentBehindStrayHash(base, scheme, netloc, tail, room, token);
      TokenBehindStrayHash(EnrollmentUrl(base, room, token), room, token);
    }
  }

  lemma FragmentBehindStrayHash(
      base: string, scheme: string, netloc: string, tail: string, room: string, token: Bytes)
    requires Origin(base, scheme, netloc, tail) && ValidRoomId(room) && '#' in tail
    ensures Fragment(EnrollmentUrl(base, room, token)) == "/room/" + room + "#token=" + Quote(token)
  {
    var front := BeforeStrayHash(base, scheme, netloc, tail);
    QuoteKeepsIds(room);
    Regroup(front, "#", "/room/", room, "#token=", Quote(token));
    AtHash(front, "/room/" + room + "#token=" + Quote(token));
  }

  lemma BeforeStrayHash(base: string, scheme: string, netloc: string, tail: string) returns (front: string)
    requires Origin(base, scheme, netloc, tail) && '#' in tail
    ensures base == front + "#" && '#' !in front
  {
    var before := if tail == "#" then "" else if tail == "?#" then "?" else if tail == "/#" then "/" else "/?";
    front := scheme + "://" + netloc + before;
    TailWithHash(tail, before);
    Reassociate(scheme + "://" + netloc, before, "#");
  }

  lemma TailWithHash(tail: string, before: string)
    requires StrayTail(tail) && '#' in tail
    requires before == if tail == "#" then "" else if tail == "?#" then "?" else if tail == "/#" then "/" else "/?"
    ensures tail == before + "#" && '#' !in before
  {
  }

  lemma Reassociate(a: string, b: string, c: string)
    ensures a + (b + c) == (a + b) + c
  {
  }

  lemma Regroup(front: string, mark: string, a: string, b: string, c: string, d: string)
    ensures front + mark + a + b + c + d == front + mark + (a + b + c + d)
  {
  }

  lemma SameFrontAndBack(front1: string, back1: string, front2: string, back2: string, sep: char)
    requires sep !in front1 && sep !in front2
    requires front1 + [sep] + back1 == front2 + [sep] + back2
    ensures front1 == front2 && back1 == back2
  {
    FirstPieceAt(front1, back1, sep);
    FirstPieceAt(front2, back2, sep);
    assert (front1 + [sep] + back1)[|front1| + 1..] == back1;
    assert (front2 + [sep] + back2)[|front2| + 1..] == back2;
  }

  lemma AfterFront(url: string, base: string, room: string, quoted: string)
    requires url == base + "/room/" + room + "#token=" + quoted
    ensures |url| >= |base| + 6 && url[|base| + 6..] == room + "#" + ("token=" + quoted)
  {
    assert url == (base + "/room/") + (room + "#" + ("token=" + quoted));
  }

  /** Different rooms or tokens have different URLs. */
  lemma UrlsAreDistinct(base: string, room1: string, token1: Bytes, room2: string, token2: Bytes)
    requires ValidRoomId(room1) && ValidRoomId(room2)
    requires EnrollmentUrl(base, room1, token1) == EnrollmentUrl(base, room2, token2)
    ensures room1 == room2 && token1 == token2
  {
    QuoteKeepsIds(room1);
    QuoteKeepsIds(room2);
    var url := EnrollmentUrl(base, room1, token1);
    var back1, back2 := "token=" + Quote(token1), "token=" + Quote(token2);
    AfterFront(url, base, room1, Quote(token1));
    AfterFront(url, base, room2, Quote(token2));
    SameFrontAndBack(room1, back1, room2, back2, '#');
    assert Quote(token1) == back1[6..] == back2[6..] == Quote(token2);
    QuoteRoundTrip(token1);
    QuoteRoundTrip(token2);
  }

  // ----- what the server makes of the token -----

  /** One character inside a string of JSON.stringify. */
  function JsonChar(c: char): string {
    var n := c as int;
    if c == '\"' then "\\\""
    else if c == '\\' then "\\\\"
    else if n == 8 then "\\b"
    else if n == 9 then "\\t"
    else if n == 10 then "\\n"
    else if n == 12 then "\\f"
    else if n == 13 then "\\r"
    else if n < 32 then "\\u00" + [if n < 16 then '0' else '1', LowerHex(n % 16)]
    else [c]
  }

  function LowerHex(n: nat): char
    requires n < 16
  {
    if n < 10 then '0' + n as char else 'a' + (n - 10) as char
  }

  function JsonText(s: string): string {
    if s == "" then "" else JsonChar(s[0]) + JsonText(s[1..])
  }

  const AUTH_START := "{\"Type\":\"auth\",\"Value\":\""
  const AUTH_END := "\",\"SessionID\":\"\"}"

  /** The text of send('auth', token). */
  function AuthMessage(token: string): string {
    AUTH_START + JsonText(token) + AUTH_END
  }

  /** The character of a two-character JSON escape. */
  function Unescaped(c: char): Option<char> {
    if c == '\"' || c == '\\' || c == '/' then Some(c)
    else if c == 'b' then Some(8 as char)
    else if c == 't' then Some(9 as char)
    else if c == 'n' then Some(10 as char)
    else if c == 'f' then Some(12 as char)
    else if c == 'r' then Some(13 as char)
    else None
  }

  predicate HexFour(s: string) {
    |s| >= 4 && HexValue(s[0]).Some? && HexValue(s[1]).Some? && HexValue(s[2]).Some? && HexValue(s[3]).Some?
  }

  function FourValue(s: string): nat
    requires HexFour(s)
  {
    0x1000 * HexValue(s[0]).value + 0x100 * HexValue(s[1]).value + 0x10 * HexValue(s[2]).value + HexValue(s[3]).value
  }

  /** The inside of a JSON string, decoded as section 7 of RFC 8259 says; None if it is no
      such text. Escaped surrogates, which JSON.stringify does not write for text without
      them, are left out. */
  function JsonDecode(s: string): Option<string> {
    if s == "" then Some("")
    else if s[0] == '\"' || s[0] < ' ' then None
    else if s[0] != '\\' then After(s[0], JsonDecode(s[1..]))
    else if |s| >= 2 && Unescaped(s[1]).Some? then After(Unescaped(s[1]).value, JsonDecode(s[2..]))
    else if |s| >= 6 && s[1] == 'u' && HexFour(s[2..]) && !(0xD800 <= FourValue(s[2..]) < 0xE000)
    then After(FourValue(s[2..]) as char, JsonDecode(s[6..]))
    else None
  }

  function After(c: char, rest: Option<string>): Option<string> {
    if rest.None? then None else Some([c] + rest.value)
  }

  lemma JsonCharRoundTrip(c: char, rest: string)
    ensures JsonDecode(JsonChar(c) + rest) == After(c, JsonDecode(rest))
  {
    var s, n := JsonChar(c) + rest, |JsonChar(c)|;
    assert s[n..] == rest;
    if n == 6 {
      assert s[2..][..4] == JsonChar(c)[2..];
      HexTail(c);
      assert s[2] == '0' && s[3] == '0' && s[4] == JsonChar(c)[4] && s[5] == JsonChar(c)[5];
    }
  }

  lemma HexTail(c: char)
    requires |JsonChar(c)| == 6
    ensures
      var s := JsonChar(c);
      && s[0] == '\\' && s[1] == 'u' && HexFour(s[2..]) && FourValue(s[2..]) == c as int
  {
    var s := JsonChar(c);
    assert s[2..] == ['0', '0', s[4], s[5]];
  }

  /** The server decodes what the page encodes. */
  lemma {:induction false} JsonRoundTrip(s: string)
    ensures JsonDecode(JsonText(s)) == Some(s)
  {
    if s != "" {
      JsonRoundTrip(s[1..]);
      JsonCharRoundTrip(s[0], JsonText(s[1..]));
      assert [s[0]] + s[1..] == s;
    }
  }

  /** The read limit drops any longer message. */
  predicate Fits(token: string, maxMessageBytes: nat) {
    |Encoded(AuthMessage(token))| <= maxMessageBytes
  }

  /** The value of an auth message in the page's form; None for any other text. */
  function AuthValue(message: string): Option<string> {
    if |AUTH_START| + |AUTH_END| <= |message| && AUTH_START <= message
      && message[|message| - |AUTH_END|..] == AUTH_END
    then JsonDecode(message[|AUTH_START|..|message| - |AUTH_END|]) else None
  }

  /** initialAuth and handleDisplay: the server reads up to its limit, and trims what it is
      sent but not what it is configured with. */
  predicate Accepts(configured: string, message: string, maxMessageBytes: nat) {
    && |Encoded(message)| <= maxMessageBytes
    && AuthValue(message).Some? && AuthValue(message).value != ""
    && Trim(AuthValue(message).value, GoSpace) == configured
  }

  lemma AuthRoundTrip(token: string)
    ensures AuthValue(AuthMessage(token)) == Some(token)
  {
    hide JsonDecode, JsonText;
    var message := AuthMessage(token);
    JsonRoundTrip(token);
    assert message[|AUTH_START|..|message| - |AUTH_END|] == JsonText(token);
  }

  /** The display page sends the text whose bytes it finds in its URL. */
  ghost predicate Enrolls(url: string, room: string, token: string, maxMessageBytes: nat) {
    && RoomOfUrl(url) == Some(Encoded(room))
    && exists sent :: TokenOfUrl(url) == Some(Encoded(sent))
         && Accepts(token, AuthMessage(sent), maxMessageBytes)
  }

  predicate SurroundedBySpace(s: string) {
    s != "" && (GoSpace(s[0]) || GoSpace(s[|s| - 1]))
  }

  /** The printed URL leads to the page of its room and a message with which the server
      accepts the display exactly if the public URL carries no stray ? or #, the token has
      no white space around it, and the message fits the server's read limit. */
  lemma EnrollmentWorksIff(
      base: string, scheme: string, netloc: string, tail: string, room: string, token: string, maxMessageBytes: nat)
    requires Origin(base, scheme, netloc, tail) && ValidRoomId(room) && ValidToken(token)
    ensures Enrolls(EnrollmentUrl(base, room, Encoded(token)), room, token, maxMessageBytes) <==>
            tail == "" && !SurroundedBySpace(token) && Fits(token, maxMessageBytes)
  {
    var url := EnrollmentUrl(base, room, Encoded(token));
    RoomRoundTripIff(base, scheme, netloc, tail, room, Encoded(token));
    TokenRoundTripIff(base, scheme, netloc, tail, room, Encoded(token));
    if tail == "" {
      AcceptsItselfIff(token, maxMessageBytes);
      forall sent | Encoded(sent) == Encoded(token) ensures sent == token {
        EncodedInjective(sent, token);
      }
      assert Enrolls(url, room, token, maxMessageBytes) <==> Accepts(token, AuthMessage(token), maxMessageBytes);
    }
  }

  lemma AcceptsItselfIff(token: string, maxMessageBytes: nat)
    requires ValidToken(token)
    ensures Accepts(token, AuthMessage(token), maxMessageBytes) <==>
            !SurroundedBySpace(token) && Fits(token, maxMessageBytes)
  {
    AuthRoundTrip(token);
    TrimmedEnds(token, GoSpace);
    if !SurroundedBySpace(token) {
      TrimNothing(token, GoSpace);
    }
  }

  /** Letters, digits, hyphens and underscores: what token_urlsafe returns. */
  predicate UrlSafe(c: char) {
    RoomIdStart(c) || 'A' <= c <= 'Z' || c == '-' || c == '_'
  }

  lemma {:induction false} UrlSafeText(token: string)
    requires forall i :: 0 <= i < |token| ==> UrlSafe(token[i])
    ensures EscapeBytes(token) == 0 && |Encoded(token)| == |token|
  {
    if token != "" {
      UrlSafeText(token[1..]);
    }
  }

  lemma AuthFrameSize()
    ensures |AUTH_START| == 24 && |AUTH_END| == 17
    ensures |Encoded(AUTH_START)| == 24 && |Encoded(AUTH_END)| == 17
  {
    hide Encoded;
    AsciiSize(AUTH_START);
    AsciiSize(AUTH_END);
  }

  /** The bytes that escaping adds: one for a quotation mark, a backslash and a control
      character with a short escape, five for any other control character. */
  function EscapeBytes(s: string): nat {
    if s == "" then 0
    else
      (if s[0] in {'\"', '\\', 8 as char, '\t', '\n', 12 as char, '\r'} then 1 else if s[0] < ' ' then 5 else 0)
      + EscapeBytes(s[1..])
  }

  lemma {:induction false} JsonSize(s: string)
    ensures |Encoded(JsonText(s))| == |Encoded(s)| + EscapeBytes(s)
  {
    if s != "" {
      JsonSize(s[1..]);
      EncodedAppend(JsonChar(s[0]), JsonText(s[1..]));
      JsonCharSize(s[0]);
    }
  }

  lemma JsonCharSize(c: char)
    ensures |Encoded(JsonChar(c))| == |Utf8(c)| + EscapeBytes([c])
  {
    var s := JsonChar(c);
    assert [c][1..] == "";
    if s == [c] {
      assert Encoded([c]) == Utf8(c) + Encoded("");
    } else {
      AsciiSize(s);
    }
  }

  /** Which messages fit the limit, in terms of the token. */
  lemma FitsIff(token: string, maxMessageBytes: nat)
    ensures Fits(token, maxMessageBytes) <==> |Encoded(token)| + EscapeBytes(token) + 41 <= maxMessageBytes
  {
    hide Encoded, JsonText, EscapeBytes;
    JsonSize(token);
    AuthFrameSize();
    EncodedAppend(AUTH_START, JsonText(token));
    EncodedAppend(AUTH_START + JsonText(token), AUTH_END);
  }

  /** A generated token fits exactly if it leaves 41 bytes for the rest of the message; so
      the 43 characters of token_urlsafe(32) fit every limit the server accepts. */
  lemma UrlSafeTokenFits(token: string, maxMessageBytes: nat)
    requires forall i :: 0 <= i < |token| ==> UrlSafe(token[i])
    ensures Fits(token, maxMessageBytes) <==> |token| + 41 <= maxMessageBytes
    ensures |token| == 43 && maxMessageBytes >= 1024 ==> Fits(token, maxMessageBytes)
  {
    hide Encoded, EscapeBytes;
    UrlSafeText(token);
    FitsIff(token, maxMessageBytes);
  }

  /** An accepted token for which no display is ever accepted, under the smallest limit. */
  lemma LongTokenNeverFits()
    ensures
      var token := seq(2000, i => 'a');
      ValidToken(token) && !SurroundedBySpace(token) && !Fits(token, 1024)
  {
    var token := seq(2000, i => 'a');
    UrlSafeText(token);
    UrlSafeTokenFits(token, 1024);
    assert token[0] == 'a';
  }
}
