/** Strings: splitting, joining, trimming and decimal numerals. */
module Text {

  /** The pieces of s between occurrences of sep; always at least one. */
  function Split(s: string, sep: char): (parts: seq<string>)
    ensures |parts| >= 1
  {
    if s == "" then [""]
    else
      var rest := Split(s[1..], sep);
      if s[0] == sep then [""] + rest else [[s[0]] + rest[0]] + rest[1..]
  }

  function Join(parts: seq<string>, sep: char): string
    requires parts != []
  {
    if |parts| == 1 then parts[0] else parts[0] + [sep] + Join(parts[1..], sep)
  }

  /** The pieces after putting c in front. */
  function Grow(c: char, parts: seq<string>, sep: char): seq<string>
    requires parts != []
  {
    if c == sep then [""] + parts else [[c] + parts[0]] + parts[1..]
  }

  lemma SplitGrows(c: char, s: string, sep: char)
    ensures Split([c] + s, sep) == Grow(c, Split(s, sep), sep)
  {
    assert ([c] + s)[1..] == s;
  }

  lemma Grown(c: char, left: seq<string>, right: seq<string>, sep: char)
    requires left != []
    ensures Grow(c, left + right, sep) == Grow(c, left, sep) + right
  {
    assert (left + right)[1..] == left[1..] + right;
  }

  /** Splitting at one known separator splits both sides. */
  lemma {:induction false} SplitAt(a: string, b: string, sep: char)
    ensures Split(a + [sep] + b, sep) == Split(a, sep) + Split(b, sep)
  {
    var s := a + [sep] + b;
    if a == "" {
      assert s[0] == sep && s[1..] == b;
      assert Split(s, sep) == [""] + Split(b, sep);
    } else {
      SplitAt(a[1..], b, sep);
      assert s[0] == a[0] && s[1..] == a[1..] + [sep] + b;
      SplitGrows(a[0], a[1..], sep);
      SplitGrows(a[0], s[1..], sep);
      assert [a[0]] + a[1..] == a && [a[0]] + s[1..] == s;
      Grown(a[0], Split(a[1..], sep), Split(b, sep), sep);
    }
  }

  lemma {:induction false} SplitPlain(s: string, sep: char)
    requires sep !in s
    ensures Split(s, sep) == [s]
  {
    if s != "" {
      assert s[0] in s && s[0] != sep;
      SplitPlain(s[1..], sep);
      assert [s[0]] + s[1..] == s;
    }
  }

  /** The text before the first separator. */
  lemma FirstPieceAt(front: string, back: string, sep: char)
    requires sep !in front
    ensures Split(front + [sep] + back, sep)[0] == front
  {
    SplitAt(front, back, sep);
    SplitPlain(front, sep);
  }

  lemma {:induction false} SplitPieces(s: string, sep: char)
    ensures forall i :: 0 <= i < |Split(s, sep)| ==> sep !in Split(s, sep)[i]
  {
    if s != "" {
      SplitPieces(s[1..], sep);
      var rest := Split(s[1..], sep);
      assert sep !in rest[0];
    }
  }

  /** Splitting undoes joining. */
  lemma {:induction false} SplitJoin(parts: seq<string>, sep: char)
    requires parts != [] && forall i :: 0 <= i < |parts| ==> sep !in parts[i]
    ensures Split(Join(parts, sep), sep) == parts
  {
    SplitPlain(parts[0], sep);
    if |parts| > 1 {
      SplitJoin(parts[1..], sep);
      SplitAt(parts[0], Join(parts[1..], sep), sep);
    }
  }

  /** s without the leading and trailing characters that satisfy space. */
  function Trim(s: string, space: char -> bool): string {
    TrimRight(TrimLeft(s, space), space)
  }

  function TrimLeft(s: string, space: char -> bool): string {
    if s != "" && space(s[0]) then TrimLeft(s[1..], space) else s
  }

  function TrimRight(s: string, space: char -> bool): string {
    if s != "" && space(s[|s| - 1]) then TrimRight(s[..|s| - 1], space) else s
  }

  /** What is left after trimming begins and ends with other characters. */
  lemma TrimmedEnds(s: string, space: char -> bool)
    ensures var t := Trim(s, space); t != "" ==> !space(t[0]) && !space(t[|t| - 1])
  {
    TrimLeftEnd(s, space);
    TrimRightEnds(TrimLeft(s, space), space);
  }

  lemma {:induction false} TrimLeftEnd(s: string, space: char -> bool)
    ensures var t := TrimLeft(s, space); t != "" ==> !space(t[0])
  {
    if s != "" && space(s[0]) {
      TrimLeftEnd(s[1..], space);
    }
  }

  lemma {:induction false} TrimRightEnds(s: string, space: char -> bool)
    ensures var t := TrimRight(s, space); t != "" ==> !space(t[|t| - 1]) && s != "" && t[0] == s[0]
  {
    if s != "" && space(s[|s| - 1]) {
      TrimRightEnds(s[..|s| - 1], space);
    }
  }

  predicate Blank(s: string, space: char -> bool) {
    forall i :: 0 <= i < |s| ==> space(s[i])
  }

  /** Nothing is left of blank text, and only of that. */
  lemma TrimBlank(s: string, space: char -> bool)
    ensures Trim(s, space) == "" <==> Blank(s, space)
  {
    TrimLeftBlank(s, space);
    var t := TrimLeft(s, space);
    TrimLeftEnd(s, space);
    if t != "" {
      TrimRightKeepsFirst(t, space);
    }
  }

  lemma {:induction false} TrimLeftBlank(s: string, space: char -> bool)
    ensures TrimLeft(s, space) == "" <==> Blank(s, space)
  {
    if s != "" && space(s[0]) {
      TrimLeftBlank(s[1..], space);
      assert forall i :: 1 <= i < |s| ==> s[i] == s[1..][i - 1];
    }
  }

  lemma {:induction false} TrimRightKeepsFirst(s: string, space: char -> bool)
    requires s != "" && !space(s[0])
    ensures TrimRight(s, space) != ""
  {
    if space(s[|s| - 1]) {
      TrimRightKeepsFirst(s[..|s| - 1], space);
    }
  }

  /** Text with no such character at either end is left alone. */
  lemma TrimNothing(s: string, space: char -> bool)
    requires s != "" ==> !space(s[0]) && !space(s[|s| - 1])
    ensures Trim(s, space) == s
  {
  }

  /** s is t with white space around it, and t itself begins and ends with other characters. */
  ghost predicate Padded(s: string, t: string, space: char -> bool) {
    && (t != "" ==> !space(t[0]) && !space(t[|t| - 1]))
    && exists left, right :: Blank(left, space) && Blank(right, space) && s == left + t + right
  }

  lemma {:induction false} TrimLeftBlanks(left: string, t: string, space: char -> bool)
    requires Blank(left, space)
    ensures TrimLeft(left + t, space) == TrimLeft(t, space)
  {
    if left == "" {
      assert left + t == t;
    } else {
      assert (left + t)[1..] == left[1..] + t;
      TrimLeftBlanks(left[1..], t, space);
    }
  }

  lemma {:induction false} TrimRightBlanks(t: string, right: string, space: char -> bool)
    requires Blank(right, space)
    ensures TrimRight(t + right, space) == TrimRight(t, space)
  {
    if right == "" {
      assert t + right == t;
    } else {
      var n := |right| - 1;
      assert (t + right)[..|t + right| - 1] == t + right[..n];
      TrimRightBlanks(t, right[..n], space);
    }
  }

  lemma TrimPadded(left: string, t: string, right: string, space: char -> bool)
    requires Blank(left, space) && Blank(right, space)
    requires t != "" ==> !space(t[0]) && !space(t[|t| - 1])
    ensures Trim(left + t + right, space) == t
  {
    assert left + t + right == left + (t + right);
    TrimLeftBlanks(left, t + right, space);
    if t == "" {
      assert t + right == right;
      TrimLeftBlank(right, space);
    } else {
      assert (t + right)[0] == t[0];
      TrimRightBlanks(t, right, space);
    }
  }

  lemma {:induction false} LeftSplits(s: string, space: char -> bool)
    ensures
      var t := TrimLeft(s, space);
      |t| <= |s| && s == s[..|s| - |t|] + t && Blank(s[..|s| - |t|], space)
  {
    if s != "" && space(s[0]) {
      LeftSplits(s[1..], space);
      var n := |s| - |TrimLeft(s, space)|;
      assert s[..n] == [s[0]] + s[1..][..n - 1];
    }
  }

  lemma {:induction false} RightSplits(s: string, space: char -> bool)
    ensures var t := TrimRight(s, space); t <= s && s == t + s[|t|..] && Blank(s[|t|..], space)
  {
    if s != "" && space(s[|s| - 1]) {
      var n := |s| - 1;
      RightSplits(s[..n], space);
      var t := TrimRight(s, space);
      assert s[|t|..] == s[..n][|t|..] + [s[n]];
    }
  }

  lemma TrimSplits(s: string, space: char -> bool) returns (left: string, right: string)
    ensures Blank(left, space) && Blank(right, space) && s == left + Trim(s, space) + right
  {
    hide TrimLeft, TrimRight, Blank;
    var u := TrimLeft(s, space);
    LeftSplits(s, space);
    RightSplits(u, space);
    left, right := s[..|s| - |u|], u[|Trim(s, space)|..];
  }

  /** Trimming takes off all the white space at both ends and nothing else. */
  lemma TrimIffPadded(s: string, t: string, space: char -> bool)
    ensures Trim(s, space) == t <==> Padded(s, t, space)
  {
    hide Trim, Blank;
    if Padded(s, t, space) {
      var left, right :| Blank(left, space) && Blank(right, space) && s == left + t + right;
      TrimPadded(left, t, right, space);
    }
    if Trim(s, space) == t {
      TrimmedEnds(s, space);
      var left, right := TrimSplits(s, space);
    }
  }

  /** Unicode white space, which strings.TrimSpace removes. */
  predicate GoSpace(c: char) {
    || '\t' <= c <= '\r' || c == ' ' || c == '\U{85}' || c == '\U{A0}' || c == '\U{1680}'
    || '\U{2000}' <= c <= '\U{200A}' || c == '\U{2028}' || c == '\U{2029}' || c == '\U{202F}'
    || c == '\U{205F}' || c == '\U{3000}'
  }

  /** str.strip also removes the four information separators. */
  predicate PythonSpace(c: char) {
    GoSpace(c) || '\U{1C}' <= c <= '\U{1F}'
  }

  // ----- decimal numerals -----

  function Digit(n: nat): char
    requires n < 10
  {
    '0' + n as char
  }

  function Decimal(n: nat): (s: string)
    ensures s != "" && (|s| == 1 <==> n < 10)
  {
    if n < 10 then [Digit(n)] else Decimal(n / 10) + [Digit(n % 10)]
  }

  /** The number that decimal digits stand for. */
  function DigitsValue(s: string): int {
    if s == "" then 0 else 10 * DigitsValue(s[..|s| - 1]) + (s[|s| - 1] as int - '0' as int)
  }

  /** A numeral stands for its number. */
  lemma {:induction false} DecimalRoundTrip(n: nat)
    ensures DigitsValue(Decimal(n)) == n
  {
    if n < 10 {
      assert DigitsValue("") == 0;
      assert [Digit(n)][..0] == "";
    } else {
      DecimalRoundTrip(n / 10);
      assert Decimal(n)[..|Decimal(n)| - 1] == Decimal(n / 10);
    }
  }

  /** Different numbers print differently. */
  lemma DecimalInjective(a: nat, b: nat)
    requires Decimal(a) == Decimal(b)
    ensures a == b
  {
    DecimalRoundTrip(a);
    DecimalRoundTrip(b);
  }

  lemma {:induction false} DecimalDigits(n: nat)
    ensures forall i :: 0 <= i < |Decimal(n)| ==> '0' <= Decimal(n)[i] <= '9'
    ensures n < 1000 ==> |Decimal(n)| <= 3
  {
    if n >= 10 {
      DecimalDigits(n / 10);
      if n < 1000 {
        assert n / 10 < 100;
        if n >= 100 {
          assert n / 10 / 10 < 10;
        }
      }
    }
  }

  // ----- UTF-8 -----

  type Byte = b: nat | b < 256

  type Bytes = seq<Byte>

  /** The UTF-8 bytes of a character. */
  function Utf8(c: char): Bytes {
    var n := c as int;
    if n < 0x80 then [n]
    else if n < 0x800 then [0xC0 + n / 0x40, 0x80 + n % 0x40]
    else if n < 0x1_0000 then [0xE0 + n / 0x1000, 0x80 + n / 0x40 % 0x40, 0x80 + n % 0x40]
    else [0xF0 + n / 0x4_0000 % 8, 0x80 + n / 0x1000 % 0x40, 0x80 + n / 0x40 % 0x40, 0x80 + n % 0x40]
  }

  /** The UTF-8 bytes of text. */
  function Encoded(s: string): Bytes {
    if s == "" then [] else Utf8(s[0]) + Encoded(s[1..])
  }

  lemma {:induction false} AsciiSize(s: string)
    requires forall i :: 0 <= i < |s| ==> s[i] as int < 0x80
    ensures |Encoded(s)| == |s|
  {
    if s != "" {
      AsciiSize(s[1..]);
    }
  }

  lemma {:induction false} EncodedAppend(a: string, b: string)
    ensures Encoded(a + b) == Encoded(a) + Encoded(b)
  {
    hide Utf8;
    if a == "" {
      assert a + b == b;
    } else {
      EncodedAppend(a[1..], b);
      assert (a + b)[0] == a[0] && (a + b)[1..] == a[1..] + b;
      assert Encoded(a + b) == Utf8(a[0]) + (Encoded(a[1..]) + Encoded(b));
    }
  }

  /** The first byte of a character tells the number of its bytes. */
  lemma Utf8Lead(c: char)
    ensures
      var b := Utf8(c)[0];
      |Utf8(c)| == if b < 0x80 then 1 else if b < 0xE0 then 2 else if b < 0xF0 then 3 else 4
  {
  }

  /** The number that the bytes of one character stand for. */
  function CodePoint(bs: seq<int>): int {
    if |bs| == 1 then bs[0]
    else if |bs| == 2 then 0x40 * (bs[0] - 0xC0) + (bs[1] - 0x80)
    else if |bs| == 3 then 0x1000 * (bs[0] - 0xE0) + 0x40 * (bs[1] - 0x80) + (bs[2] - 0x80)
    else if |bs| == 4 then
      0x4_0000 * (bs[0] - 0xF0) + 0x1000 * (bs[1] - 0x80) + 0x40 * (bs[2] - 0x80) + (bs[3] - 0x80)
    else -1
  }

  lemma Digits64(n: nat)
    requires n < 0x11_0000
    ensures n == 0x40 * (n / 0x40) + n % 0x40
    ensures n / 0x40 == 0x40 * (n / 0x1000) + n / 0x40 % 0x40
    ensures n / 0x1000 == 0x40 * (n / 0x4_0000) + n / 0x1000 % 0x40
    ensures n / 0x4_0000 < 8
  {
  }

  lemma Utf8RoundTrip(c: char)
    ensures CodePoint(Utf8(c)) == c as int
  {
    Digits64(c as int);
  }

  lemma Utf8Injective(c: char, d: char)
    requires Utf8(c) == Utf8(d)
    ensures c == d
  {
    Utf8RoundTrip(c);
    Utf8RoundTrip(d);
  }

  /** Different texts have different UTF-8 bytes. */
  lemma {:induction false} EncodedInjective(s: string, t: string)
    requires Encoded(s) == Encoded(t)
    ensures s == t
  {
    if s != "" && t != "" {
      var a, b := Utf8(s[0]), Utf8(t[0]);
      Utf8Lead(s[0]);
      Utf8Lead(t[0]);
      assert Encoded(s)[0] == a[0] && Encoded(t)[0] == b[0];
      assert a == Encoded(s)[..|a|] && b == Encoded(t)[..|b|];
      Utf8Injective(s[0], t[0]);
      assert Encoded(s)[|a|..] == Encoded(s[1..]) && Encoded(t)[|b|..] == Encoded(t[1..]);
      EncodedInjective(s[1..], t[1..]);
      assert s == [s[0]] + s[1..] && t == [t[0]] + t[1..];
    }
  }
}
